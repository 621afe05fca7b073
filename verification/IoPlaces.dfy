/** Every task is in exactly one place: no interleaving loses a task, runs it twice, or lets a
    registration end in two ways; and the pending counter is exact. */
module IoPlaces {
  import opened Wrappers
  import opened IoMachine
  import opened IoShapes

  predicate Owes(actor: Actor, id: nat) {
    exists i :: 0 <= i < |actor.todo| && actor.todo[i].Schedule? && actor.todo[i].task.id == id
  }

  predicate Holds(queue: seq<Task>, id: nat) {
    exists i :: 0 <= i < |queue| && queue[i].id == id
  }

  /** Everything a slot, a thread or the queue holds is recorded as being there. */
  predicate SlotsRecorded(s: State) {
    forall k :: k in s.slots ==>
      s.slots[k].id < |s.place| && s.place[s.slots[k].id] == InSlot(k) && s.slots[k].pin.None?
  }

  predicate TodoRecorded(s: State, a: nat)
    requires a < |s.actors|
  {
    var todo := s.actors[a].todo;
    && (forall i :: 0 <= i < |todo| && todo[i].Schedule? ==>
          todo[i].task.id < |s.place| && s.place[todo[i].task.id] == Owed(a))
    && (forall i, j :: 0 <= i < j < |todo| && todo[i].Schedule? && todo[j].Schedule? ==>
          todo[i].task.id != todo[j].task.id)
  }

  predicate TodosRecorded(s: State) {
    forall a :: 0 <= a < |s.actors| ==> TodoRecorded(s, a)
  }

  predicate QueueRecorded(s: State) {
    && (forall i :: 0 <= i < |s.queue| ==> s.queue[i].id < |s.place| && s.place[s.queue[i].id] == Queued)
    && (forall i, j :: 0 <= i < j < |s.queue| ==> s.queue[i].id != s.queue[j].id)
  }

  /** And everything recorded as being somewhere is there. */
  predicate Found(s: State, id: nat)
    requires id < |s.place|
  {
    match s.place[id]
    case InSlot(k) => k in s.slots && s.slots[k].id == id
    case Owed(a) => a < |s.actors| && Owes(s.actors[a], id)
    case Queued => Holds(s.queue, id)
    case _ => true
  }

  predicate AllFound(s: State) {
    forall id :: 0 <= id < |s.place| ==> Found(s, id)
  }

  predicate Placed(s: State) {
    SlotsRecorded(s) && TodosRecorded(s) && QueueRecorded(s) && AllFound(s)
  }

  predicate NothingToSchedule(todo: seq<Micro>) {
    forall i :: 0 <= i < |todo| ==> todo[i].Tickle?
  }

  /** Steps that neither move a task nor create one. */
  lemma FramePlaced(s: State, t: State)
    requires Placed(s)
    requires t.slots == s.slots && t.queue == s.queue && t.place == s.place && |t.actors| == |s.actors|
    requires forall a :: 0 <= a < |s.actors| ==>
               (t.actors[a].todo == s.actors[a].todo ||
                (NothingToSchedule(s.actors[a].todo) && NothingToSchedule(t.actors[a].todo)))
    ensures Placed(t)
  {
    forall a | 0 <= a < |t.actors| ensures TodoRecorded(t, a) {
      assert TodoRecorded(s, a);
    }
    forall id | 0 <= id < |t.place| ensures Found(t, id) {
      assert Found(s, id);
    }
  }

  /** A thread outside a call starts one that schedules `tasks`, numbered from the next number on. */
  lemma NewCallsPlaced(s: State, t: State, a: nat, tasks: seq<Task>)
    requires Placed(s) && a < |s.actors| && s.actors[a].todo == [] && FreshRange(s, tasks)
    requires t.slots == s.slots && t.queue == s.queue && t.place == s.place + seq(|tasks|, i => Owed(a))
    requires |t.actors| == |s.actors| && t.actors[a].todo == Calls(tasks)
    requires forall b :: 0 <= b < |s.actors| && b != a ==> t.actors[b].todo == s.actors[b].todo
    ensures Placed(t)
  {
    forall b | 0 <= b < |t.actors| ensures TodoRecorded(t, b) {
      assert TodoRecorded(s, b);
    }
    forall id | 0 <= id < |t.place| ensures Found(t, id) {
      if id < |s.place| {
        assert Found(s, id);
      } else {
        assert t.actors[a].todo[id - |s.place|].task.id == id;
      }
    }
  }

  lemma BatchPlaced(s: State, a: nat, tasks: seq<Task>)
    requires Placed(s) && CallEnabled(s, a, DoPostBatch(tasks))
    ensures Placed(PostBatch(s, a, tasks))
  {
    var t := PostBatch(s, a, tasks);
    forall b | 0 <= b < |t.actors| ensures TodoRecorded(t, b) {
      assert TodoRecorded(s, b);
    }
    forall i, j | 0 <= i < j < |t.queue| ensures t.queue[i].id != t.queue[j].id {
      if i < |s.queue| {
        assert s.queue[i].id < |s.place|;
      }
    }
    forall id | 0 <= id < |t.place| ensures Found(t, id) {
      if id < |s.place| {
        assert Found(s, id);
        if s.place[id].Queued? {
          var i :| 0 <= i < |s.queue| && s.queue[i].id == id;
          assert t.queue[i].id == id;
        }
      } else {
        assert t.queue[|s.queue| + (id - |s.place|)].id == id;
      }
    }
  }

  lemma AddEventPlaced(s: State, a: nat, slot: Slot, task: Task)
    requires Placed(s) && CallEnabled(s, a, DoAddEvent(slot, task))
    ensures Placed(AddEvent(s, a, slot, task))
  {
    var t := AddEvent(s, a, slot, task);
    forall b | 0 <= b < |t.actors| ensures TodoRecorded(t, b) {
      assert TodoRecorded(s, b);
    }
    forall id | 0 <= id < |t.place| ensures Found(t, id) {
      if id < |s.place| {
        assert Found(s, id);
      }
    }
  }

  lemma KeptSlot(s: State, keys: seq<Slot>, id: nat)
    requires forall i :: 0 <= i < |keys| ==> keys[i] in s.slots
    requires id < |s.place| && s.place[id].InSlot? && Found(s, id) && id !in Ids(Handlers(s, keys))
    ensures s.place[id].slot !in keys
  {
    forall i | 0 <= i < |keys| ensures keys[i] != s.place[id].slot {
      assert Handlers(s, keys)[i].id in Ids(Handlers(s, keys));
    }
  }

  /** Handlers leave the slots `keys`, either dropped or into the hands of thread `a`. */
  lemma RemovedPlaced(s: State, t: State, a: nat, keys: seq<Slot>, to: Place, after: seq<Micro>)
    requires Placed(s) && a < |s.actors| && s.actors[a].todo == [] && NothingToSchedule(after)
    requires forall i :: 0 <= i < |keys| ==> keys[i] in s.slots
    requires forall i, j :: 0 <= i < j < |keys| ==> keys[i] != keys[j]
    requires to == Deleted || to == Owed(a)
    requires t.slots == Without(s.slots, keys) && t.queue == s.queue
    requires t.place == Moved(s.place, Ids(Handlers(s, keys)), to)
    requires |t.actors| == |s.actors|
    requires t.actors[a].todo == (if to == Deleted then [] else Calls(Handlers(s, keys))) + after
    requires forall b :: 0 <= b < |s.actors| && b != a ==> t.actors[b].todo == s.actors[b].todo
    ensures Placed(t)
  {
    var tasks := Handlers(s, keys);
    forall k | k in t.slots ensures t.place[t.slots[k].id] == InSlot(k) {
      var id := s.slots[k].id;
      assert s.place[id] == InSlot(k);
      if id in Ids(tasks) {
        var i := DetachedFrom(s, keys, id);
      }
    }
    forall b | 0 <= b < |t.actors| ensures TodoRecorded(t, b) {
      assert TodoRecorded(s, b);
      RemovedTodo(s, t, a, b, keys, to, after);
    }
    assert QueueRecorded(t) by {
      forall i | 0 <= i < |s.queue| ensures s.queue[i].id !in Ids(tasks) {
        if s.queue[i].id in Ids(tasks) {
          var i := DetachedFrom(s, keys, s.queue[i].id);
        }
      }
    }
    forall id | 0 <= id < |t.place| ensures Found(t, id) {
      assert Found(s, id);
      RemovedFound(s, t, a, keys, to, after, id);
    }
  }

  lemma DetachedFrom(s: State, keys: seq<Slot>, id: nat) returns (i: nat)
    requires forall j :: 0 <= j < |keys| ==> keys[j] in s.slots
    requires SlotsRecorded(s) && id in Ids(Handlers(s, keys))
    ensures i < |keys| && s.slots[keys[i]].id == id && id < |s.place| && s.place[id] == InSlot(keys[i])
  {
    i :| 0 <= i < |keys| && Handlers(s, keys)[i].id == id;
    assert s.slots[keys[i]] == Handlers(s, keys)[i];
  }

  lemma RemovedTodo(s: State, t: State, a: nat, b: nat, keys: seq<Slot>, to: Place, after: seq<Micro>)
    requires SlotsRecorded(s) && a < |s.actors| == |t.actors| && b < |s.actors| && TodoRecorded(s, b)
    requires NothingToSchedule(after)
    requires forall i :: 0 <= i < |keys| ==> keys[i] in s.slots
    requires forall i, j :: 0 <= i < j < |keys| ==> keys[i] != keys[j]
    requires to == Deleted || to == Owed(a)
    requires t.place == Moved(s.place, Ids(Handlers(s, keys)), to)
    requires t.actors[b].todo ==
      if b != a then s.actors[b].todo else (if to == Deleted then [] else Calls(Handlers(s, keys))) + after
    ensures TodoRecorded(t, b)
  {
    if b != a {
      RemovedOther(s, t, b, keys, to);
    } else if to != Deleted {
      RemovedOwn(s, t, a, keys, after);
    }
  }

  lemma RemovedOther(s: State, t: State, b: nat, keys: seq<Slot>, to: Place)
    requires SlotsRecorded(s) && b < |s.actors| == |t.actors| && TodoRecorded(s, b)
    requires forall i :: 0 <= i < |keys| ==> keys[i] in s.slots
    requires t.place == Moved(s.place, Ids(Handlers(s, keys)), to) && t.actors[b].todo == s.actors[b].todo
    ensures TodoRecorded(t, b)
  {
    hide Handlers, Ids, SlotsRecorded;
    var ids, todo := Ids(Handlers(s, keys)), s.actors[b].todo;
    forall i | 0 <= i < |todo| && todo[i].Schedule? ensures todo[i].task.id !in ids {
      if todo[i].task.id in ids {
        var j := DetachedFrom(s, keys, todo[i].task.id);
      }
    }
  }

  lemma RemovedOwn(s: State, t: State, a: nat, keys: seq<Slot>, after: seq<Micro>)
    requires SlotsRecorded(s) && a < |s.actors| == |t.actors| && NothingToSchedule(after)
    requires forall i :: 0 <= i < |keys| ==> keys[i] in s.slots
    requires forall i, j :: 0 <= i < j < |keys| ==> keys[i] != keys[j]
    requires t.place == Moved(s.place, Ids(Handlers(s, keys)), Owed(a))
    requires t.actors[a].todo == Calls(Handlers(s, keys)) + after
    ensures TodoRecorded(t, a)
  {
    var tasks := Handlers(s, keys);
    forall i | 0 <= i < |tasks| ensures tasks[i].id < |t.place| && t.place[tasks[i].id] == Owed(a) {
      assert tasks[i] == s.slots[keys[i]];
      assert tasks[i].id in Ids(tasks);
    }
    forall i, j | 0 <= i < j < |tasks| ensures tasks[i].id != tasks[j].id {
      assert s.place[tasks[i].id] == InSlot(keys[i]) && s.place[tasks[j].id] == InSlot(keys[j]);
    }
  }

  lemma RemovedFound(s: State, t: State, a: nat, keys: seq<Slot>, to: Place, after: seq<Micro>, id: nat)
    requires a < |s.actors| == |t.actors| && s.actors[a].todo == [] && SlotsRecorded(s)
    requires id < |s.place| && Found(s, id)
    requires forall i :: 0 <= i < |keys| ==> keys[i] in s.slots
    requires to == Deleted || to == Owed(a)
    requires t.slots == Without(s.slots, keys) && t.queue == s.queue
    requires t.place == Moved(s.place, Ids(Handlers(s, keys)), to)
    requires t.actors[a].todo == (if to == Deleted then [] else Calls(Handlers(s, keys))) + after
    requires forall b :: 0 <= b < |s.actors| && b != a ==> t.actors[b].todo == s.actors[b].todo
    ensures Found(t, id)
  {
    var tasks := Handlers(s, keys);
    if id in Ids(tasks) {
      if to != Deleted {
        var i :| 0 <= i < |tasks| && tasks[i].id == id;
        assert t.actors[a].todo[i] == Schedule(tasks[i]);
      }
    } else if s.place[id].InSlot? {
      KeptSlot(s, keys, id);
    }
  }

  /** The head of a thread's list goes to the queue. */
  lemma PushPlaced(s: State, t: State, a: nat, task: Task, rest: seq<Micro>)
    requires Placed(s) && a < |s.actors| && s.actors[a].todo == [Schedule(task)] + rest
    requires t.slots == s.slots && t.queue == s.queue + [task] && t.place == Moved(s.place, {task.id}, Queued)
    requires t.actors == s.actors[a := s.actors[a].(todo := [Tickle] + rest)]
    ensures Placed(t)
  {
    assert TodoRecorded(s, a);
    assert s.actors[a].todo[0] == Schedule(task);
    assert s.place[task.id] == Owed(a);
    forall b | 0 <= b < |t.actors| ensures TodoRecorded(t, b) {
      assert TodoRecorded(s, b);
      PushKeepsTodo(s, t, a, b, task, rest);
    }
    forall id | 0 <= id < |t.place| ensures Found(t, id) {
      assert Found(s, id);
      if id == task.id {
        assert t.queue[|s.queue|].id == id;
      } else if s.place[id].Queued? {
        HoldsMore(s.queue, [task], id);
      } else if s.place[id] == Owed(a) {
        PopOwes(s.actors[a], t.actors[a], task, rest, id);
      }
    }
  }

  lemma HoldsMore(queue: seq<Task>, more: seq<Task>, id: nat)
    requires Holds(queue, id)
    ensures Holds(queue + more, id)
  {
    var i :| 0 <= i < |queue| && queue[i].id == id;
    assert (queue + more)[i].id == id;
  }

  lemma PopOwes(actor: Actor, after: Actor, task: Task, rest: seq<Micro>, id: nat)
    requires Owes(actor, id) && actor.todo == [Schedule(task)] + rest && id != task.id
    requires after.todo == [Tickle] + rest
    ensures Owes(after, id)
  {
    var i :| 0 <= i < |actor.todo| && actor.todo[i].Schedule? && actor.todo[i].task.id == id;
    assert after.todo[i] == actor.todo[i];
  }

  lemma PushKeepsOther(s: State, t: State, a: nat, b: nat, task: Task)
    requires a < |s.actors| && b < |s.actors| == |t.actors| && b != a && TodoRecorded(s, b)
    requires t.place == Moved(s.place, {task.id}, Queued) && t.actors[b].todo == s.actors[b].todo
    requires task.id < |s.place| && s.place[task.id] == Owed(a)
    ensures TodoRecorded(t, b)
  {
  }

  lemma PushKeepsOwn(s: State, t: State, a: nat, task: Task, rest: seq<Micro>)
    requires a < |s.actors| == |t.actors| && TodoRecorded(s, a)
    requires s.actors[a].todo == [Schedule(task)] + rest && t.place == Moved(s.place, {task.id}, Queued)
    requires t.actors[a].todo == [Tickle] + rest
    ensures TodoRecorded(t, a)
  {
    var before, after := s.actors[a].todo, t.actors[a].todo;
    assert before[0] == Schedule(task);
    forall i | 0 < i < |after| ensures after[i] == before[i] {
    }
  }

  lemma PushKeepsTodo(s: State, t: State, a: nat, b: nat, task: Task, rest: seq<Micro>)
    requires a < |s.actors| && b < |s.actors| == |t.actors| && TodoRecorded(s, a) && TodoRecorded(s, b)
    requires s.actors[a].todo == [Schedule(task)] + rest && t.place == Moved(s.place, {task.id}, Queued)
    requires t.actors[b].todo == if b == a then [Tickle] + rest else s.actors[b].todo
    requires task.id < |s.place| && s.place[task.id] == Owed(a)
    ensures TodoRecorded(t, b)
  {
    hide TodoRecorded, Moved;
    if b == a {
      PushKeepsOwn(s, t, a, task, rest);
    } else {
      PushKeepsOther(s, t, a, b, task);
    }
  }

  lemma WriteTokenPlaced(s: State, a: nat)
    requires Placed(s) && a < |s.actors| && s.actors[a].todo != [] && s.actors[a].todo[0].Tickle?
    ensures Placed(WriteToken(s, a))
  {
    var t := WriteToken(s, a);
    assert TodoRecorded(s, a);
    forall b | 0 <= b < |t.actors| ensures TodoRecorded(t, b) {
      assert TodoRecorded(s, b);
    }
    forall id | 0 <= id < |t.place| ensures Found(t, id) {
      assert Found(s, id);
      if s.place[id] == Owed(a) {
        var i :| 0 <= i < |s.actors[a].todo| && s.actors[a].todo[i].Schedule? && s.actors[a].todo[i].task.id == id;
        assert t.actors[a].todo[i - 1] == s.actors[a].todo[i];
      }
    }
  }

  /** An entry leaves the queue for good. */
  lemma TakePlaced(s: State, t: State, i: nat)
    requires Placed(s) && i < |s.queue|
    requires t.slots == s.slots && t.queue == s.queue[..i] + s.queue[i + 1..]
    requires t.place == Moved(s.place, {s.queue[i].id}, Started) && |t.actors| == |s.actors|
    requires forall b :: 0 <= b < |s.actors| ==> t.actors[b].todo == s.actors[b].todo
    ensures Placed(t)
  {
    var id0 := s.queue[i].id;
    assert s.place[id0] == Queued;
    forall b | 0 <= b < |t.actors| ensures TodoRecorded(t, b) {
      assert TodoRecorded(s, b);
    }
    QueueWithout(s, t, i);
    hide QueueRecorded, TodosRecorded, SlotsRecorded;
    forall id | 0 <= id < |t.place| ensures Found(t, id) {
      assert Found(s, id);
      if id != id0 && s.place[id].Queued? {
        RemoveHolds(s.queue, t.queue, i, id);
      }
    }
  }

  lemma QueueWithout(s: State, t: State, i: nat)
    requires QueueRecorded(s) && i < |s.queue| && t.queue == s.queue[..i] + s.queue[i + 1..]
    requires t.place == Moved(s.place, {s.queue[i].id}, Started)
    ensures QueueRecorded(t)
  {
    forall j | 0 <= j < |t.queue| ensures t.queue[j] == s.queue[if j < i then j else j + 1] {
    }
  }

  lemma RemoveHolds(queue: seq<Task>, after: seq<Task>, i: nat, id: nat)
    requires i < |queue| && after == queue[..i] + queue[i + 1..] && Holds(queue, id) && queue[i].id != id
    ensures Holds(after, id)
  {
    var j :| 0 <= j < |queue| && queue[j].id == id;
    assert after[if j < i then j else j - 1].id == id;
  }

  lemma ClearPlaced(s: State, a: nat)
    requires Placed(s) && CallEnabled(s, a, DoClear)
    ensures Placed(Clear(s))
  {
    var t := Clear(s);
    forall b | 0 <= b < |t.actors| ensures TodoRecorded(t, b) {
      assert TodoRecorded(s, b);
    }
    forall id | 0 <= id < |t.place| ensures Found(t, id) {
      assert Found(s, id);
    }
  }

  lemma PostPlaced(s: State, a: nat, task: Task)
    requires Placed(s) && CallEnabled(s, a, DoPost(task))
    ensures Placed(Post(s, a, task))
  {
    hide Placed;
    NewCallsPlaced(s, Post(s, a, task), a, [task]);
  }

  lemma DelEventPlaced(s: State, a: nat, keys: seq<Slot>)
    requires Placed(s) && a < |s.actors| && s.actors[a].todo == []
    requires forall i :: 0 <= i < |keys| ==> keys[i] in s.slots
    requires forall i, j :: 0 <= i < j < |keys| ==> keys[i] != keys[j]
    ensures Placed(DelEvent(s, a, keys))
  {
    hide Placed;
    RemovedPlaced(s, DelEvent(s, a, keys), a, keys, Deleted, [Tickle]);
  }

  lemma DetachPlaced(s: State, t: State, a: nat, pc: Pc, keys: seq<Slot>, after: seq<Micro>)
    requires Placed(s) && a < |s.actors| && s.actors[a].todo == [] && NothingToSchedule(after)
    requires forall i :: 0 <= i < |keys| ==> keys[i] in s.slots
    requires forall i, j :: 0 <= i < j < |keys| ==> keys[i] != keys[j]
    requires t == Detach(s, a, pc, keys, after).(late := t.late)
    ensures Placed(t)
  {
    hide Placed;
    RemovedPlaced(s, t, a, keys, Owed(a), after);
  }

  /** Calls that change no more than tokens, timers, flags and what the thread has to write. */
  lemma OtherCallPlaced(s: State, a: nat, call: Call)
    requires Placed(s) && CallEnabled(s, a, call)
    requires call.DoSetTimer? || call.DoCancelTimer? || call.DoStop? || call.DoForceStop?
    ensures Placed(ApplyCall(s, a, call))
  {
    hide Placed, AtFront, CallInProgress, Remaining;
    FramePlaced(s, ApplyCall(s, a, call));
  }

  lemma CallPlaced(s: State, a: nat, call: Call)
    requires Placed(s) && CallEnabled(s, a, call)
    ensures Placed(ApplyCall(s, a, call))
  {
    hide Placed, Chosen, Post, PostBatch, AddEvent, DelEvent, Detach, SetTimer, CancelTimer, Stop, Clear;
    match call
    case DoPost(task) => PostPlaced(s, a, task);
    case DoPostBatch(tasks) => BatchPlaced(s, a, tasks);
    case DoAddEvent(slot, task) => AddEventPlaced(s, a, slot, task);
    case DoDelEvent(fd, read, write) => DelEventPlaced(s, a, Chosen(s.slots, fd, read, write));
    case DoCancelEvent(fd, read, write) =>
      DetachPlaced(s, ApplyCall(s, a, call), a, s.actors[a].pc, Chosen(s.slots, fd, read, write), [Tickle]);
    case DoClear => ClearPlaced(s, a);
    case _ => OtherCallPlaced(s, a, call);
  }

  lemma ContinuePlaced(s: State, a: nat)
    requires Placed(s) && ContinueEnabled(s, a)
    ensures Placed(ApplyContinue(s, a))
  {
    hide Placed;
    var t := ApplyContinue(s, a);
    var todo := s.actors[a].todo;
    if s.actors[a].removed != {} {
      FramePlaced(s, t);
    } else if todo[0].Schedule? {
      assert todo == [Schedule(todo[0].task)] + todo[1..];
      assert todo[0 := Tickle] == [Tickle] + todo[1..];
      PushPlaced(s, t, a, todo[0].task, todo[1..]);
    } else {
      WriteTokenPlaced(s, a);
    }
  }

  lemma DrainPlaced(s: State, a: nat, rest: seq<Report>)
    requires Placed(s) && a < |s.actors|
    ensures Placed(Drain(s, a, rest))
  {
    hide Placed;
    FramePlaced(s, Drain(s, a, rest));
  }

  lemma ProcessPlaced(s: State, a: nat, keys: seq<Slot>, rest: seq<Report>, ready: bool)
    requires Placed(s) && a < |s.actors| && s.actors[a].todo == []
    requires forall i :: 0 <= i < |keys| ==> keys[i] in s.slots
    requires forall i, j :: 0 <= i < j < |keys| ==> keys[i] != keys[j]
    ensures Placed(ProcessEvent(s, a, keys, rest, ready))
  {
    hide Placed, Detach;
    var t := ProcessEvent(s, a, keys, rest, ready);
    if keys == [] {
      FramePlaced(s, t);
    } else {
      DetachPlaced(s, t, a, Handle(rest, true), keys, []);
    }
  }

  lemma HandlePlaced(s: State, a: nat)
    requires Placed(s) && MoveEnabled(s, a, DoHandle)
    ensures Placed(HandleOne(s, a))
  {
    hide Placed, HandleOne, Drain, ProcessEvent, Chosen;
    var Handle(batch, ready) := s.actors[a].pc;
    HandleIs(s, a);
    if batch[0].Tickled? {
      DrainPlaced(s, a, batch[1..]);
    } else {
      ProcessPlaced(s, a, Chosen(s.slots, batch[0].fd, batch[0].read, batch[0].write), batch[1..], ready);
    }
  }

  /** Moves that only change the worker's position in its loop. */
  lemma QuietMovePlaced(s: State, a: nat, move: Move)
    requires Placed(s) && MoveEnabled(s, a, move) && QuietMove(move)
    ensures Placed(ApplyMove(s, a, move))
  {
    hide Placed, MoveEnabled, ApplyMove;
    MoveShape(s, a, move);
    QuietShape(s, a, move);
    FramePlaced(s, ApplyMove(s, a, move));
  }

  lemma FinishPlaced(s: State, a: nat, again: Option<Task>)
    requires Placed(s) && MoveEnabled(s, a, DoFinish(again))
    ensures Placed(Finish(s, a, again))
  {
    hide Placed, Eligible, Executing;
    var t := Finish(s, a, again);
    if again.Some? {
      NewCallsPlaced(s, t, a, [again.value]);
    } else {
      FramePlaced(s, t);
    }
  }

  lemma ExpirePlaced(s: State, a: nat, now: nat, order: seq<nat>)
    requires Placed(s) && MoveEnabled(s, a, DoExpire(now, order))
    ensures Placed(Expire(s, a, now, |order|))
  {
    hide Placed, Due, Advanced, Elements;
    NewCallsPlaced(s, Expire(s, a, now, |order|), a, NewCallbacks(|s.place|, |order|));
  }

  lemma MovePlaced(s: State, a: nat, move: Move)
    requires Placed(s) && MoveEnabled(s, a, move)
    ensures Placed(ApplyMove(s, a, move))
  {
    hide Placed, Eligible, Executing, Due, Advanced, Elements, HandleOne, Block, InspectNext, Wake, Finish, Expire;
    match move
    case DoTake(i, fiber) => TakePlaced(s, ApplyMove(s, a, move), i);
    case DoFinish(again) => FinishPlaced(s, a, again);
    case DoHandle => HandlePlaced(s, a);
    case DoExpire(now, order) => ExpirePlaced(s, a, now, order);
    case _ => QuietMovePlaced(s, a, move);
  }

  lemma StepPlaced(s: State, step: Step)
    requires Placed(s) && Enabled(s, step)
    ensures Placed(Apply(s, step))
  {
    hide Placed, CallEnabled, MoveEnabled, ApplyCall, ApplyMove, ContinueEnabled, ApplyContinue;
    var t := Apply(s, step);
    match step
    case Begin(a, call) => CallPlaced(s, a, call);
    case Continue(a) => ContinuePlaced(s, a);
    case Loop(a, move) => MovePlaced(s, a, move);
    case Tick(ms) => FramePlaced(s, t);
  }

  /** The only ways a task moves on.  `Started`, `Deleted` and `Cleared` are final. */
  predicate MovesOn(from: Place, to: Place) {
    || from == to
    || (from.InSlot? && (to.Owed? || to.Deleted? || to.Cleared?))
    || (from.Owed? && to.Queued?)
    || (from.Queued? && to.Started?)
  }

  predicate PlacesMoveOn(s: State, t: State) {
    |s.place| <= |t.place| && forall id :: 0 <= id < |s.place| ==> MovesOn(s.place[id], t.place[id])
  }

  lemma RemovedMoveOn(s: State, keys: seq<Slot>, to: Place)
    requires SlotsRecorded(s) && forall i :: 0 <= i < |keys| ==> keys[i] in s.slots
    requires to.Owed? || to.Deleted?
    ensures forall id :: 0 <= id < |s.place| ==>
              MovesOn(s.place[id], Moved(s.place, Ids(Handlers(s, keys)), to)[id])
  {
    forall id | 0 <= id < |s.place| ensures MovesOn(s.place[id], Moved(s.place, Ids(Handlers(s, keys)), to)[id]) {
      if id in Ids(Handlers(s, keys)) {
        var i := DetachedFrom(s, keys, id);
      }
    }
  }

  lemma CallMovesOn(s: State, a: nat, call: Call)
    requires Placed(s) && CallEnabled(s, a, call)
    ensures PlacesMoveOn(s, ApplyCall(s, a, call))
  {
    hide SlotsRecorded, TodosRecorded, QueueRecorded, AllFound, AtFront, CallInProgress, Handlers, Chosen;
    match call
    case DoDelEvent(fd, read, write) => RemovedMoveOn(s, Chosen(s.slots, fd, read, write), Deleted);
    case DoCancelEvent(fd, read, write) => RemovedMoveOn(s, Chosen(s.slots, fd, read, write), Owed(a));
    case _ =>
  }

  lemma PushMovesOn(s: State, a: nat)
    requires a < |s.actors| && TodoRecorded(s, a) && s.actors[a].todo != [] && s.actors[a].todo[0].Schedule?
    ensures PlacesMoveOn(s, Push(s, a))
  {
    assert s.place[s.actors[a].todo[0].task.id] == Owed(a);
  }

  lemma ContinueMovesOn(s: State, a: nat)
    requires Placed(s) && ContinueEnabled(s, a)
    ensures PlacesMoveOn(s, ApplyContinue(s, a))
  {
    hide SlotsRecorded, QueueRecorded, AllFound, TodoRecorded, PlacesMoveOn, Push;
    assert TodoRecorded(s, a);
    if s.actors[a].removed == {} && s.actors[a].todo[0].Schedule? {
      PushMovesOn(s, a);
    } else {
      SamePlacesMoveOn(s, ApplyContinue(s, a));
    }
  }

  lemma HandleMovesOn(s: State, a: nat)
    requires Placed(s) && MoveEnabled(s, a, DoHandle)
    ensures PlacesMoveOn(s, HandleOne(s, a))
  {
    hide TodosRecorded, QueueRecorded, AllFound, Handlers, Chosen, HandleOne, Moved, Ids;
    HandleIs(s, a);
    var Handle(batch, ready) := s.actors[a].pc;
    if batch[0].Fd? {
      RemovedMoveOn(s, Chosen(s.slots, batch[0].fd, batch[0].read, batch[0].write), Owed(a));
    }
  }

  lemma TakeMovesOn(s: State, a: nat, i: nat, fiber: nat)
    requires QueueRecorded(s) && a < |s.actors| && i < |s.queue|
    ensures PlacesMoveOn(s, Take(s, a, i, fiber))
  {
  }

  lemma ExpireMovesOn(s: State, a: nat, now: nat, count: nat)
    requires a < |s.actors| && s.actors[a].pc.Handle?
    ensures PlacesMoveOn(s, Expire(s, a, now, count))
  {
    hide Advanced, NewCallbacks, Calls;
  }

  lemma FinishMovesOn(s: State, a: nat, again: Option<Task>)
    requires a < |s.actors|
    ensures PlacesMoveOn(s, Finish(s, a, again))
  {
  }

  lemma MoveMovesOn(s: State, a: nat, move: Move)
    requires Placed(s) && MoveEnabled(s, a, move)
    ensures PlacesMoveOn(s, ApplyMove(s, a, move))
  {
    hide SlotsRecorded, TodosRecorded, AllFound, Eligible, Executing, Held, Due, Elements, HandleOne, Take, Expire,
      Finish, PlacesMoveOn;
    match move
    case DoHandle => HandleMovesOn(s, a);
    case DoTake(i, fiber) => TakeMovesOn(s, a, i, fiber);
    case DoExpire(now, order) => ExpireMovesOn(s, a, now, |order|);
    case DoFinish(again) => FinishMovesOn(s, a, again);
    case _ =>
      QuietShape(s, a, move);
      SamePlacesMoveOn(s, ApplyMove(s, a, move));
  }

  lemma SamePlacesMoveOn(s: State, t: State)
    requires t.place == s.place
    ensures PlacesMoveOn(s, t)
  {
  }

  lemma StepMovesOn(s: State, step: Step)
    requires Placed(s) && Enabled(s, step)
    ensures PlacesMoveOn(s, Apply(s, step))
  {
    hide Placed, CallEnabled, MoveEnabled, ApplyCall, ApplyMove, ContinueEnabled, ApplyContinue;
    match step
    case Begin(a, call) => CallMovesOn(s, a, call);
    case Continue(a) => ContinueMovesOn(s, a);
    case Loop(a, move) => MoveMovesOn(s, a, move);
    case Tick(ms) =>
  }
}
