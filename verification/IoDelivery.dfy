/** What the event loop is for: whatever it accepts, a posted entry, a batch, a handler, a coroutine
    that asks to run again or the callback of an expired timer, is taken by a worker that may run
    it, as the entry it was. */
module IoDelivery {
  import opened Wrappers
  import opened IoMachine
  import opened IoShapes
  import opened IoPlaces

  /** The entries that a step takes over from its caller. */
  function Accepted(s: State, step: Step): seq<Task> {
    match step
    case Begin(_, DoPost(task)) => [task]
    case Begin(_, DoPostBatch(tasks)) => tasks
    case Begin(_, DoAddEvent(_, task)) => [task]
    case Loop(_, DoFinish(Some(task))) => [task]
    case Loop(_, DoExpire(now, _)) => NewCallbacks(|s.place|, |Due(s.timers, now)|)
    case _ => []
  }

  /** Where they are first. */
  predicate FirstPlace(step: Step, place: Place) {
    match step
    case Begin(a, call) =>
      if call.DoPostBatch? then place == Queued
      else if call.DoAddEvent? then place == InSlot(call.slot)
      else place == Owed(a)
    case Loop(a, _) => place == Owed(a)
    case _ => false
  }

  /** Wherever the entry with this number is, it is this one. */
  predicate Carries(s: State, task: Task) {
    && task.id < |s.place|
    && match s.place[task.id]
       case InSlot(slot) => slot in s.slots && s.slots[slot] == task
       case Owed(a) => a < |s.actors| && Schedule(task) in s.actors[a].todo
       case Queued => task in s.queue
       case _ => true
  }

  predicate AllNew(s: State, t: State, step: Step) {
    var tasks := Accepted(s, step);
    && |t.place| == |s.place| + |tasks|
    && forall k :: 0 <= k < |tasks| ==>
         && tasks[k].id == |s.place| + k && FirstPlace(step, t.place[tasks[k].id]) && Carries(t, tasks[k])
  }

  // ----- what is accepted is held

  lemma CallsHeld(s: State, t: State, a: nat, tasks: seq<Task>)
    requires a < |s.actors| == |t.actors| && FreshRange(s, tasks)
    requires t.place == s.place + seq(|tasks|, i => Owed(a)) && t.actors[a].todo == Calls(tasks)
    ensures forall k :: 0 <= k < |tasks| ==> t.place[|s.place| + k] == Owed(a) && Carries(t, tasks[k])
  {
    forall k | 0 <= k < |tasks| ensures t.place[|s.place| + k] == Owed(a) && Carries(t, tasks[k]) {
      assert t.actors[a].todo[k] == Schedule(tasks[k]);
    }
  }

  lemma OneCall(task: Task)
    ensures Calls([task]) == [Schedule(task)]
  {
  }

  lemma PostAccepts(s: State, a: nat, task: Task)
    requires CallEnabled(s, a, DoPost(task))
    ensures AllNew(s, Post(s, a, task), Begin(a, DoPost(task)))
  {
    OneCall(task);
    CallsHeld(s, Post(s, a, task), a, [task]);
  }

  lemma BatchAccepts(s: State, a: nat, tasks: seq<Task>)
    requires CallEnabled(s, a, DoPostBatch(tasks))
    ensures AllNew(s, PostBatch(s, a, tasks), Begin(a, DoPostBatch(tasks)))
  {
    var t := PostBatch(s, a, tasks);
    forall k | 0 <= k < |tasks| ensures tasks[k].id == |s.place| + k && Carries(t, tasks[k]) {
      assert t.queue[|s.queue| + k] == tasks[k];
    }
  }

  lemma AddEventAccepts(s: State, a: nat, slot: Slot, task: Task)
    requires CallEnabled(s, a, DoAddEvent(slot, task))
    ensures AllNew(s, AddEvent(s, a, slot, task), Begin(a, DoAddEvent(slot, task)))
  {
  }

  lemma FinishAccepts(s: State, a: nat, again: Option<Task>)
    requires MoveEnabled(s, a, DoFinish(again))
    ensures AllNew(s, Finish(s, a, again), Loop(a, DoFinish(again)))
  {
    if again.Some? {
      OneCall(again.value);
      CallsHeld(s, Finish(s, a, again), a, [again.value]);
    }
  }

  lemma {:induction false} ElementsCount(order: seq<nat>)
    requires forall i, j :: 0 <= i < j < |order| ==> order[i] != order[j]
    ensures |Elements(order)| == |order|
  {
    if order != [] {
      var n := |order| - 1;
      ElementsCount(order[..n]);
      assert Elements(order) == Elements(order[..n]) + {order[n]};
      assert order[n] !in Elements(order[..n]);
    }
  }

  lemma ExpireAccepts(s: State, a: nat, now: nat, order: seq<nat>)
    requires MoveEnabled(s, a, DoExpire(now, order))
    ensures AllNew(s, Expire(s, a, now, |order|), Loop(a, DoExpire(now, order)))
  {
    hide Advanced, Due, Elements, AllNew, NewCallbacks, Calls;
    ElementsCount(order);
    ExpiredHeld(s, a, now, |order|);
    ExpiredNew(s, a, now, order);
  }

  lemma ExpiredHeld(s: State, a: nat, now: nat, count: nat)
    requires a < |s.actors| && s.actors[a].pc.Handle?
    ensures var t, tasks := Expire(s, a, now, count), NewCallbacks(|s.place|, count);
            && |t.place| == |s.place| + count
            && forall k :: 0 <= k < count ==>
                 tasks[k].id == |s.place| + k && t.place[|s.place| + k] == Owed(a) && Carries(t, tasks[k])
  {
    hide Advanced, Carries;
    CallsHeld(s, Expire(s, a, now, count), a, NewCallbacks(|s.place|, count));
  }

  lemma ExpiredNew(s: State, a: nat, now: nat, order: seq<nat>)
    requires a < |s.actors| && s.actors[a].pc.Handle? && |Due(s.timers, now)| == |order|
    requires var t, tasks := Expire(s, a, now, |order|), NewCallbacks(|s.place|, |order|);
             && |t.place| == |s.place| + |order|
             && forall k :: 0 <= k < |order| ==>
                  tasks[k].id == |s.place| + k && t.place[|s.place| + k] == Owed(a) && Carries(t, tasks[k])
    ensures AllNew(s, Expire(s, a, now, |order|), Loop(a, DoExpire(now, order)))
  {
    hide Expire, NewCallbacks, Due, Carries;
  }

  lemma NoneAccepted(s: State, t: State, step: Step)
    requires |t.place| == |s.place| && Accepted(s, step) == []
    ensures AllNew(s, t, step)
  {
  }

  lemma CallAccepts(s: State, a: nat, call: Call)
    requires CallEnabled(s, a, call)
    ensures AllNew(s, ApplyCall(s, a, call), Begin(a, call))
  {
    hide AllNew, Post, PostBatch, AddEvent, AtFront, CallInProgress, Chosen, Handlers, Ids, Without, Remaining, Calls;
    match call
    case DoPost(task) => PostAccepts(s, a, task);
    case DoPostBatch(tasks) => BatchAccepts(s, a, tasks);
    case DoAddEvent(slot, task) => AddEventAccepts(s, a, slot, task);
    case _ => NoneAccepted(s, ApplyCall(s, a, call), Begin(a, call));
  }

  lemma HandleSamePlaces(s: State, a: nat)
    requires a < |s.actors| && s.actors[a].pc.Handle? && s.actors[a].pc.batch != []
    ensures |HandleOne(s, a).place| == |s.place|
  {
    hide HandleOne, Handlers, Ids, Without, Moved, Chosen, Calls;
    HandleIs(s, a);
  }

  lemma MoveAccepts(s: State, a: nat, move: Move)
    requires MoveEnabled(s, a, move)
    ensures AllNew(s, ApplyMove(s, a, move), Loop(a, move))
  {
    hide AllNew, Finish, Expire, HandleOne, Eligible, Executing, Held, Due, Elements, NewCallbacks;
    match move
    case DoFinish(again) => FinishAccepts(s, a, again);
    case DoExpire(now, order) => ExpireAccepts(s, a, now, order);
    case DoHandle =>
      HandleSamePlaces(s, a);
      NoneAccepted(s, ApplyMove(s, a, move), Loop(a, move));
    case DoTake(i, fiber) => NoneAccepted(s, ApplyMove(s, a, move), Loop(a, move));
    case _ =>
      QuietShape(s, a, move);
      NoneAccepted(s, ApplyMove(s, a, move), Loop(a, move));
  }

  /** A step records exactly the entries it accepts, each of them at its first place. */
  lemma StepAccepts(s: State, step: Step)
    requires Enabled(s, step)
    ensures AllNew(s, Apply(s, step), step)
  {
    hide AllNew, CallEnabled, MoveEnabled, ApplyCall, ApplyMove;
    match step
    case Begin(a, call) => CallAccepts(s, a, call);
    case Continue(a) => NoneAccepted(s, Apply(s, step), step);
    case Loop(a, move) => MoveAccepts(s, a, move);
    case Tick(ms) => NoneAccepted(s, Apply(s, step), step);
  }

  // ----- what is held stays itself

  /** Steps that take nothing from anywhere. */
  lemma MoreHeld(s: State, t: State, a: nat, task: Task)
    requires Carries(s, task) && s.place <= t.place && s.queue <= t.queue
    requires forall slot :: slot in s.slots ==> slot in t.slots && t.slots[slot] == s.slots[slot]
    requires a < |s.actors| == |t.actors| && t.actors == s.actors[a := t.actors[a]]
    requires s.actors[a].todo == [] || t.actors[a].todo == s.actors[a].todo
    ensures Carries(t, task)
  {
    assert t.place[task.id] == s.place[task.id];
    if s.place[task.id].Queued? {
      var i :| 0 <= i < |s.queue| && s.queue[i] == task;
      assert t.queue[i] == task;
    }
  }

  /** Handlers that leave their slots. */
  lemma RemovedHeld(s: State, t: State, a: nat, keys: seq<Slot>, to: Place, after: seq<Micro>, task: Task)
    requires Carries(s, task) && SlotsRecorded(s) && a < |s.actors| && s.actors[a].todo == []
    requires forall i :: 0 <= i < |keys| ==> keys[i] in s.slots
    requires to == Deleted || to == Owed(a)
    requires t.slots == Without(s.slots, keys) && t.queue == s.queue
    requires t.place == Moved(s.place, Ids(Handlers(s, keys)), to)
    requires a < |t.actors| && t.actors == s.actors[a := t.actors[a]]
    requires t.actors[a].todo == (if to == Deleted then [] else Calls(Handlers(s, keys))) + after
    ensures Carries(t, task)
  {
    var tasks := Handlers(s, keys);
    if task.id in Ids(tasks) {
      var i := DetachedFrom(s, keys, task.id);
      assert tasks[i] == task;
      if to != Deleted {
        assert t.actors[a].todo[i] == Schedule(task);
      }
    } else if s.place[task.id].InSlot? {
      KeptSlot(s, keys, task.id);
    }
  }

  lemma PushHeld(s: State, a: nat, task: Task)
    requires Carries(s, task) && Placed(s) && a < |s.actors|
    requires s.actors[a].todo != [] && s.actors[a].todo[0].Schedule?
    ensures Carries(Push(s, a), task)
  {
    hide SlotsRecorded, QueueRecorded, AllFound;
    var t, first := Push(s, a), s.actors[a].todo[0].task;
    assert TodoRecorded(s, a);
    assert s.place[first.id] == Owed(a);
    if task.id == first.id {
      var i :| 0 <= i < |s.actors[a].todo| && s.actors[a].todo[i] == Schedule(task);
      assert i == 0;
      assert t.queue[|s.queue|] == task;
    } else if s.place[task.id].Queued? {
      var i :| 0 <= i < |s.queue| && s.queue[i] == task;
      assert t.queue[i] == task;
    } else if s.place[task.id] == Owed(a) {
      var i :| 0 <= i < |s.actors[a].todo| && s.actors[a].todo[i] == Schedule(task);
      assert t.actors[a].todo[i] == Schedule(task);
    }
  }

  lemma WriteTokenHeld(s: State, a: nat, task: Task)
    requires Carries(s, task) && a < |s.actors| && s.actors[a].todo != [] && s.actors[a].todo[0].Tickle?
    ensures Carries(WriteToken(s, a), task)
  {
    var t := WriteToken(s, a);
    if s.place[task.id] == Owed(a) {
      var i :| 0 <= i < |s.actors[a].todo| && s.actors[a].todo[i] == Schedule(task);
      assert t.actors[a].todo[i - 1] == Schedule(task);
    }
  }

  lemma TakeHeld(s: State, a: nat, i: nat, fiber: nat, task: Task)
    requires Carries(s, task) && a < |s.actors| && i < |s.queue|
    ensures Carries(Take(s, a, i, fiber), task)
  {
    var t := Take(s, a, i, fiber);
    if task.id != s.queue[i].id && s.place[task.id].Queued? {
      var j :| 0 <= j < |s.queue| && s.queue[j] == task;
      assert t.queue[if j < i then j else j - 1] == task;
    }
  }

  lemma ClearHeld(s: State, task: Task)
    requires Carries(s, task)
    ensures Carries(Clear(s), task)
  {
  }

  lemma DelEventHeld(s: State, a: nat, keys: seq<Slot>, task: Task)
    requires Carries(s, task) && SlotsRecorded(s) && a < |s.actors| && s.actors[a].todo == []
    requires forall i :: 0 <= i < |keys| ==> keys[i] in s.slots
    ensures Carries(DelEvent(s, a, keys), task)
  {
    hide Carries, SlotsRecorded, Handlers, Ids, Without, Moved, Calls;
    assert [] + [Tickle] == [Tickle];
    RemovedHeld(s, DelEvent(s, a, keys), a, keys, Deleted, [Tickle], task);
  }

  lemma DetachHeld(s: State, t: State, a: nat, pc: Pc, keys: seq<Slot>, after: seq<Micro>, task: Task)
    requires Carries(s, task) && SlotsRecorded(s) && a < |s.actors| && s.actors[a].todo == []
    requires forall i :: 0 <= i < |keys| ==> keys[i] in s.slots
    requires t == Detach(s, a, pc, keys, after).(late := t.late)
    ensures Carries(t, task)
  {
    hide Carries, SlotsRecorded, Handlers, Ids, Without, Moved, Calls;
    RemovedHeld(s, t, a, keys, Owed(a), after, task);
  }

  lemma CallHeld(s: State, a: nat, call: Call, task: Task)
    requires Carries(s, task) && Placed(s) && CallEnabled(s, a, call)
    ensures Carries(ApplyCall(s, a, call), task)
  {
    hide Carries, SlotsRecorded, TodosRecorded, QueueRecorded, AllFound, Chosen, DelEvent, Detach, Clear, AtFront,
      CallInProgress, Remaining;
    match call
    case DoDelEvent(fd, read, write) => DelEventHeld(s, a, Chosen(s.slots, fd, read, write), task);
    case DoCancelEvent(fd, read, write) =>
      DetachHeld(s, ApplyCall(s, a, call), a, s.actors[a].pc, Chosen(s.slots, fd, read, write), [Tickle], task);
    case DoClear => ClearHeld(s, task);
    case _ => MoreHeld(s, ApplyCall(s, a, call), a, task);
  }

  lemma ContinueHeld(s: State, a: nat, task: Task)
    requires Carries(s, task) && Placed(s) && ContinueEnabled(s, a)
    ensures Carries(ApplyContinue(s, a), task)
  {
    hide Carries, Placed, Push, WriteToken;
    if s.actors[a].removed != {} {
      MoreHeld(s, ApplyContinue(s, a), a, task);
    } else if s.actors[a].todo[0].Schedule? {
      PushHeld(s, a, task);
    } else {
      WriteTokenHeld(s, a, task);
    }
  }

  lemma HandleHeld(s: State, a: nat, task: Task)
    requires Carries(s, task) && SlotsRecorded(s) && MoveEnabled(s, a, DoHandle)
    ensures Carries(HandleOne(s, a), task)
  {
    hide Carries, SlotsRecorded, HandleOne, Detach, Chosen;
    HandleIs(s, a);
    var Handle(batch, ready) := s.actors[a].pc;
    var t := HandleOne(s, a);
    if batch[0].Fd? && Chosen(s.slots, batch[0].fd, batch[0].read, batch[0].write) != [] {
      var keys := Chosen(s.slots, batch[0].fd, batch[0].read, batch[0].write);
      DetachHeld(s, t, a, Handle(batch[1..], true), keys, [], task);
    } else {
      MoreHeld(s, t, a, task);
    }
  }

  lemma QuietHeld(s: State, a: nat, move: Move, task: Task)
    requires Carries(s, task) && MoveEnabled(s, a, move) && QuietMove(move)
    ensures Carries(ApplyMove(s, a, move), task)
  {
    hide Carries, MoveEnabled, ApplyMove;
    QuietShape(s, a, move);
    MoveShape(s, a, move);
    MoreHeld(s, ApplyMove(s, a, move), a, task);
  }

  lemma FinishHeld(s: State, a: nat, again: Option<Task>, task: Task)
    requires Carries(s, task) && MoveEnabled(s, a, DoFinish(again))
    ensures Carries(Finish(s, a, again), task)
  {
    hide Carries;
    MoreHeld(s, Finish(s, a, again), a, task);
  }

  lemma ExpireHeld(s: State, a: nat, now: nat, order: seq<nat>, task: Task)
    requires Carries(s, task) && MoveEnabled(s, a, DoExpire(now, order))
    ensures Carries(Expire(s, a, now, |order|), task)
  {
    hide Carries, Due, Elements, Advanced, NewCallbacks, Calls;
    MoreHeld(s, Expire(s, a, now, |order|), a, task);
  }

  lemma MoveHeld(s: State, a: nat, move: Move, task: Task)
    requires Carries(s, task) && Placed(s) && MoveEnabled(s, a, move)
    ensures Carries(ApplyMove(s, a, move), task)
  {
    hide Carries, SlotsRecorded, TodosRecorded, QueueRecorded, AllFound, Eligible, Executing, Held, Due, Elements,
      Take, HandleOne, Finish, Expire;
    match move
    case DoHandle => HandleHeld(s, a, task);
    case DoTake(i, fiber) => TakeHeld(s, a, i, fiber, task);
    case DoFinish(again) => FinishHeld(s, a, again, task);
    case DoExpire(now, order) => ExpireHeld(s, a, now, order, task);
    case _ => QuietHeld(s, a, move, task);
  }

  lemma TickHeld(s: State, ms: nat, task: Task)
    requires Carries(s, task)
    ensures Carries(s.(clock := s.clock + ms), task)
  {
  }

  /** An entry stays the entry it was accepted as. */
  lemma StepHeld(s: State, step: Step, task: Task)
    requires Carries(s, task) && Placed(s) && Enabled(s, step)
    ensures Carries(Apply(s, step), task)
  {
    hide Carries, Placed, CallEnabled, MoveEnabled, ContinueEnabled, ApplyCall, ApplyMove, ApplyContinue;
    match step
    case Begin(a, call) => CallHeld(s, a, call, task);
    case Continue(a) => ContinueHeld(s, a, task);
    case Loop(a, move) => MoveHeld(s, a, move, task);
    case Tick(ms) => TickHeld(s, ms, task);
  }

  // ----- how it ends

  predicate Final(place: Place) {
    place.Started? || place.Deleted? || place.Cleared?
  }

  /** A worker takes the entry from the queue, one that may run it, and gets its coroutine. */
  predicate Takes(s: State, step: Step, task: Task) {
    && step.Loop? && step.move.DoTake? && step.move.i < |s.queue| && s.queue[step.move.i] == task
    && (task.pin.Some? ==> task.pin.value == step.a)
    && (task.Resume? ==> step.move.fiber == task.fiber)
  }

  predicate Names(slot: Slot, fd: nat, read: bool, write: bool) {
    slot.fd == fd && if slot.write then write else read
  }

  /** The user deletes the registration that holds it. */
  predicate Deletes(s: State, step: Step, task: Task) {
    && step.Begin? && step.call.DoDelEvent?
    && exists slot :: slot in s.slots && s.slots[slot] == task &&
         Names(slot, step.call.fd, step.call.read, step.call.write)
  }

  /** The way in which a step brought the entry to its end. */
  predicate Ends(s: State, step: Step, t: State, task: Task) {
    task.id < |t.place| &&
    match t.place[task.id]
    case Started => Takes(s, step, task)
    case Deleted => Deletes(s, step, task)
    case Cleared => step.Begin? && step.call.DoClear?
    case _ => true
  }

  lemma ChosenNamed(slots: map<Slot, Task>, fd: nat, read: bool, write: bool)
    ensures forall slot :: slot in Chosen(slots, fd, read, write) <==> slot in slots && Names(slot, fd, read, write)
  {
  }

  lemma DelEventEnds(s: State, a: nat, fd: nat, read: bool, write: bool, task: Task)
    requires Carries(s, task) && SlotsRecorded(s) && a < |s.actors| && !Final(s.place[task.id])
    ensures Ends(s, Begin(a, DoDelEvent(fd, read, write)), DelEvent(s, a, Chosen(s.slots, fd, read, write)), task)
  {
    var keys := Chosen(s.slots, fd, read, write);
    if task.id in Ids(Handlers(s, keys)) {
      ChosenNamed(s.slots, fd, read, write);
      var i := DetachedFrom(s, keys, task.id);
      assert keys[i] in keys;
    }
  }

  lemma TakeEnds(s: State, a: nat, i: nat, fiber: nat, task: Task)
    requires Carries(s, task) && QueueRecorded(s) && MoveEnabled(s, a, DoTake(i, fiber)) && !Final(s.place[task.id])
    ensures Ends(s, Loop(a, DoTake(i, fiber)), Take(s, a, i, fiber), task)
  {
    hide Executing, Held;
    if task.id == s.queue[i].id {
      var j :| 0 <= j < |s.queue| && s.queue[j] == task;
      assert j == i;
    }
  }

  predicate NotEnded(s: State, t: State, task: Task) {
    task.id < |s.place| <= |t.place| && (Final(t.place[task.id]) ==> t.place[task.id] == s.place[task.id])
  }

  lemma NotEndedEnds(s: State, step: Step, t: State, task: Task)
    requires NotEnded(s, t, task) && !Final(s.place[task.id])
    ensures Ends(s, step, t, task)
  {
  }

  lemma MovedNotEnded(s: State, t: State, ids: set<nat>, to: Place, task: Task)
    requires task.id < |s.place| && t.place == Moved(s.place, ids, to) && !Final(to)
    ensures NotEnded(s, t, task)
  {
  }

  lemma CallEnds(s: State, a: nat, call: Call, task: Task)
    requires Carries(s, task) && Placed(s) && CallEnabled(s, a, call) && !Final(s.place[task.id])
    ensures Ends(s, Begin(a, call), ApplyCall(s, a, call), task)
  {
    hide Carries, SlotsRecorded, TodosRecorded, QueueRecorded, AllFound, Chosen, DelEvent, AtFront, Ends, Handlers,
      CallInProgress, Remaining, Without, Calls, Ids, Moved;
    var t := ApplyCall(s, a, call);
    assert task.id < |s.place| by { CarriedNumber(s, task); }
    match call
    case DoDelEvent(fd, read, write) => DelEventEnds(s, a, fd, read, write, task);
    case DoCancelEvent(fd, read, write) =>
      MovedNotEnded(s, t, Ids(Handlers(s, Chosen(s.slots, fd, read, write))), Owed(a), task);
      NotEndedEnds(s, Begin(a, call), t, task);
    case DoClear => ClearEnds(s, a, task);
    case _ => NotEndedEnds(s, Begin(a, call), t, task);
  }

  lemma CarriedNumber(s: State, task: Task)
    requires Carries(s, task)
    ensures task.id < |s.place|
  {
  }

  lemma ClearEnds(s: State, a: nat, task: Task)
    requires task.id < |s.place| && !Final(s.place[task.id])
    ensures Ends(s, Begin(a, DoClear), Clear(s), task)
  {
  }

  lemma ContinueEnds(s: State, a: nat, task: Task)
    requires Carries(s, task) && ContinueEnabled(s, a) && !Final(s.place[task.id])
    ensures Ends(s, Continue(a), ApplyContinue(s, a), task)
  {
    hide Ends, Carries, Moved;
    var t := ApplyContinue(s, a);
    CarriedNumber(s, task);
    if s.actors[a].removed == {} && s.actors[a].todo[0].Schedule? {
      MovedNotEnded(s, t, {s.actors[a].todo[0].task.id}, Queued, task);
    }
    NotEndedEnds(s, Continue(a), t, task);
  }

  lemma HandleEnds(s: State, a: nat, task: Task)
    requires task.id < |s.place| && MoveEnabled(s, a, DoHandle) && !Final(s.place[task.id])
    ensures NotEnded(s, HandleOne(s, a), task)
  {
    hide HandleOne, Chosen, Handlers, Ids, Without, Moved, Calls;
    HandleIs(s, a);
    var Handle(batch, ready) := s.actors[a].pc;
    var t := HandleOne(s, a);
    if batch[0].Fd? && Chosen(s.slots, batch[0].fd, batch[0].read, batch[0].write) != [] {
      var keys := Chosen(s.slots, batch[0].fd, batch[0].read, batch[0].write);
      MovedNotEnded(s, t, Ids(Handlers(s, keys)), Owed(a), task);
    }
  }

  lemma MoveEnds(s: State, a: nat, move: Move, task: Task)
    requires Carries(s, task) && Placed(s) && MoveEnabled(s, a, move) && !Final(s.place[task.id])
    ensures Ends(s, Loop(a, move), ApplyMove(s, a, move), task)
  {
    hide Carries, SlotsRecorded, TodosRecorded, QueueRecorded, AllFound, Eligible, Executing, Held, Due, Elements,
      Take, HandleOne, Advanced, NewCallbacks, Calls, Ends;
    var t := ApplyMove(s, a, move);
    CarriedNumber(s, task);
    if move.DoTake? {
      TakeEnds(s, a, move.i, move.fiber, task);
    } else {
      if move.DoHandle? {
        HandleEnds(s, a, task);
      } else if QuietMove(move) {
        QuietShape(s, a, move);
      }
      NotEndedEnds(s, Loop(a, move), t, task);
    }
  }

  lemma StepEnds(s: State, step: Step, task: Task)
    requires Carries(s, task) && Placed(s) && Enabled(s, step) && !Final(s.place[task.id])
    ensures Ends(s, step, Apply(s, step), task)
  {
    hide Carries, Placed, CallEnabled, MoveEnabled, ContinueEnabled, ApplyCall, ApplyMove, ApplyContinue, Ends;
    CarriedNumber(s, task);
    match step
    case Begin(a, call) => CallEnds(s, a, call, task);
    case Continue(a) => ContinueEnds(s, a, task);
    case Loop(a, move) => MoveEnds(s, a, move, task);
    case Tick(ms) => NotEndedEnds(s, step, Apply(s, step), task);
  }
}
