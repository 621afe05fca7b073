/** `pending_event_count_` is the number of filled slots plus the removals that have not been
    subtracted yet, at every moment of every run. */
module IoCounter {
  import opened Wrappers
  import opened IoMachine
  import opened IoShapes
  import opened Sets
  import opened IoPlaces

  /** `counted` holds the registrations the counter stands for. */
  predicate SlotsCounted(s: State) {
    forall k :: k in s.slots ==> s.slots[k].id in s.counted
  }

  predicate RemovedCounted(s: State, a: nat)
    requires a < |s.actors|
  {
    forall id :: id in s.actors[a].removed ==> id in s.counted && id < |s.place| && !s.place[id].InSlot?
  }

  predicate RemovedApart(s: State) {
    forall a, b :: 0 <= a < b < |s.actors| ==> s.actors[a].removed !! s.actors[b].removed
  }

  predicate RemovedBySome(s: State, id: nat) {
    exists a :: 0 <= a < |s.actors| && id in s.actors[a].removed
  }

  predicate OnlyThose(s: State) {
    forall id :: id in s.counted ==> id < |s.place| && (s.place[id].InSlot? || RemovedBySome(s, id))
  }

  predicate Counted(s: State) {
    && s.pending == |s.counted|
    && SlotsCounted(s) && RemovedApart(s) && OnlyThose(s)
    && forall a :: 0 <= a < |s.actors| ==> RemovedCounted(s, a)
  }

  /** Steps that neither fill or empty a slot nor touch the counter. */
  predicate SlotsLeft(s: State, t: State) {
    && t.slots == s.slots && t.pending == s.pending && t.counted == s.counted
    && |t.actors| == |s.actors|
    && (forall a :: 0 <= a < |s.actors| ==> t.actors[a].removed == s.actors[a].removed)
    && |s.place| <= |t.place|
    && (forall id :: 0 <= id < |s.place| ==> (t.place[id].InSlot? <==> s.place[id].InSlot?))
  }

  lemma FrameCounted(s: State, t: State)
    requires Counted(s) && SlotsLeft(s, t)
    ensures Counted(t)
  {
    forall a | 0 <= a < |t.actors| ensures RemovedCounted(t, a) {
      assert RemovedCounted(s, a);
    }
    forall id | id in t.counted ensures id < |t.place| && (t.place[id].InSlot? || RemovedBySome(t, id)) {
      if RemovedBySome(s, id) {
        var a :| 0 <= a < |s.actors| && id in s.actors[a].removed;
        assert id in t.actors[a].removed;
      }
    }
    assert RemovedApart(t) by {
      forall a, b | 0 <= a < b < |t.actors| ensures t.actors[a].removed !! t.actors[b].removed {
        assert s.actors[a].removed !! s.actors[b].removed;
      }
    }
  }

  lemma AddEventCounted(s: State, a: nat, slot: Slot, task: Task)
    requires Counted(s) && Placed(s) && CallEnabled(s, a, DoAddEvent(slot, task))
    ensures Counted(AddEvent(s, a, slot, task))
  {
    hide TodosRecorded, QueueRecorded, AllFound;
    var t := AddEvent(s, a, slot, task);
    assert task.id !in s.counted;
    forall b | 0 <= b < |t.actors| ensures RemovedCounted(t, b) {
      assert RemovedCounted(s, b);
    }
    forall id | id in t.counted ensures id < |t.place| && (t.place[id].InSlot? || RemovedBySome(t, id)) {
      if id != task.id && RemovedBySome(s, id) {
        var b :| 0 <= b < |s.actors| && id in s.actors[b].removed;
        assert id in t.actors[b].removed;
      }
    }
    assert RemovedApart(t) by {
      forall b, c | 0 <= b < c < |t.actors| ensures t.actors[b].removed !! t.actors[c].removed {
        assert s.actors[b].removed !! s.actors[c].removed;
      }
    }
  }

  /** Registrations leave their slots; the thread now owes the subtraction. */
  lemma RemovedStaysCounted(s: State, t: State, a: nat, keys: seq<Slot>, to: Place)
    requires Counted(s) && SlotsRecorded(s) && a < |s.actors| && s.actors[a].removed == {}
    requires forall i :: 0 <= i < |keys| ==> keys[i] in s.slots
    requires !to.InSlot?
    requires t.slots == Without(s.slots, keys) && t.pending == s.pending && t.counted == s.counted
    requires t.place == Moved(s.place, Ids(Handlers(s, keys)), to)
    requires |t.actors| == |s.actors| && t.actors[a].removed == Ids(Handlers(s, keys))
    requires forall b :: 0 <= b < |s.actors| && b != a ==> t.actors[b].removed == s.actors[b].removed
    ensures Counted(t)
  {
    var ids := Ids(Handlers(s, keys));
    forall id | id in ids ensures id < |s.place| && s.place[id].InSlot? && id in s.counted {
      var i := DetachedFrom(s, keys, id);
    }
    forall b | 0 <= b < |t.actors| ensures RemovedCounted(t, b) {
      assert RemovedCounted(s, b);
    }
    forall id | id in t.counted ensures id < |t.place| && (t.place[id].InSlot? || RemovedBySome(t, id)) {
      if id in ids {
        assert id in t.actors[a].removed;
      } else if RemovedBySome(s, id) {
        var b :| 0 <= b < |s.actors| && id in s.actors[b].removed;
        assert id in t.actors[b].removed;
      }
    }
    assert RemovedApart(t) by {
      forall b, c | 0 <= b < c < |t.actors| ensures t.actors[b].removed !! t.actors[c].removed {
        assert s.actors[b].removed !! s.actors[c].removed;
        assert RemovedCounted(s, b) && RemovedCounted(s, c);
      }
    }
  }

  lemma SubtractCounted(s: State, a: nat)
    requires Counted(s) && SlotsRecorded(s) && a < |s.actors|
    ensures Counted(Subtract(s, a))
    ensures |s.actors[a].removed| <= s.pending
  {
    var t := Subtract(s, a);
    var removed := s.actors[a].removed;
    assert RemovedCounted(s, a);
    assert removed <= s.counted;
    SubsetSize(removed, s.counted);
    forall b | 0 <= b < |t.actors| ensures RemovedCounted(t, b) {
      assert RemovedCounted(s, b);
      if b != a {
        assert s.actors[a].removed !! s.actors[b].removed;
      }
    }
    forall id | id in t.counted ensures id < |t.place| && (t.place[id].InSlot? || RemovedBySome(t, id)) {
      if RemovedBySome(s, id) {
        var b :| 0 <= b < |s.actors| && id in s.actors[b].removed;
        assert id in t.actors[b].removed;
      }
    }
    assert RemovedApart(t) by {
      forall b, c | 0 <= b < c < |t.actors| ensures t.actors[b].removed !! t.actors[c].removed {
        assert s.actors[b].removed !! s.actors[c].removed;
      }
    }
  }

  lemma DelEventCounted(s: State, a: nat, keys: seq<Slot>)
    requires Counted(s) && SlotsRecorded(s) && a < |s.actors| && s.actors[a].removed == {}
    requires forall i :: 0 <= i < |keys| ==> keys[i] in s.slots
    ensures Counted(DelEvent(s, a, keys))
  {
    hide Counted, SlotsRecorded;
    RemovedStaysCounted(s, DelEvent(s, a, keys), a, keys, Deleted);
  }

  lemma DetachCounted(s: State, t: State, a: nat, pc: Pc, keys: seq<Slot>, after: seq<Micro>)
    requires Counted(s) && SlotsRecorded(s) && a < |s.actors| && s.actors[a].removed == {}
    requires forall i :: 0 <= i < |keys| ==> keys[i] in s.slots
    requires t == Detach(s, a, pc, keys, after).(late := t.late)
    ensures Counted(t)
  {
    hide Counted, SlotsRecorded;
    RemovedStaysCounted(s, t, a, keys, Owed(a));
  }

  lemma PostLeaves(s: State, a: nat, task: Task)
    requires a < |s.actors|
    ensures SlotsLeft(s, Post(s, a, task))
  {
  }

  lemma PostBatchLeaves(s: State, a: nat, tasks: seq<Task>)
    requires a < |s.actors| && tasks != []
    ensures SlotsLeft(s, PostBatch(s, a, tasks))
  {
  }

  lemma SetTimerLeaves(s: State, a: nat, id: nat, timing: Timing)
    requires a < |s.actors|
    ensures SlotsLeft(s, SetTimer(s, a, id, timing))
  {
    hide Remaining, AtFront;
  }

  lemma CancelTimerLeaves(s: State, a: nat, id: nat)
    requires a < |s.actors|
    ensures SlotsLeft(s, CancelTimer(s, a, id))
  {
    hide Remaining;
  }

  lemma StopLeaves(s: State, a: nat)
    requires a < |s.actors|
    ensures SlotsLeft(s, Stop(s, a))
  {
    hide CallInProgress;
  }

  lemma ForceLeaves(s: State)
    ensures SlotsLeft(s, s.(force := true))
  {
  }

  /** Calls that neither fill nor empty a slot. */
  lemma OtherCallCounted(s: State, a: nat, call: Call)
    requires Counted(s) && CallEnabled(s, a, call)
    requires !call.DoAddEvent? && !call.DoDelEvent? && !call.DoCancelEvent? && !call.DoClear?
    ensures Counted(ApplyCall(s, a, call))
  {
    hide Counted, Post, PostBatch, SetTimer, CancelTimer, Stop, SlotsLeft;
    match call {
      case DoPost(task) => PostLeaves(s, a, task);
      case DoPostBatch(tasks) => PostBatchLeaves(s, a, tasks);
      case DoSetTimer(id, timing) => SetTimerLeaves(s, a, id, timing);
      case DoCancelTimer(id) => CancelTimerLeaves(s, a, id);
      case DoStop => StopLeaves(s, a);
      case DoForceStop => ForceLeaves(s);
    }
    FrameCounted(s, ApplyCall(s, a, call));
  }

  lemma CallCounted(s: State, a: nat, call: Call)
    requires Counted(s) && Placed(s) && CallEnabled(s, a, call)
    ensures Counted(ApplyCall(s, a, call))
  {
    hide Counted, TodosRecorded, QueueRecorded, AllFound, SlotsRecorded, Chosen, Post, PostBatch, AddEvent, DelEvent,
      Detach, SetTimer, CancelTimer, Stop, Clear;
    match call
    case DoAddEvent(slot, task) => AddEventCounted(s, a, slot, task);
    case DoDelEvent(fd, read, write) => DelEventCounted(s, a, Chosen(s.slots, fd, read, write));
    case DoCancelEvent(fd, read, write) =>
      DetachCounted(s, ApplyCall(s, a, call), a, s.actors[a].pc, Chosen(s.slots, fd, read, write), [Tickle]);
    case DoClear => ClearCounted(s, a);
    case _ => OtherCallCounted(s, a, call);
  }

  lemma ClearCounted(s: State, a: nat)
    requires CallEnabled(s, a, DoClear)
    ensures Counted(Clear(s))
  {
  }

  /** Places other than slots may change freely. */
  lemma MovedOutside(place: seq<Place>, id: nat, to: Place)
    requires id < |place| && !place[id].InSlot? && !to.InSlot?
    ensures forall i :: 0 <= i < |place| ==> (Moved(place, {id}, to)[i].InSlot? <==> place[i].InSlot?)
  {
  }

  lemma PushCounted(s: State, a: nat)
    requires Counted(s) && a < |s.actors| && TodoRecorded(s, a)
    requires s.actors[a].todo != [] && s.actors[a].todo[0].Schedule?
    ensures Counted(Push(s, a))
  {
    hide Counted;
    MovedOutside(s.place, s.actors[a].todo[0].task.id, Queued);
    FrameCounted(s, Push(s, a));
  }

  lemma ContinueCounted(s: State, a: nat)
    requires Counted(s) && Placed(s) && ContinueEnabled(s, a)
    ensures Counted(ApplyContinue(s, a))
  {
    hide Counted, QueueRecorded, AllFound, SlotsRecorded, TodoRecorded, Subtract, Push;
    if s.actors[a].removed != {} {
      SubtractCounted(s, a);
    } else if s.actors[a].todo[0].Schedule? {
      PushCounted(s, a);
    } else {
      FrameCounted(s, WriteToken(s, a));
    }
  }

  lemma TakeCounted(s: State, a: nat, i: nat, fiber: nat)
    requires Counted(s) && QueueRecorded(s) && a < |s.actors| && i < |s.queue|
    ensures Counted(Take(s, a, i, fiber))
  {
    hide Counted;
    MovedOutside(s.place, s.queue[i].id, Started);
    FrameCounted(s, Take(s, a, i, fiber));
  }

  lemma FinishCounted(s: State, a: nat, again: Option<Task>)
    requires Counted(s) && MoveEnabled(s, a, DoFinish(again))
    ensures Counted(Finish(s, a, again))
  {
    hide Counted, Executing;
    FrameCounted(s, Finish(s, a, again));
  }

  lemma ExpireCounted(s: State, a: nat, now: nat, order: seq<nat>)
    requires Counted(s) && MoveEnabled(s, a, DoExpire(now, order))
    ensures Counted(Expire(s, a, now, |order|))
  {
    hide Counted, Due, Advanced, Elements, Calls, NewCallbacks;
    FrameCounted(s, Expire(s, a, now, |order|));
  }

  lemma QuietMoveCounted(s: State, a: nat, move: Move)
    requires Counted(s) && MoveEnabled(s, a, move) && QuietMove(move)
    ensures Counted(ApplyMove(s, a, move))
  {
    hide Counted, MoveEnabled, ApplyMove;
    MoveShape(s, a, move);
    QuietShape(s, a, move);
    FrameCounted(s, ApplyMove(s, a, move));
  }

  lemma MoveCounted(s: State, a: nat, move: Move)
    requires Counted(s) && Placed(s) && MoveEnabled(s, a, move)
    ensures Counted(ApplyMove(s, a, move))
  {
    hide Counted, TodosRecorded, AllFound, SlotsRecorded, QueueRecorded, Take, Finish, Expire, Block, Wake;
    hide Eligible, Executing, Held, Due, Advanced, Elements, Deadline, HandleOne, InspectNext;
    match move
    case DoHandle => HandleCounted(s, a);
    case DoTake(i, fiber) => TakeCounted(s, a, i, fiber);
    case DoFinish(again) => FinishCounted(s, a, again);
    case DoExpire(now, order) => ExpireCounted(s, a, now, order);
    case _ => QuietMoveCounted(s, a, move);
  }

  lemma ProcessCounted(s: State, a: nat, keys: seq<Slot>, rest: seq<Report>, ready: bool)
    requires Counted(s) && SlotsRecorded(s) && a < |s.actors| && s.actors[a].removed == {}
    requires forall i :: 0 <= i < |keys| ==> keys[i] in s.slots
    ensures Counted(ProcessEvent(s, a, keys, rest, ready))
  {
    hide Counted, SlotsRecorded, Detach;
    var t := ProcessEvent(s, a, keys, rest, ready);
    if keys == [] {
      FrameCounted(s, t);
    } else {
      DetachCounted(s, t, a, Handle(rest, true), keys, []);
    }
  }

  lemma HandleCounted(s: State, a: nat)
    requires Counted(s) && SlotsRecorded(s) && MoveEnabled(s, a, DoHandle)
    ensures Counted(HandleOne(s, a))
  {
    hide Counted, SlotsRecorded, HandleOne, ProcessEvent, Chosen;
    var Handle(batch, ready) := s.actors[a].pc;
    HandleIs(s, a);
    if batch[0].Tickled? {
      FrameCounted(s, Drain(s, a, batch[1..]));
    } else {
      ProcessCounted(s, a, Chosen(s.slots, batch[0].fd, batch[0].read, batch[0].write), batch[1..], ready);
    }
  }

  lemma StepCounted(s: State, step: Step)
    requires Counted(s) && Placed(s) && Enabled(s, step)
    ensures Counted(Apply(s, step))
  {
    hide Counted, Placed, CallEnabled, MoveEnabled, ApplyCall, ApplyMove, ContinueEnabled, ApplyContinue;
    match step
    case Begin(a, call) => CallCounted(s, a, call);
    case Continue(a) => ContinueCounted(s, a);
    case Loop(a, move) => MoveCounted(s, a, move);
    case Tick(ms) => FrameCounted(s, Apply(s, step));
  }

  // ----- the counter, read off the state

  function HandlerIds(slots: map<Slot, Task>): set<nat> {
    set k | k in slots :: slots[k].id
  }

  function RemovedIds(s: State): set<nat> {
    set a, id | 0 <= a < |s.actors| && id in s.actors[a].removed :: id
  }

  function WithoutSlot(slots: map<Slot, Task>, k: Slot): map<Slot, Task> {
    map j | j in slots && j != k :: slots[j]
  }

  lemma WithoutSlotSize(slots: map<Slot, Task>, k: Slot)
    requires k in slots
    ensures |WithoutSlot(slots, k)| == |slots| - 1
  {
    assert slots.Keys == WithoutSlot(slots, k).Keys + {k};
  }

  lemma {:induction false} HandlerIdsSize(slots: map<Slot, Task>)
    requires forall j, k :: j in slots && k in slots && j != k ==> slots[j].id != slots[k].id
    ensures |HandlerIds(slots)| == |slots|
    decreases |slots|
  {
    if slots == map[] {
      assert HandlerIds(slots) == {};
    } else {
      var k :| k in slots;
      var rest := WithoutSlot(slots, k);
      WithoutSlotSize(slots, k);
      HandlerIdsSize(rest);
      IdsWithout(slots, k);
    }
  }

  lemma IdsWithout(slots: map<Slot, Task>, k: Slot)
    requires forall j, k :: j in slots && k in slots && j != k ==> slots[j].id != slots[k].id
    requires k in slots
    ensures HandlerIds(slots) == HandlerIds(WithoutSlot(slots, k)) + {slots[k].id}
    ensures slots[k].id !in HandlerIds(WithoutSlot(slots, k))
  {
    forall id | id in HandlerIds(slots) ensures id in HandlerIds(WithoutSlot(slots, k)) + {slots[k].id} {
      var j :| j in slots && slots[j].id == id;
      assert j != k ==> j in WithoutSlot(slots, k) && WithoutSlot(slots, k)[j].id == id;
    }
  }

  lemma CountedSplit(s: State)
    requires Placed(s) && Counted(s)
    ensures HandlerIds(s.slots) !! RemovedIds(s)
    ensures s.counted == HandlerIds(s.slots) + RemovedIds(s)
  {
    hide TodosRecorded, QueueRecorded;
    forall id | id in RemovedIds(s) ensures id in s.counted && id !in HandlerIds(s.slots) {
      var a :| 0 <= a < |s.actors| && id in s.actors[a].removed;
      assert RemovedCounted(s, a);
    }
    forall id | id in s.counted ensures id in HandlerIds(s.slots) + RemovedIds(s) {
      if s.place[id].InSlot? {
        assert Found(s, id);
      }
    }
  }

  /** Never negative, and exactly the set bits plus what was removed but not yet subtracted. */
  lemma PendingExact(s: State)
    requires Placed(s) && Counted(s)
    ensures s.pending == |s.slots| + |RemovedIds(s)|
  {
    hide TodosRecorded, QueueRecorded, AllFound;
    CountedSplit(s);
    forall j, k | j in s.slots && k in s.slots && j != k ensures s.slots[j].id != s.slots[k].id {
      assert s.place[s.slots[j].id] == InSlot(j);
    }
    HandlerIdsSize(s.slots);
  }
}
