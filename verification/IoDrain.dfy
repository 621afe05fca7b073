/** Drain on stop.  The idle coroutine reads the pending counter, the timers and the queue at
    different moments; nevertheless nothing is left behind when the last worker has gone. */
module IoDrain {
  import opened Wrappers
  import opened IoMachine
  import opened IoShapes

  /** How many of the three reads the worker has passed on its way out. */
  function Passed(actor: Actor): nat {
    match actor.pc
    case Inspect(stage, _) => if stage == Timers then 1 else if stage == Queue then 2 else 0
    case Left => 3
    case _ => 0
  }

  predicate Behind(actor: Actor, n: nat) {
    IsWorker(actor) && Passed(actor) < n
  }

  /** Some worker has yet to make the n-th read. */
  predicate SomeBehind(s: State, n: nat) {
    exists a :: 0 <= a < |s.actors| && Behind(s.actors[a], n)
  }

  predicate OnlyTickles(actor: Actor) {
    actor.removed == {} && forall i :: 0 <= i < |actor.todo| ==> actor.todo[i].Tickle?
  }

  predicate Committed(actor: Actor) {
    actor.pc.Left? || (actor.pc.Inspect? && actor.pc.stage != Flag)
  }

  /** A worker leaves only after stop(), with no call open; after stop() the other threads have
      at most wake-ups left to write. */
  predicate ThreadOrderly(s: State, actor: Actor) {
    && (Committed(actor) ==> s.stopping && Settled(actor))
    && (s.stopping && actor.pc.Outside? ==> OnlyTickles(actor))
  }

  predicate Orderly(s: State) {
    && (forall a :: 0 <= a < |s.actors| ==> ThreadOrderly(s, s.actors[a]))
    && (exists a :: 0 <= a < |s.actors| && IsWorker(s.actors[a]))
    && (s.pending != 0 ==> SomeBehind(s, 1))
    && (s.timers != map[] ==> SomeBehind(s, 2))
    && (s.queue != [] ==> SomeBehind(s, 3))
    && Cleared !in s.place
  }

  /** No forced shutdown, no failed epoll_wait, and no call from outside during or after stop(). */
  predicate Peaceful(s: State) {
    !s.force && !s.failed && !s.late
  }

  lemma StillBehind(s: State, t: State, a: nat, actor: Actor, n: nat)
    requires SomeBehind(s, n) && a < |s.actors| && t.actors == s.actors[a := actor]
    requires Behind(s.actors[a], n) ==> Behind(actor, n)
    ensures SomeBehind(t, n)
  {
    hide Behind;
    var b :| 0 <= b < |s.actors| && Behind(s.actors[b], n);
    assert t.actors[b] == if b == a then actor else s.actors[b];
  }

  /** Before stop(), or while the acting worker is in its loop, some worker has all reads ahead. */
  lemma AllAhead(s: State, a: nat)
    requires Orderly(s) && a < |s.actors|
    requires !s.stopping || (IsWorker(s.actors[a]) && !Committed(s.actors[a]))
    ensures SomeBehind(s, 1) && SomeBehind(s, 2) && SomeBehind(s, 3)
  {
    if s.stopping {
      assert Behind(s.actors[a], 1) && Behind(s.actors[a], 2) && Behind(s.actors[a], 3);
    } else {
      var b :| 0 <= b < |s.actors| && IsWorker(s.actors[b]);
      assert ThreadOrderly(s, s.actors[b]);
      assert Behind(s.actors[b], 1) && Behind(s.actors[b], 2) && Behind(s.actors[b], 3);
    }
  }

  /** A step of one thread. */
  lemma ThreadKeepsOrder(s: State, t: State, a: nat, actor: Actor)
    requires Orderly(s) && a < |s.actors| && t.actors == s.actors[a := actor] && t.stopping == s.stopping
    requires ThreadOrderly(t, actor) && IsWorker(actor) == IsWorker(s.actors[a])
    requires Cleared !in t.place
    requires t.pending != 0 ==> SomeBehind(s, 1) && (Behind(s.actors[a], 1) ==> Behind(actor, 1))
    requires t.timers != map[] ==> SomeBehind(s, 2) && (Behind(s.actors[a], 2) ==> Behind(actor, 2))
    requires t.queue != [] ==> SomeBehind(s, 3) && (Behind(s.actors[a], 3) ==> Behind(actor, 3))
    ensures Orderly(t)
  {
    hide Behind, SomeBehind, ThreadOrderly, IsWorker;
    if t.pending != 0 { StillBehind(s, t, a, actor, 1); }
    if t.timers != map[] { StillBehind(s, t, a, actor, 2); }
    if t.queue != [] { StillBehind(s, t, a, actor, 3); }
    forall b | 0 <= b < |t.actors| ensures ThreadOrderly(t, t.actors[b]) {
      if b != a {
        assert ThreadOrderly(s, s.actors[b]);
        assert ThreadOrderly(t, t.actors[b]) by { SameThread(s, t, s.actors[b]); }
      }
    }
    var b :| 0 <= b < |s.actors| && IsWorker(s.actors[b]);
    assert IsWorker(t.actors[b]);
  }

  lemma SameThread(s: State, t: State, actor: Actor)
    requires ThreadOrderly(s, actor) && t.stopping == s.stopping
    ensures ThreadOrderly(t, actor)
  {
  }

  lemma NotCleared(place: seq<Place>, ids: set<nat>, to: Place)
    requires Cleared !in place && to != Cleared
    ensures Cleared !in Moved(place, ids, to)
  {
  }

  lemma StopKeepsOrder(s: State, a: nat)
    requires Orderly(s) && CallEnabled(s, a, DoStop) && Peaceful(Stop(s, a))
    ensures Orderly(Stop(s, a))
  {
    var t := Stop(s, a);
    AllAhead(s, a);
    forall n | 1 <= n <= 3 && SomeBehind(s, n) ensures SomeBehind(t, n) {
      StillBehind(s, t, a, t.actors[a], n);
    }
    forall b | 0 <= b < |t.actors| ensures ThreadOrderly(t, t.actors[b]) {
      assert ThreadOrderly(s, s.actors[b]);
    }
    var b :| 0 <= b < |s.actors| && IsWorker(s.actors[b]);
    assert IsWorker(t.actors[b]);
  }

  lemma CallKeepsOrder(s: State, a: nat, call: Call)
    requires Orderly(s) && CallEnabled(s, a, call) && Peaceful(s) && Peaceful(ApplyCall(s, a, call))
    ensures Orderly(ApplyCall(s, a, call))
  {
    hide Orderly, SomeBehind, AtFront, CallInProgress, Chosen, Handlers, Ids, Without, Moved, Remaining, Calls;
    var t := ApplyCall(s, a, call);
    if call.DoStop? {
      StopKeepsOrder(s, a);
    } else {
      assert !s.stopping || IsWorker(s.actors[a]) by { NotLate(s, a, call); }
      AllAhead(s, a);
      assert Cleared !in t.place by { CallClearsNone(s, a, call); }
      assert ThreadOrderly(t, t.actors[a]);
      ThreadKeepsOrder(s, t, a, t.actors[a]);
    }
  }

  lemma NotLate(s: State, a: nat, call: Call)
    requires CallEnabled(s, a, call) && !call.DoStop? && Peaceful(s) && Peaceful(ApplyCall(s, a, call))
    ensures !s.stopping || IsWorker(s.actors[a])
  {
    hide AtFront, CallInProgress, Chosen, Handlers, Ids, Without, Moved, Remaining, Calls;
  }

  lemma CallClearsNone(s: State, a: nat, call: Call)
    requires Orderly(s) && CallEnabled(s, a, call) && Peaceful(s)
    ensures Cleared !in ApplyCall(s, a, call).place
  {
    hide SomeBehind, ThreadOrderly, AtFront, CallInProgress, Chosen, Handlers, Ids, Without, Moved, Remaining, Calls;
    match call
    case DoDelEvent(fd, read, write) =>
      NotCleared(s.place, Ids(Handlers(s, Chosen(s.slots, fd, read, write))), Deleted);
    case DoCancelEvent(fd, read, write) =>
      NotCleared(s.place, Ids(Handlers(s, Chosen(s.slots, fd, read, write))), Owed(a));
    case _ =>
  }

  lemma PushKeepsOrder(s: State, a: nat)
    requires Orderly(s) && a < |s.actors| && s.actors[a].todo != [] && s.actors[a].todo[0].Schedule?
    requires s.actors[a].removed == {}
    ensures Orderly(Push(s, a))
  {
    hide SomeBehind, Moved, Orderly;
    var t := Push(s, a);
    assert ThreadOrderly(s, s.actors[a]) && Cleared !in s.place by { OrderlyParts(s, a); }
    AllAhead(s, a);
    NotCleared(s.place, {s.actors[a].todo[0].task.id}, Queued);
    ThreadKeepsOrder(s, t, a, t.actors[a]);
  }

  lemma SubtractKeepsOrder(s: State, a: nat)
    requires Orderly(s) && a < |s.actors| && s.actors[a].removed != {}
    ensures Orderly(Subtract(s, a))
  {
    hide SomeBehind, Orderly;
    var t := Subtract(s, a);
    assert ThreadOrderly(s, s.actors[a]) && Cleared !in s.place by { OrderlyParts(s, a); }
    AllAhead(s, a);
    ThreadKeepsOrder(s, t, a, t.actors[a]);
  }

  lemma WriteTokenKeepsOrder(s: State, a: nat)
    requires Orderly(s) && a < |s.actors| && s.actors[a].removed == {} && s.actors[a].todo != []
    ensures Orderly(WriteToken(s, a))
  {
    hide SomeBehind;
    var t := WriteToken(s, a);
    assert ThreadOrderly(s, s.actors[a]);
    ThreadKeepsOrder(s, t, a, t.actors[a]);
  }

  lemma OrderlyParts(s: State, a: nat)
    requires Orderly(s) && a < |s.actors|
    ensures ThreadOrderly(s, s.actors[a]) && Cleared !in s.place
  {
  }

  lemma ContinueKeepsOrder(s: State, a: nat)
    requires Orderly(s) && ContinueEnabled(s, a)
    ensures Orderly(ApplyContinue(s, a))
  {
    hide Orderly, Subtract, Push, WriteToken;
    if s.actors[a].removed != {} {
      SubtractKeepsOrder(s, a);
    } else if s.actors[a].todo[0].Schedule? {
      PushKeepsOrder(s, a);
    } else {
      WriteTokenKeepsOrder(s, a);
    }
  }

  lemma InspectKeepsOrder(s: State, a: nat)
    requires Orderly(s) && Peaceful(s) && MoveEnabled(s, a, DoInspect)
    ensures Orderly(InspectNext(s, a))
  {
    hide SomeBehind;
    var t := InspectNext(s, a);
    assert ThreadOrderly(s, s.actors[a]);
    ThreadKeepsOrder(s, t, a, t.actors[a]);
  }

  lemma ProcessKeepsOrder(s: State, a: nat, keys: seq<Slot>, rest: seq<Report>, ready: bool)
    requires Orderly(s) && a < |s.actors| && s.actors[a].pc.Handle?
    requires forall i :: 0 <= i < |keys| ==> keys[i] in s.slots
    ensures Orderly(ProcessEvent(s, a, keys, rest, ready))
  {
    hide SomeBehind, Orderly, ProcessEvent;
    var t := ProcessEvent(s, a, keys, rest, ready);
    AllAhead(s, a);
    OrderlyParts(s, a);
    ProcessShape(s, a, keys, rest, ready);
    ProcessClearsNone(s, a, keys, rest, ready);
    ThreadKeepsOrder(s, t, a, t.actors[a]);
  }

  lemma ProcessClearsNone(s: State, a: nat, keys: seq<Slot>, rest: seq<Report>, ready: bool)
    requires Cleared !in s.place && a < |s.actors| && forall i :: 0 <= i < |keys| ==> keys[i] in s.slots
    ensures var t := ProcessEvent(s, a, keys, rest, ready);
            Cleared !in t.place && t.stopping == s.stopping
  {
    hide Handlers, Ids, Without, Moved, Calls;
    NotCleared(s.place, Ids(Handlers(s, keys)), Owed(a));
  }

  lemma HandleKeepsOrder(s: State, a: nat)
    requires Orderly(s) && MoveEnabled(s, a, DoHandle)
    ensures Orderly(HandleOne(s, a))
  {
    hide SomeBehind, Chosen, Orderly, ProcessEvent, HandleOne;
    var Handle(batch, ready) := s.actors[a].pc;
    HandleIs(s, a);
    if batch[0].Fd? {
      ProcessKeepsOrder(s, a, Chosen(s.slots, batch[0].fd, batch[0].read, batch[0].write), batch[1..], ready);
    } else {
      var t := Drain(s, a, batch[1..]);
      AllAhead(s, a);
      OrderlyParts(s, a);
      ThreadKeepsOrder(s, t, a, t.actors[a]);
    }
  }

  lemma TakeKeepsOrder(s: State, a: nat, i: nat, fiber: nat)
    requires Orderly(s) && a < |s.actors| && s.actors[a].pc.Fetch? && Settled(s.actors[a]) && i < |s.queue|
    ensures Orderly(Take(s, a, i, fiber))
  {
    hide Orderly, SomeBehind, Moved;
    var t := Take(s, a, i, fiber);
    AllAhead(s, a);
    OrderlyParts(s, a);
    NotCleared(s.place, {s.queue[i].id}, Started);
    ThreadKeepsOrder(s, t, a, t.actors[a]);
  }

  lemma ExpireKeepsOrder(s: State, a: nat, now: nat, count: nat)
    requires Orderly(s) && a < |s.actors| && s.actors[a].pc.Handle? && Settled(s.actors[a])
    ensures Orderly(Expire(s, a, now, count))
  {
    hide Orderly, SomeBehind, Advanced, NewCallbacks, Calls;
    var t := Expire(s, a, now, count);
    AllAhead(s, a);
    OrderlyParts(s, a);
    ThreadKeepsOrder(s, t, a, t.actors[a]);
  }

  lemma FinishKeepsOrder(s: State, a: nat, again: Option<Task>)
    requires Orderly(s) && a < |s.actors| && s.actors[a].pc.Running? && Settled(s.actors[a])
    ensures Orderly(Finish(s, a, again))
  {
    hide Orderly, SomeBehind;
    var t := Finish(s, a, again);
    AllAhead(s, a);
    OrderlyParts(s, a);
    ThreadKeepsOrder(s, t, a, t.actors[a]);
  }

  lemma QuietKeepsOrder(s: State, t: State, a: nat, move: Move)
    requires Orderly(s) && MoveChanges(s, t, a, move) && QuietChanges(s, t, a) && QuietMove(move)
    requires Settled(s.actors[a]) && !move.DoInspect? && !move.DoEpollFailure?
    ensures Orderly(t)
  {
    hide Orderly, SomeBehind;
    AllAhead(s, a);
    OrderlyParts(s, a);
    ThreadKeepsOrder(s, t, a, t.actors[a]);
  }

  lemma MoveKeepsOrder(s: State, a: nat, move: Move)
    requires Orderly(s) && Peaceful(s) && MoveEnabled(s, a, move) && !move.DoEpollFailure?
    ensures Orderly(ApplyMove(s, a, move))
  {
    hide Orderly, Eligible, Executing, Held, Due, Elements, HandleOne, InspectNext, Take, Expire, Finish, OneTickle,
      IsEarliest;
    match move
    case DoHandle => HandleKeepsOrder(s, a);
    case DoInspect => InspectKeepsOrder(s, a);
    case DoTake(i, fiber) => TakeKeepsOrder(s, a, i, fiber);
    case DoExpire(now, order) => ExpireKeepsOrder(s, a, now, |order|);
    case DoFinish(again) => FinishKeepsOrder(s, a, again);
    case DoEpollFailure => assert false;
    case _ =>
      MoveShape(s, a, move);
      QuietShape(s, a, move);
      QuietKeepsOrder(s, ApplyMove(s, a, move), a, move);
  }

  lemma TickKeepsOrder(s: State, ms: nat)
    requires Orderly(s)
    ensures Orderly(s.(clock := s.clock + ms))
  {
    hide Behind;
    var t := s.(clock := s.clock + ms);
    forall n | SomeBehind(s, n) ensures SomeBehind(t, n) {
    }
    forall a | 0 <= a < |t.actors| ensures ThreadOrderly(t, t.actors[a]) {
      assert ThreadOrderly(s, s.actors[a]);
    }
  }

  lemma CallPeace(s: State, a: nat, call: Call)
    requires CallEnabled(s, a, call) && Peaceful(ApplyCall(s, a, call))
    ensures Peaceful(s)
  {
    hide CallEnabled, ApplyCall;
    CallShape(s, a, call);
  }

  lemma ContinuePeace(s: State, a: nat)
    requires ContinueEnabled(s, a) && Peaceful(ApplyContinue(s, a))
    ensures Peaceful(s)
  {
    hide ContinueEnabled, ApplyContinue;
    ContinueShape(s, a);
  }

  lemma MovePeace(s: State, a: nat, move: Move)
    requires MoveEnabled(s, a, move) && Peaceful(ApplyMove(s, a, move))
    ensures Peaceful(s) && !move.DoEpollFailure?
  {
    hide MoveEnabled, ApplyMove;
    MoveShape(s, a, move);
  }

  predicate DrainOk(s: State) {
    Peaceful(s) ==> Orderly(s)
  }

  lemma StepKeepsDrain(s: State, step: Step)
    requires DrainOk(s) && Enabled(s, step)
    ensures DrainOk(Apply(s, step))
  {
    hide Orderly, Peaceful, CallEnabled, MoveEnabled, ApplyCall, ApplyMove, ContinueEnabled, ApplyContinue;
    if Peaceful(Apply(s, step)) {
      match step
      case Begin(a, call) => CallPeace(s, a, call); CallKeepsOrder(s, a, call);
      case Continue(a) => ContinuePeace(s, a); ContinueKeepsOrder(s, a);
      case Loop(a, move) => MovePeace(s, a, move); MoveKeepsOrder(s, a, move);
      case Tick(ms) => TickPeace(s, ms); TickKeepsOrder(s, ms);
    }
  }

  lemma TickPeace(s: State, ms: nat)
    requires Peaceful(s.(clock := s.clock + ms))
    ensures Peaceful(s)
  {
  }

  lemma InitialDrain(s: State)
    requires Initial(s)
    ensures DrainOk(s)
  {
    var a :| 0 <= a < |s.actors| && s.actors[a].pc.Fetch?;
    assert IsWorker(s.actors[a]);
  }
}
