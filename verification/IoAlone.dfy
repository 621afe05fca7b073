/** A single worker never misses the end: whenever it could block for ever after stop(), a token is
    there or still to be written, or something is left that will bring one. */
module IoAlone {
  import opened Wrappers
  import opened IoMachine
  import opened IoWakeUp
  import opened IoDrain

  /** What the kernel reports is so: the eventfd when it holds a token, a descriptor when it is
      registered, and nothing only once the timeout is over. */
  predicate KernelTruth(s: State, step: Step) {
    step.Loop? && step.move.DoWake? && step.a < |s.actors| && s.actors[step.a].pc.Waiting? ==>
      var deadline, batch := s.actors[step.a].pc.deadline, step.move.batch;
      && (Tickled in batch ==> s.tokens > 0)
      && (forall i :: 0 <= i < |batch| && batch[i].Fd? ==>
            Slot(batch[i].fd, false) in s.slots || Slot(batch[i].fd, true) in s.slots)
      && (batch == [] ==> deadline.Some? && deadline.value <= s.clock)
  }

  /** Tokens to be written by calls that have begun: each push brings one, too. */
  function Promises(actors: seq<Actor>): nat {
    if actors == [] then 0 else Promises(actors[..|actors| - 1]) + |actors[|actors| - 1].todo|
  }

  lemma {:induction false} PromisesUpdate(actors: seq<Actor>, a: nat, actor: Actor)
    requires a < |actors|
    ensures Promises(actors[a := actor]) == Promises(actors) - |actors[a].todo| + |actor.todo|
    ensures |actors[a].todo| <= Promises(actors)
  {
    var n := |actors| - 1;
    if a == n {
      assert actors[a := actor][..n] == actors[..n];
    } else {
      PromisesUpdate(actors[..n], a, actor);
      assert actors[a := actor][..n] == actors[..n][a := actor];
    }
  }

  /** The worker scans the queue before it can block. */
  predicate Scanning(pc: Pc) {
    match pc
    case Fetch => true
    case Taken(_, _) => true
    case Running(_, _) => true
    case Handle(batch, ready) => ready && Tickled !in batch
    case Inspect(_, ready) => ready
    case _ => false
  }

  /** It may block first. */
  predicate Blocking(pc: Pc) {
    match pc
    case Sample => true
    case Waiting(_) => true
    case Handle(batch, ready) => !ready || Tickled in batch
    case Inspect(_, ready) => !ready
    case _ => false
  }

  /** `p` counts the tokens written and promised, `q` says that the worker has an entry in the
      queue, `work` that anything is queued, registered or armed. */
  predicate PcOk(pc: Pc, busy: bool, stopping: bool, p: nat, tokens: nat, q: bool, work: bool) {
    && (Blocking(pc) && q ==> p >= if stopping then 2 else 1)
    && (stopping && (pc.Taken? || pc.Running? || (Scanning(pc) && q)) ==> p >= 1)
    && (stopping && (pc.Fetch? || pc.Sample? || pc.Waiting?) ==> p >= 1 || work)
    && (pc.Handle? && Tickled in pc.batch ==> tokens >= 1)
    && (Blocking(pc) && busy ==> pc.Handle? && Tickled in pc.batch)
  }

  predicate ForWorker(task: Task, a: nat) {
    task.pin.None? || task.pin.value == a
  }

  predicate HasEntry(queue: seq<Task>, a: nat) {
    exists k :: 0 <= k < |queue| && ForWorker(queue[k], a)
  }

  predicate Work(s: State) {
    s.timers != map[] || s.pending != 0 || s.queue != []
  }

  function Coming(s: State): nat {
    s.tokens + Promises(s.actors)
  }

  predicate WorkerOk(s: State, a: nat)
    requires a < |s.actors|
  {
    PcOk(s.actors[a].pc, s.actors[a].todo != [], s.stopping, Coming(s), s.tokens, HasEntry(s.queue, a), Work(s))
  }

  /** `a` is the only worker. */
  predicate OnlyWorker(actors: seq<Actor>, a: nat) {
    a < |actors| && forall b :: 0 <= b < |actors| ==> (IsWorker(actors[b]) <==> b == a)
  }

  /** What was removed is subtracted before a promise is kept. */
  predicate RemovedPromised(actors: seq<Actor>) {
    forall b :: 0 <= b < |actors| && actors[b].removed != {} ==> actors[b].todo != []
  }

  predicate Ready(s: State, a: nat) {
    OnlyWorker(s.actors, a) && RemovedPromised(s.actors) && WorkerOk(s, a)
  }

  predicate Alone(s: State, a: nat) {
    Peaceful(s) ==> Ready(s, a)
  }

  // ----- calls

  /** A step in which thread `b` changes, and the worker keeps its place. */
  lemma SamePlace(s: State, t: State, a: nat, b: nat, actor: Actor)
    requires Ready(s, a) && b < |s.actors| && t.actors == s.actors[b := actor]
    requires actor.pc == s.actors[b].pc && (actor.removed != {} ==> actor.todo != [])
    requires t.tokens + |actor.todo| >= s.tokens + |s.actors[b].todo| && t.tokens >= s.tokens
    requires b == a && Blocking(actor.pc) && actor.todo != [] ==> s.actors[b].todo != []
    requires t.stopping == s.stopping && (t.queue == s.queue || s.queue < t.queue)
    requires t.queue != s.queue && Blocking(s.actors[a].pc) ==>
               if t.stopping then b == a && s.actors[a].todo != [] && actor.todo != [] else actor.todo != []
    requires t.queue != s.queue && t.stopping && Scanning(s.actors[a].pc) ==> actor.todo != [] || t.tokens > 0
    requires Work(s) && !Work(t) ==> actor.todo != [] || t.tokens > 0 || s.actors[a].pc.Running? || !t.stopping
    ensures Ready(t, a)
  {
    hide Scanning, Blocking;
    PromisesUpdate(s.actors, b, actor);
    PromisesUpdate(t.actors, b, actor);
    assert t.actors[b] == actor;
    assert t.queue == s.queue ==> HasEntry(t.queue, a) == HasEntry(s.queue, a);
  }

  lemma StopAlone(s: State, a: nat, b: nat)
    requires Ready(s, a) && CallEnabled(s, b, DoStop)
    ensures Ready(Stop(s, b), a)
  {
    hide CallInProgress, Work, HasEntry;
    var t := Stop(s, b);
    PromisesUpdate(s.actors, b, t.actors[b]);
  }

  /** After stop() only the worker still calls. */
  lemma CallerIsWorker(s: State, a: nat, b: nat, call: Call)
    requires Ready(s, a) && CallEnabled(s, b, call) && Peaceful(ApplyCall(s, b, call)) && s.stopping
    ensures b == a && s.actors[a].pc.Running?
  {
    hide AtFront, CallInProgress, Chosen, Handlers, Ids, Without, Moved, Remaining, Calls, WorkerOk;
  }

  lemma CallAlone(s: State, a: nat, b: nat, call: Call)
    requires Ready(s, a) && CallEnabled(s, b, call) && Peaceful(ApplyCall(s, b, call))
    ensures Ready(ApplyCall(s, b, call), a)
  {
    hide AtFront, CallInProgress, Chosen, Handlers, Ids, Without, Moved, Remaining, Ready, Scanning;
    var t := ApplyCall(s, b, call);
    assert OnlyWorker(s.actors, a) by { ReadyParts(s, a); }
    if s.stopping {
      CallerIsWorker(s, a, b, call);
    }
    if call.DoStop? {
      StopAlone(s, a, b);
    } else {
      SamePlace(s, t, a, b, t.actors[b]);
    }
  }

  lemma ReadyParts(s: State, a: nat)
    requires Ready(s, a)
    ensures OnlyWorker(s.actors, a) && RemovedPromised(s.actors) && WorkerOk(s, a)
  {
  }

  lemma ContinueAlone(s: State, a: nat, b: nat)
    requires Ready(s, a) && ContinueEnabled(s, b) && Peaceful(ApplyContinue(s, b))
    requires s.wakeCount > 0 && Orderly(s)
    ensures Ready(ApplyContinue(s, b), a)
  {
    hide Moved, Scanning, Blocking, HasEntry, WorkerOk, SomeBehind;
    var t := ApplyContinue(s, b);
    assert ThreadOrderly(s, s.actors[b]);
    assert s.stopping && s.actors[b].todo != [] && s.actors[b].todo[0].Schedule? ==> b == a;
    SamePlace(s, t, a, b, t.actors[b]);
  }

  // ----- the worker's own loop

  /** Only the worker itself has changed, and nothing was promised to it. */
  lemma OwnMove(s: State, t: State, a: nat, actor: Actor)
    requires Ready(s, a) && s.actors[a].todo == [] && t.actors == s.actors[a := actor] && IsWorker(actor)
    requires actor.removed != {} ==> actor.todo != []
    requires PcOk(actor.pc, actor.todo != [], t.stopping, Coming(s) + t.tokens - s.tokens + |actor.todo|, t.tokens,
                  HasEntry(t.queue, a), Work(t))
    requires t.tokens <= s.tokens
    ensures Ready(t, a)
  {
    hide PcOk, Work, HasEntry;
    PromisesUpdate(s.actors, a, actor);
    assert Coming(t) == Coming(s) + t.tokens - s.tokens + |actor.todo|;
    assert t.actors[a] == actor;
  }

  lemma TakeAlone(s: State, a: nat, i: nat, fiber: nat)
    requires Ready(s, a) && MoveEnabled(s, a, DoTake(i, fiber))
    ensures Ready(Take(s, a, i, fiber), a)
  {
    hide Moved, Executing;
    var t := Take(s, a, i, fiber);
    assert ForWorker(s.queue[i], a);
    OwnMove(s, t, a, t.actors[a]);
  }

  /** Nothing of the worker's is queued, as no other worker could run it. */
  lemma FindNothingAlone(s: State, a: nat)
    requires Ready(s, a) && MoveEnabled(s, a, DoFindNothing)
    ensures Ready(FindNothing(s, a), a)
  {
    var t := FindNothing(s, a);
    forall k | 0 <= k < |s.queue| ensures !ForWorker(s.queue[k], a) {
      assert !Eligible(s, a, s.queue[k]);
    }
    OwnMove(s, t, a, t.actors[a]);
  }

  lemma FinishAlone(s: State, a: nat, again: Option<Task>)
    requires Ready(s, a) && MoveEnabled(s, a, DoFinish(again))
    ensures Ready(Finish(s, a, again), a)
  {
    hide HasEntry;
    var t := Finish(s, a, again);
    OwnMove(s, t, a, t.actors[a]);
  }

  lemma DrainAlone(s: State, a: nat)
    requires Ready(s, a) && MoveEnabled(s, a, DoHandle) && s.actors[a].pc.batch[0].Tickled?
    requires OneTickle(s.actors[a].pc.batch)
    ensures Ready(HandleOne(s, a), a)
  {
    hide HasEntry, OneTickle;
    var t := HandleOne(s, a);
    RestOfBatch(s.actors[a].pc.batch);
    assert Tickled in s.actors[a].pc.batch;
    OwnMove(s, t, a, t.actors[a]);
  }

  /** What processEvent does to the worker. */
  lemma ProcessResult(s: State, a: nat, keys: seq<Slot>, rest: seq<Report>, ready: bool)
    requires a < |s.actors| && Settled(s.actors[a]) && forall i :: 0 <= i < |keys| ==> keys[i] in s.slots
    ensures var t := ProcessEvent(s, a, keys, rest, ready);
            && t.actors == s.actors[a := t.actors[a]] && t.stopping == s.stopping && t.tokens == s.tokens
            && t.queue == s.queue && t.timers == s.timers && t.pending == s.pending
            && (if keys == [] then t.actors[a] == s.actors[a].(pc := Handle(rest, ready))
                else t.actors[a].pc == Handle(rest, true) && t.actors[a].todo != [])
  {
    hide Handlers, Ids, Without, Moved;
    assert keys != [] ==> |Calls(Handlers(s, keys)) + []| == |keys|;
  }

  lemma ProcessAlone(s: State, a: nat)
    requires Ready(s, a) && MoveEnabled(s, a, DoHandle) && s.actors[a].pc.batch[0].Fd?
    ensures Ready(HandleOne(s, a), a)
  {
    hide HasEntry, ProcessEvent, Chosen;
    var Handle(batch, ready) := s.actors[a].pc;
    var t := HandleOne(s, a);
    var keys := Chosen(s.slots, batch[0].fd, batch[0].read, batch[0].write);
    ProcessResult(s, a, keys, batch[1..], ready);
    assert Tickled in batch[1..] <==> Tickled in batch by { assert batch == [batch[0]] + batch[1..]; }
    OwnMove(s, t, a, t.actors[a]);
  }

  lemma ExpireAlone(s: State, a: nat, now: nat, order: seq<nat>)
    requires Ready(s, a) && MoveEnabled(s, a, DoExpire(now, order))
    ensures Ready(Expire(s, a, now, |order|), a)
  {
    hide HasEntry, Advanced, Due, Elements, NewCallbacks, Work;
    var t := Expire(s, a, now, |order|);
    OwnMove(s, t, a, t.actors[a]);
  }

  lemma InspectAlone(s: State, a: nat)
    requires Ready(s, a) && MoveEnabled(s, a, DoInspect)
    ensures Ready(InspectNext(s, a), a)
  {
    hide HasEntry;
    var t := InspectNext(s, a);
    OwnMove(s, t, a, t.actors[a]);
  }

  lemma MoveAlone(s: State, a: nat, b: nat, move: Move)
    requires Ready(s, a) && MoveEnabled(s, b, move) && !move.DoEpollFailure? && KernelTruth(s, Loop(b, move))
    requires BatchesOk(s)
    ensures Ready(ApplyMove(s, b, move), a)
  {
    hide Ready, Eligible, Executing, Due, Advanced, Elements, Deadline, HandleOne, InspectNext, Take, Finish, Expire,
      FindNothing, HasEntry, OneTickle, IsEarliest;
    ReadyParts(s, a);
    assert b == a by { WorkerMoves(s, a, b, move); }
    match move
    case DoTake(i, fiber) => TakeAlone(s, a, i, fiber);
    case DoFindNothing => FindNothingAlone(s, a);
    case DoFinish(again) => FinishAlone(s, a, again);
    case DoExpire(now, order) => ExpireAlone(s, a, now, order);
    case DoInspect => InspectAlone(s, a);
    case DoHandle =>
      if s.actors[a].pc.batch[0].Tickled? {
        DrainAlone(s, a);
      } else {
        ProcessAlone(s, a);
      }
    case DoEpollFailure =>
    case _ =>
      var t := ApplyMove(s, a, move);
      OwnMove(s, t, a, t.actors[a]);
  }

  lemma WorkerMoves(s: State, a: nat, b: nat, move: Move)
    requires OnlyWorker(s.actors, a) && MoveEnabled(s, b, move)
    ensures b == a
  {
  }

  lemma StepAlone(s: State, a: nat, step: Step)
    requires Alone(s, a) && Enabled(s, step) && KernelTruth(s, step) && BatchesOk(s) && DrainOk(s)
    ensures Alone(Apply(s, step), a)
  {
    hide Ready, Peaceful, CallEnabled, MoveEnabled, ContinueEnabled, ApplyCall, ApplyMove, ApplyContinue, Orderly,
      KernelTruth;
    if Peaceful(Apply(s, step)) {
      match step
      case Begin(b, call) =>
        CallPeace(s, b, call);
        CallAlone(s, a, b, call);
      case Continue(b) =>
        ContinuePeace(s, b);
        assert s.wakeCount > 0 by { BatchesPositive(s); }
        ContinueAlone(s, a, b);
      case Loop(b, move) =>
        MovePeace(s, b, move);
        MoveAlone(s, a, b, move);
      case Tick(ms) =>
        TickPeace(s, ms);
        TickAlone(s, a, ms);
    }
  }

  lemma TickAlone(s: State, a: nat, ms: nat)
    requires Ready(s, a)
    ensures Ready(s.(clock := s.clock + ms), a)
  {
  }

  lemma InitialAlone(s: State, a: nat)
    requires Initial(s) && OnlyWorker(s.actors, a)
    ensures Alone(s, a)
  {
    assert s.actors[a].pc.Fetch? && !HasEntry(s.queue, a);
  }
}
