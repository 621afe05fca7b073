/** stop() joins its workers.  With one worker it always can; with more, a worker may block for ever
    after the last token has been drained by another. */
module IoStop {
  import opened Wrappers
  import opened IoMachine
  import opened IoShapes
  import opened IoCounter
  import opened IoWakeUp
  import opened IoDrain
  import opened IoRuns
  import opened IoAlone
  import opened Sets

  /** Nothing runs, nothing is left to do and no call is open. */
  predicate Quiet(s: State) {
    && s.stopping && s.queue == [] && s.slots == map[] && s.timers == map[] && s.tokens == 0
    && forall a :: 0 <= a < |s.actors| ==>
         Settled(s.actors[a]) && !s.actors[a].pc.Taken? && !s.actors[a].pc.Running?
  }

  /** And the worker waits without a timeout. */
  predicate Hung(s: State, b: nat) {
    Peaceful(s) && Quiet(s) && b < |s.actors| && s.actors[b].pc == Waiting(None)
  }

  // ----- it waits for ever

  predicate Stays(pc: Pc) {
    pc == Waiting(None) || pc == Sample
  }

  lemma QuietCalls(s: State, a: nat, call: Call)
    requires Quiet(s) && CallEnabled(s, a, call)
    ensures !Peaceful(ApplyCall(s, a, call))
  {
    hide AtFront, CallInProgress, Handlers, Ids, Without, Moved, Remaining, Calls;
  }

  lemma QuietMoves(s: State, a: nat, move: Move, b: nat)
    requires Quiet(s) && MoveEnabled(s, a, move) && !move.DoEpollFailure? && KernelTruth(s, Loop(a, move))
    requires b < |s.actors| && Stays(s.actors[b].pc)
    ensures var t := ApplyMove(s, a, move);
            Quiet(t) && b < |t.actors| && Stays(t.actors[b].pc)
  {
    hide MoveEnabled, ApplyMove, Quiet, KernelTruth;
    var t := ApplyMove(s, a, move);
    MoveShape(s, a, move);
    MoveStaysQuiet(s, a, move);
    if a == b {
      BlocksForEver(s, b, move);
    }
  }

  lemma MoveStaysQuiet(s: State, a: nat, move: Move)
    requires Quiet(s) && MoveEnabled(s, a, move) && !move.DoEpollFailure?
    ensures Quiet(ApplyMove(s, a, move))
  {
    hide Eligible, Executing, Held, Deadline, OneTickle, Moved, Due, Elements, Advanced, HandleOne, Expire;
    if move.DoExpire? {
      ExpireQuiet(s, a, move.now, move.order);
    } else if move.DoHandle? {
      HandleQuiet(s, a);
    } else if QuietMove(move) {
      QuietShape(s, a, move);
      MoveShape(s, a, move);
    }
  }

  lemma ExpireQuiet(s: State, a: nat, now: nat, order: seq<nat>)
    requires Quiet(s) && MoveEnabled(s, a, DoExpire(now, order))
    ensures Quiet(Expire(s, a, now, |order|))
  {
    NothingDue(s, now, order);
  }

  lemma HandleQuiet(s: State, a: nat)
    requires Quiet(s) && MoveEnabled(s, a, DoHandle)
    ensures Quiet(HandleOne(s, a))
  {
    hide HandleOne;
    HandleIs(s, a);
  }

  /** The worker that waits without a timeout is not woken, and one about to wait waits so. */
  lemma BlocksForEver(s: State, b: nat, move: Move)
    requires Quiet(s) && MoveEnabled(s, b, move) && !move.DoEpollFailure? && KernelTruth(s, Loop(b, move))
    requires Stays(s.actors[b].pc)
    ensures Stays(ApplyMove(s, b, move).actors[b].pc)
  {
    hide Deadline, OneTickle;
    if move.DoWake? {
      NothingReported(s, b, move.batch);
    }
  }

  lemma FirstElement(order: seq<nat>)
    requires order != []
    ensures order[0] in Elements(order)
  {
  }

  lemma FirstReport(batch: seq<Report>)
    requires batch != []
    ensures batch[0].Fd? || Tickled in batch
  {
  }

  lemma NothingDue(s: State, now: nat, order: seq<nat>)
    requires s.timers == map[] && Elements(order) == Due(s.timers, now)
    ensures order == [] && Advanced(s.timers, now) == map[]
  {
    if order != [] {
      FirstElement(order);
      assert false;
    }
  }

  lemma NothingReported(s: State, a: nat, batch: seq<Report>)
    requires Quiet(s) && MoveEnabled(s, a, DoWake(batch)) && KernelTruth(s, Loop(a, DoWake(batch)))
    ensures batch == [] && s.actors[a].pc.deadline.Some?
  {
    if batch != [] {
      FirstReport(batch);
      assert false;
    }
  }

  lemma QuietStep(s: State, step: Step, b: nat)
    requires Quiet(s) && Enabled(s, step) && KernelTruth(s, step) && Peaceful(Apply(s, step))
    requires b < |s.actors| && Stays(s.actors[b].pc)
    ensures var t := Apply(s, step);
            Quiet(t) && b < |t.actors| && Stays(t.actors[b].pc)
  {
    hide CallEnabled, MoveEnabled, ApplyCall, ApplyMove, KernelTruth, Peaceful;
    match step
    case Begin(a, call) => QuietCalls(s, a, call);
    case Continue(a) =>
    case Loop(a, move) =>
      MovePeace(s, a, move);
      QuietMoves(s, a, move, b);
    case Tick(ms) =>
  }

  ghost predicate TrueRun(states: seq<State>, steps: seq<Step>) {
    IsRun(states, steps) && forall i :: 0 <= i < |steps| ==> KernelTruth(states[i], steps[i])
  }

  lemma {:induction false} PeaceBefore(states: seq<State>, steps: seq<Step>, i: nat, j: nat)
    requires IsRun(states, steps) && i <= j < |states| && Peaceful(states[j])
    ensures Peaceful(states[i])
    decreases j - i
  {
    hide Enabled, Apply, Peaceful;
    if i < j {
      PeaceBefore(states, steps, i + 1, j);
      StepPeace(states[i], steps[i]);
    }
  }

  lemma StepPeace(s: State, step: Step)
    requires Enabled(s, step) && Peaceful(Apply(s, step))
    ensures Peaceful(s)
  {
    hide CallEnabled, MoveEnabled, ContinueEnabled, ApplyCall, ApplyMove, ApplyContinue, Peaceful;
    match step
    case Begin(a, call) => CallPeace(s, a, call);
    case Continue(a) => ContinuePeace(s, a);
    case Loop(a, move) => MovePeace(s, a, move);
    case Tick(ms) => TickPeace(s, ms);
  }

  /** A hung worker never leaves, whatever the others do, unless somebody calls in from outside. */
  lemma {:induction false} HungForever(states: seq<State>, steps: seq<Step>, i: nat, j: nat, b: nat)
    requires TrueRun(states, steps) && i <= j < |states| && Hung(states[i], b) && Peaceful(states[j])
    ensures Quiet(states[j]) && b < |states[j].actors| && Stays(states[j].actors[b].pc)
    decreases j
  {
    hide Enabled, Apply, Peaceful, Quiet, KernelTruth, Initial;
    if i < j {
      StepPeace(states[j - 1], steps[j - 1]);
      HungForever(states, steps, i, j - 1, b);
      QuietStep(states[j - 1], steps[j - 1], b);
    }
  }

  // ----- a worker that has been woken leaves

  /** How many moves of its own a worker that has nothing to do still makes before it has left. */
  function MovesLeft(pc: Pc): nat {
    match pc
    case Handle(batch, _) => |batch| + 6
    case Inspect(stage, _) =>
      (match stage case Flag => 5 case Force => 4 case Pending => 3 case Timers => 2 case Queue => 1)
    case _ => 0
  }

  predicate OnItsWayOut(pc: Pc) {
    pc.Handle? || pc.Inspect? || pc.Left?
  }

  lemma QuietKept(s: State, step: Step)
    requires Quiet(s) && Enabled(s, step) && Peaceful(Apply(s, step))
    ensures Quiet(Apply(s, step))
  {
    hide CallEnabled, MoveEnabled, ApplyCall, ApplyMove, Peaceful;
    match step
    case Begin(a, call) => QuietCalls(s, a, call);
    case Continue(a) =>
    case Loop(a, move) =>
      MovePeace(s, a, move);
      MoveStaysQuiet(s, a, move);
    case Tick(ms) =>
  }

  lemma InspectGoesOn(s: State, a: nat)
    requires Quiet(s) && !s.force && s.pending == 0 && a < |s.actors| && s.actors[a].pc.Inspect?
    ensures var pc, next := s.actors[a].pc, InspectNext(s, a).actors[a].pc;
            OnItsWayOut(next) && MovesLeft(next) == MovesLeft(pc) - 1
  {
  }

  lemma MoveOut(s: State, a: nat, move: Move)
    requires Quiet(s) && !s.force && s.pending == 0 && MoveEnabled(s, a, move) && OnItsWayOut(s.actors[a].pc)
    ensures var next := ApplyMove(s, a, move).actors[a].pc;
            OnItsWayOut(next) && MovesLeft(next) == MovesLeft(s.actors[a].pc) - 1
  {
    hide Quiet, InspectNext, HandleOne, Expire, Due, Elements;
    match move
    case DoInspect => InspectGoesOn(s, a);
    case DoHandle => MoveShape(s, a, move);
    case DoExpire(_, _) => MoveShape(s, a, move);
    case DoTake(_, _) => assert false;
    case DoStart => assert false;
    case DoFindNothing => assert false;
    case DoFinish(_) => assert false;
    case DoBlock(_) => assert false;
    case DoWake(_) => assert false;
    case DoInterrupt => assert false;
    case DoEpollFailure => assert false;
  }

  /** What a step of the run means for a worker on its way out. */
  lemma StepOut(s: State, step: Step, a: nat)
    requires Quiet(s) && !s.force && s.pending == 0 && Enabled(s, step)
    requires a < |s.actors| && OnItsWayOut(s.actors[a].pc)
    ensures a < |Apply(s, step).actors|
    ensures var pc, next := s.actors[a].pc, Apply(s, step).actors[a].pc;
            if step.Loop? && step.a == a then OnItsWayOut(next) && MovesLeft(next) == MovesLeft(pc) - 1 else next == pc
  {
    hide Quiet, CallEnabled, MoveEnabled, ContinueEnabled, ApplyCall, ApplyMove, ApplyContinue;
    match step
    case Begin(b, call) => CallShape(s, b, call);
    case Continue(b) => ContinueShape(s, b);
    case Loop(b, move) =>
      MoveShape(s, b, move);
      if a == b {
        MoveOut(s, a, move);
      }
    case Tick(ms) =>
  }

  function OwnMoves(steps: seq<Step>, i: nat, j: nat, a: nat): nat
    requires i <= j <= |steps|
  {
    if i == j then 0 else OwnMoves(steps, i, j - 1, a) + if steps[j - 1].Loop? && steps[j - 1].a == a then 1 else 0
  }

  /** With nothing left to do, a worker that epoll_wait has let go leaves within a fixed number of its
      own moves, whatever the others do, unless somebody calls in from outside. */
  lemma {:induction false} LeavesWhenQuiet(states: seq<State>, steps: seq<Step>, i: nat, j: nat, a: nat)
    requires IsRun(states, steps) && i <= j < |states| && Quiet(states[i]) && Peaceful(states[j])
    requires a < |states[i].actors| && OnItsWayOut(states[i].actors[a].pc)
    ensures Quiet(states[j]) && a < |states[j].actors|
    ensures var pc := states[j].actors[a].pc;
            OnItsWayOut(pc) && MovesLeft(pc) + OwnMoves(steps, i, j, a) == MovesLeft(states[i].actors[a].pc)
    decreases j
  {
    hide Enabled, Apply, Quiet, Initial, Peaceful, MovesLeft, OnItsWayOut;
    if i < j {
      StepPeace(states[j - 1], steps[j - 1]);
      LeavesWhenQuiet(states, steps, i, j - 1, a);
      QuietKept(states[j - 1], steps[j - 1]);
      NothingPending(states, steps, j - 1);
      StepOut(states[j - 1], steps[j - 1], a);
    }
  }

  lemma NothingPending(states: seq<State>, steps: seq<Step>, i: nat)
    requires IsRun(states, steps) && i < |states| && Quiet(states[i]) && Peaceful(states[i])
    ensures states[i].pending == 0 && !states[i].force
  {
    hide IsRun;
    PendingInRun(states, steps, i);
    assert RemovedIds(states[i]) == {};
  }

  // ----- one worker

  lemma {:induction false} AloneOverRun(states: seq<State>, steps: seq<Step>, i: nat, a: nat)
    requires TrueRun(states, steps) && i < |states| && OnlyWorker(states[0].actors, a)
    ensures Alone(states[i], a)
  {
    hide Enabled, Apply, KernelTruth, Initial, Alone, Extras, OnlyWorker;
    if i == 0 {
      InitialAlone(states[0], a);
    } else {
      AloneOverRun(states, steps, i - 1, a);
      RunKeepsInvariant(states, steps, i - 1);
      InvariantParts(states[i - 1], Extras(states, steps, 0, i - 1));
      StepAlone(states[i - 1], a, steps[i - 1]);
    }
  }

  lemma InvariantParts(s: State, n: nat)
    requires Invariant(s, n)
    ensures BatchesOk(s) && DrainOk(s)
  {
  }

  lemma NotHung(s: State, a: nat, b: nat)
    requires Alone(s, a) && s.pending == 0
    ensures !Hung(s, b)
  {
    if forall c :: 0 <= c < |s.actors| ==> s.actors[c].todo == [] {
      NothingPromised(s.actors);
    }
  }

  lemma {:induction false} NothingPromised(actors: seq<Actor>)
    requires forall a :: 0 <= a < |actors| ==> actors[a].todo == []
    ensures Promises(actors) == 0
  {
    if actors != [] {
      NothingPromised(actors[..|actors| - 1]);
    }
  }

  // ----- runs

  function Workers(actors: seq<Actor>): set<nat> {
    set a | 0 <= a < |actors| && IsWorker(actors[a])
  }

  /** Some run of so many workers, with so many tokens for the stop, ends in `s`. */
  ghost predicate Reached(s: State, workers: nat, wakeCount: nat) {
    exists states: seq<State>, steps: seq<Step> ::
      TrueRun(states, steps) && states[|steps|] == s && |Workers(states[0].actors)| == workers &&
      states[0].wakeCount == wakeCount
  }

  lemma StepReached(s: State, step: Step, workers: nat, wakeCount: nat)
    requires Reached(s, workers, wakeCount) && Enabled(s, step) && KernelTruth(s, step)
    ensures Reached(Apply(s, step), workers, wakeCount)
  {
    hide Initial, Enabled, Apply, KernelTruth, Workers;
    var states: seq<State>, steps: seq<Step> :|
      TrueRun(states, steps) && states[|steps|] == s && |Workers(states[0].actors)| == workers &&
      states[0].wakeCount == wakeCount;
    var moreStates, moreSteps := states + [Apply(s, step)], steps + [step];
    forall i | 0 <= i < |moreSteps|
      ensures Enabled(moreStates[i], moreSteps[i]) && moreStates[i + 1] == Apply(moreStates[i], moreSteps[i])
      ensures KernelTruth(moreStates[i], moreSteps[i])
    {
      if i < |steps| {
        assert moreStates[i] == states[i] && moreStates[i + 1] == states[i + 1];
      }
    }
    assert IsRun(moreStates, moreSteps) && TrueRun(moreStates, moreSteps);
  }

  /** stop() need not return: in some run a worker hangs. */
  ghost predicate CanHang(workers: nat, wakeCount: nat) {
    exists s, b :: Reached(s, workers, wakeCount) && Hung(s, b)
  }

  lemma SingleWorker(actors: seq<Actor>)
    requires |Workers(actors)| == 1
    ensures exists a :: OnlyWorker(actors, a)
  {
    var a :| a in Workers(actors);
    forall b | b in Workers(actors) ensures b == a {
      if b != a {
        SubsetOfOne({a, b}, Workers(actors));
      }
    }
    assert forall b :: 0 <= b < |actors| ==> (b in Workers(actors) <==> IsWorker(actors[b]));
    assert OnlyWorker(actors, a);
  }

  lemma SubsetOfOne(some: set<nat>, all: set<nat>)
    requires some <= all && |all| == 1
    ensures |some| <= 1
  {
    SubsetSize(some, all);
  }

  lemma OneWorkerReturns(wakeCount: nat)
    ensures !CanHang(1, wakeCount)
  {
    hide Hung, Alone, OnlyWorker, Initial, Enabled, Apply, KernelTruth, Workers, Extras;
    forall s, b | Reached(s, 1, wakeCount) ensures !Hung(s, b) {
      var states: seq<State>, steps: seq<Step> :|
        TrueRun(states, steps) && states[|steps|] == s && |Workers(states[0].actors)| == 1 &&
        states[0].wakeCount == wakeCount;
      SingleWorker(states[0].actors);
      var a :| OnlyWorker(states[0].actors, a);
      AloneOverRun(states, steps, |steps|, a);
      PendingInRun(states, steps, |steps|);
      if s.pending == 0 {
        NotHung(s, a, b);
      } else {
        HungCounts(s, b);
      }
    }
  }

  lemma HungCounts(s: State, b: nat)
    ensures Hung(s, b) ==> s.slots == map[] && RemovedIds(s) == {}
  {
  }
}
