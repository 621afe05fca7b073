/** Wake-ups counted: who may be missing one.  A batch wakes one worker for all its entries; every
    other entry of the queue has a wake-up of its own. */
module IoBatches {
  import opened Wrappers
  import opened IoMachine
  import opened IoShapes
  import opened IoPlaces
  import opened IoCounter
  import opened IoWakeUp
  import opened IoDrain
  import opened IoRuns

  /** Wake-ups for the queue, apart from `n` entries. */
  predicate Short(s: State, n: nat) {
    |Wanted(s)| <= s.tokens + |Writers(s.actors)| + |Scanners(s.actors)| + |PinnedRunners(s.actors)| + n
  }

  lemma ShortStart(s: State, n: nat)
    requires Invariant(s, n) && (!s.force ==> Short(s, 0))
    ensures WakeUpOk(s, 0)
  {
    hide Placed, Counted, DrainOk, Wanted, Helpers, BatchesOk, TasksCovered, TimersCovered;
    HelpersCount(s.actors);
  }

  lemma {:induction false} ShortInvariant(states: seq<State>, steps: seq<Step>, i: nat, j: nat)
    requires IsRun(states, steps) && i <= j < |states| && (!states[i].force ==> Short(states[i], 0))
    ensures WakeUpOk(states[j], Extras(states, steps, i, j))
    decreases j
  {
    hide Placed, Enabled, Apply, Initial, WakeUpOk, Invariant, Short, DistinctIds, Extra;
    RunKeepsInvariant(states, steps, j);
    if i == j {
      ShortStart(states[j], Extras(states, steps, 0, j));
    } else {
      ShortInvariant(states, steps, i, j - 1);
      var s := states[j - 1];
      RunKeepsInvariant(states, steps, j - 1);
      InvariantPlaced(s, Extras(states, steps, 0, j - 1));
      QueueDistinct(s);
      StepKeepsWakeUp(s, steps[j - 1], Extras(states, steps, i, j - 1));
    }
  }

  /** Every startable entry has a wake-up of its own, unless pinned entries are running or batches
      were posted: since any moment at which none was missing (as while nothing startable is queued),
      only the entries posted beyond one per batch can go without, and one for every time a worker
      took a coroutine that another had taken already. */
  lemma WakeUpForEachTask(states: seq<State>, steps: seq<Step>, i: nat, j: nat)
    requires IsRun(states, steps) && i <= j < |states| && !states[j].force
    requires !states[i].force ==> Short(states[i], 0)
    ensures Short(states[j], Extras(states, steps, i, j))
  {
    hide Initial, Enabled, Apply, BatchesOk, TasksCovered, TimersCovered, Wanted, Helpers, Extras;
    ShortInvariant(states, steps, i, j);
    HelpersCount(states[j].actors);
  }

  // ----- exactly when none is missing

  predicate StartsPinned(s: State, step: Step) {
    step.Loop? && step.move.DoTake? && step.move.i < |s.queue| && s.queue[step.move.i].pin.Some?
  }

  predicate StepPlain(s: State, step: Step, most: nat) {
    && (step.Begin? && step.call.DoPostBatch? ==> |step.call.tasks| <= most)
    && (step.Loop? ==> MoveExtra(s, step.move) == 0)
    && !StartsPinned(s, step)
  }

  /** Batches have at most `most` entries, no worker starts a pinned entry, and none takes a
      coroutine that is taken. */
  predicate Plain(states: seq<State>, steps: seq<Step>, most: nat) {
    |states| == |steps| + 1 && forall i :: 0 <= i < |steps| ==> StepPlain(states[i], steps[i], most)
  }

  lemma {:induction false} NoExtras(states: seq<State>, steps: seq<Step>, j: nat)
    requires Plain(states, steps, 1) && j < |states|
    ensures Extras(states, steps, 0, j) == 0
  {
    hide MoveExtra;
    if j > 0 {
      NoExtras(states, steps, j - 1);
      assert StepPlain(states[j - 1], steps[j - 1], 1);
    }
  }

  predicate NonePinned(actors: seq<Actor>) {
    forall a :: 0 <= a < |actors| ==> !RunsPinned(actors[a])
  }

  lemma MovePins(s: State, t: State, b: nat, move: Move)
    requires MoveChanges(s, t, b, move) && NonePinned(s.actors) && !StartsPinned(s, Loop(b, move))
    ensures NonePinned(t.actors)
  {
    assert !RunsPinned(t.actors[b]) by {
      assert !RunsPinned(s.actors[b]);
    }
  }

  lemma StepPins(s: State, step: Step)
    requires Enabled(s, step) && NonePinned(s.actors) && !StartsPinned(s, step)
    ensures NonePinned(Apply(s, step).actors)
  {
    hide CallEnabled, MoveEnabled, ContinueEnabled, ApplyCall, ApplyMove, ApplyContinue;
    match step
    case Begin(b, call) => CallShape(s, b, call);
    case Continue(b) => ContinueShape(s, b);
    case Loop(b, move) =>
      MoveShape(s, b, move);
      MovePins(s, ApplyMove(s, b, move), b, move);
    case Tick(ms) =>
  }

  lemma {:induction false} RunPins(states: seq<State>, steps: seq<Step>, most: nat, i: nat)
    requires IsRun(states, steps) && Plain(states, steps, most) && i < |states|
    ensures NonePinned(states[i].actors)
  {
    hide Enabled, Apply, StartsPinned;
    if i > 0 {
      RunPins(states, steps, most, i - 1);
      assert StepPlain(states[i - 1], steps[i - 1], most);
      StepPins(states[i - 1], steps[i - 1]);
    }
  }

  predicate OwnWakeUps(s: State) {
    |Wanted(s)| <= s.tokens + |Writers(s.actors)| + |Scanners(s.actors)|
  }

  /** Then every startable entry has a wake-up of its own. */
  lemma WakeUpOfItsOwn(states: seq<State>, steps: seq<Step>, i: nat)
    requires IsRun(states, steps) && Plain(states, steps, 1) && i < |states| && !states[i].force
    ensures OwnWakeUps(states[i])
  {
    hide Initial, Enabled, Apply, Wanted, Extras, StepPlain;
    NothingShort(states[0]);
    WakeUpForEachTask(states, steps, 0, i);
    NoExtras(states, steps, i);
    RunPins(states, steps, 1, i);
    assert PinnedRunners(states[i].actors) == {};
  }

  lemma NothingShort(s: State)
    requires Initial(s)
    ensures Short(s, 0)
  {
    assert Wanted(s) == {};
  }

  // ----- a batch that wakes one worker for two entries

  const BATCH := [Callback(0, None), Callback(1, None)]

  function Scene(worker: Actor, poster: Actor): State {
    State([worker, poster], [], 0, 1, false, false, map[], 0, map[], 0, 0, [], {}, false, false)
  }

  function At(pc: Pc): Actor {
    Actor(pc, {}, [])
  }

  function Posted(): State {
    PostBatch(Scene(At(Waiting(None)), At(Outside)), 1, BATCH)
  }

  lemma Blocks()
    ensures var s, t := Scene(At(Fetch), At(Outside)), Scene(At(Sample), At(Outside));
            Enabled(s, Loop(0, DoFindNothing)) && Apply(s, Loop(0, DoFindNothing)) == t &&
            Enabled(t, Loop(0, DoBlock(None))) &&
            Apply(t, Loop(0, DoBlock(None))) == Scene(At(Waiting(None)), At(Outside))
  {
  }

  lemma Posts()
    ensures var s := Scene(At(Waiting(None)), At(Outside));
            Enabled(s, Begin(1, DoPostBatch(BATCH))) && Apply(s, Begin(1, DoPostBatch(BATCH))) == Posted()
  {
  }

  function Woken(): State {
    WriteToken(Posted(), 1)
  }

  lemma Writes()
    ensures Enabled(Posted(), Continue(1)) && Apply(Posted(), Continue(1)) == Woken()
  {
  }

  lemma Outcome()
    ensures var s := Woken();
            && !s.force && Wanted(s) == {OfCallback(0), OfCallback(1)} && s.tokens == 1
            && Writers(s.actors) == {} && Scanners(s.actors) == {} && PinnedRunners(s.actors) == {}
  {
    var s := Woken();
    assert KeyOf(s.queue[0]) in Wanted(s) && KeyOf(s.queue[1]) in Wanted(s);
  }

  lemma Begins()
    ensures Initial(Scene(At(Fetch), At(Outside)))
  {
    assert Scene(At(Fetch), At(Outside)).actors[0].pc.Fetch?;
  }

  /** The worker finds nothing and blocks; two callbacks are posted together and the token is written. */
  lemma BatchShort() returns (states: seq<State>, steps: seq<Step>)
    ensures IsRun(states, steps) && Plain(states, steps, 2) && |states| > 0
    ensures var s := states[|states| - 1];
            && !s.force && |Wanted(s)| == 2 && s.tokens == 1
            && Writers(s.actors) == {} && Scanners(s.actors) == {} && PinnedRunners(s.actors) == {}
  {
    hide Enabled, Apply, Posted, Woken, Wanted, Initial, Scene;
    states := [Scene(At(Fetch), At(Outside)), Scene(At(Sample), At(Outside)), Scene(At(Waiting(None)), At(Outside)),
               Posted(), Woken()];
    steps := [Loop(0, DoFindNothing), Loop(0, DoBlock(None)), Begin(1, DoPostBatch(BATCH)), Continue(1)];
    Begins();
    Blocks();
    Posts();
    Writes();
    Outcome();
  }

  ghost predicate AlwaysOwn(most: nat) {
    forall states: seq<State>, steps: seq<Step>, i: nat ::
      IsRun(states, steps) && Plain(states, steps, most) && i < |states| && !states[i].force ==> OwnWakeUps(states[i])
  }

  /** Exactly: no startable entry ever goes without a wake-up of its own if and only if batches have
      at most one entry. */
  lemma OwnWakeUpExact(most: nat)
    ensures AlwaysOwn(most) <==> most <= 1
  {
    hide IsRun, OwnWakeUps;
    if most <= 1 {
      forall states: seq<State>, steps: seq<Step>, i: nat
        | IsRun(states, steps) && Plain(states, steps, most) && i < |states| && !states[i].force
        ensures OwnWakeUps(states[i])
      {
        FewerPlain(states, steps, most, 1);
        WakeUpOfItsOwn(states, steps, i);
      }
    } else {
      var states, steps := BatchShort();
      FewerPlain(states, steps, 2, most);
      assert !OwnWakeUps(states[|states| - 1]) by { TwoForOne(states[|states| - 1]); }
    }
  }

  lemma FewerPlain(states: seq<State>, steps: seq<Step>, few: nat, most: nat)
    requires Plain(states, steps, few) && few <= most
    ensures Plain(states, steps, most)
  {
    hide MoveExtra, StartsPinned;
    forall i | 0 <= i < |steps| ensures StepPlain(states[i], steps[i], most) {
      assert StepPlain(states[i], steps[i], few);
    }
  }

  lemma TwoForOne(s: State)
    requires |Wanted(s)| == 2 && s.tokens == 1 && Writers(s.actors) == {} && Scanners(s.actors) == {}
    ensures !OwnWakeUps(s)
  {
  }
}
