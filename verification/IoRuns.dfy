/** What holds in every run of the event loop, for any number of workers and other threads. */
module IoRuns {
  import opened IoMachine
  import opened IoShapes
  import opened IoPlaces
  import opened IoCounter
  import opened IoWakeUp
  import opened IoDrain

  /** `states[i]` becomes `states[i + 1]` by `steps[i]`. */
  ghost predicate IsRun(states: seq<State>, steps: seq<Step>) {
    && |states| == |steps| + 1
    && Initial(states[0])
    && forall i :: 0 <= i < |steps| ==> Enabled(states[i], steps[i]) && states[i + 1] == Apply(states[i], steps[i])
  }

  /** One step more. */
  lemma OneMore(states: seq<State>, steps: seq<Step>, step: Step) returns (more: seq<State>, all: seq<Step>)
    requires IsRun(states, steps) && Enabled(states[|steps|], step)
    ensures IsRun(more, all) && |all| == |steps| + 1 && |more| == |all| + 1
    ensures more[|all|] == Apply(states[|steps|], step)
  {
    hide Initial, Enabled, Apply;
    more, all := states + [Apply(states[|steps|], step)], steps + [step];
    forall i | 0 <= i < |all| ensures Enabled(more[i], all[i]) && more[i + 1] == Apply(more[i], all[i]) {
      if i < |steps| {
        assert more[i] == states[i] && more[i + 1] == states[i + 1];
      }
    }
  }

  /** By how much the wake-ups may have fallen short from state `i` to state `j`. */
  function Extras(states: seq<State>, steps: seq<Step>, i: nat, j: nat): nat
    requires i <= j < |states| && |states| == |steps| + 1
  {
    if i == j then 0 else Extras(states, steps, i, j - 1) + Extra(states[j - 1], steps[j - 1])
  }

  predicate Invariant(s: State, n: nat) {
    Placed(s) && Counted(s) && WakeUpOk(s, n) && DrainOk(s)
  }

  lemma InitialInvariant(s: State)
    requires Initial(s)
    ensures Invariant(s, 0)
  {
    hide WakeUpOk, DrainOk;
    InitialWakeUp(s, 0);
    InitialDrain(s);
  }

  lemma QueueDistinct(s: State)
    requires Placed(s)
    ensures DistinctIds(s.queue)
  {
  }

  lemma StepKeepsInvariant(s: State, step: Step, n: nat)
    requires Invariant(s, n) && Enabled(s, step)
    ensures Invariant(Apply(s, step), n + Extra(s, step))
  {
    hide Placed, Counted, WakeUpOk, DrainOk, Enabled, Apply, Extra;
    QueueDistinct(s);
    StepPlaced(s, step);
    StepCounted(s, step);
    StepKeepsWakeUp(s, step, n);
    StepKeepsDrain(s, step);
  }

  lemma {:induction false} RunKeepsInvariant(states: seq<State>, steps: seq<Step>, i: nat)
    requires IsRun(states, steps) && i < |states|
    ensures Invariant(states[i], Extras(states, steps, 0, i))
  {
    hide Invariant, Initial, Enabled, Apply, Extra;
    if i == 0 {
      InitialInvariant(states[0]);
    } else {
      RunKeepsInvariant(states, steps, i - 1);
      StepKeepsInvariant(states[i - 1], steps[i - 1], Extras(states, steps, 0, i - 1));
    }
  }

  // ----- wake-ups

  /** An unpinned task in the queue is never forgotten. */
  lemma NoLostTask(states: seq<State>, steps: seq<Step>, i: nat, k: nat)
    requires IsRun(states, steps) && i < |states|
    requires var s := states[i]; !s.force && k < |s.queue| && s.queue[k].pin.None?
    ensures var s := states[i];
            || s.tokens > 0
            || exists a :: 0 <= a < |s.actors| && (Owing(s.actors[a]) || Looking(s.actors[a]))
  {
    hide IsRun, Placed, Counted, DrainOk, BatchesOk, EnoughWakeUps, TimersCovered, Owing, Extras;
    RunKeepsInvariant(states, steps, i);
    var s := states[i];
    if KeyOf(s.queue[k]) in Wanted(s) {
      if s.tokens == 0 {
        var a :| 0 <= a < |s.actors| && Helps(s.actors[a]);
        assert Owing(s.actors[a]) || Looking(s.actors[a]);
      }
    } else {
      var a :| 0 <= a < |s.actors| && RunsUnpinned(s.actors[a]) && s.actors[a].pc.fiber == s.queue[k].fiber;
      assert Looking(s.actors[a]);
    }
  }

  function Writers(actors: seq<Actor>): set<nat> {
    set a | 0 <= a < |actors| && Owing(actors[a])
  }

  function Scanners(actors: seq<Actor>): set<nat> {
    set a | 0 <= a < |actors| && Rescans(actors[a])
  }

  function PinnedRunners(actors: seq<Actor>): set<nat> {
    set a | 0 <= a < |actors| && RunsPinned(actors[a])
  }

  lemma {:induction false} HelpersCount(actors: seq<Actor>)
    ensures Helpers(actors) == |Writers(actors)| + |Scanners(actors)| + |PinnedRunners(actors)|
  {
    hide Owing, Rescans, RunsPinned;
    if actors == [] {
      assert Writers(actors) == {} && Scanners(actors) == {} && PinnedRunners(actors) == {};
    } else {
      var n := |actors| - 1;
      var init := actors[..n];
      HelpersCount(init);
      WritersLast(actors);
      ScannersLast(actors);
      PinnedLast(actors);
    }
  }

  lemma WritersLast(actors: seq<Actor>)
    requires actors != []
    ensures |Writers(actors)| == |Writers(actors[..|actors| - 1])| + if Owing(actors[|actors| - 1]) then 1 else 0
  {
    hide Owing;
    var n := |actors| - 1;
    assert Writers(actors) == Writers(actors[..n]) + if Owing(actors[n]) then {n} else {};
  }

  lemma ScannersLast(actors: seq<Actor>)
    requires actors != []
    ensures |Scanners(actors)| == |Scanners(actors[..|actors| - 1])| + if Rescans(actors[|actors| - 1]) then 1 else 0
  {
    hide Rescans;
    var n := |actors| - 1;
    assert Scanners(actors) == Scanners(actors[..n]) + if Rescans(actors[n]) then {n} else {};
  }

  lemma PinnedLast(actors: seq<Actor>)
    requires actors != []
    ensures |PinnedRunners(actors)| ==
              |PinnedRunners(actors[..|actors| - 1])| + if RunsPinned(actors[|actors| - 1]) then 1 else 0
    ensures !(Rescans(actors[|actors| - 1]) && RunsPinned(actors[|actors| - 1]))
  {
    var n := |actors| - 1;
    assert PinnedRunners(actors) == PinnedRunners(actors[..n]) + if RunsPinned(actors[n]) then {n} else {};
  }

  lemma MoveKeepsLooking(s: State, t: State, b: nat, move: Move, a: nat)
    requires MoveChanges(s, t, b, move) && !s.force && a < |s.actors| && Looking(s.actors[a])
    ensures || Looking(t.actors[a])
            || (a == b && move == DoFindNothing)
            || (t.actors[a].pc.Left? && s.queue == [])
  {
  }

  lemma NothingEligible(s: State, a: nat)
    requires MoveEnabled(s, a, DoFindNothing)
    ensures s.actors[a].pc.Fetch? && forall j :: 0 <= j < |s.queue| ==> !Eligible(s, a, s.queue[j])
  {
  }

  /** A worker relied on to look again does look: it stops counting only by scanning the queue
      itself without finding a task for it, or by leaving with the queue empty. */
  lemma LookingUntilScanned(s: State, t: State, step: Step, a: nat)
    requires Enabled(s, step) && t == Apply(s, step) && !s.force && a < |s.actors| && Looking(s.actors[a])
    ensures a < |t.actors|
    ensures || Looking(t.actors[a])
            || (s.actors[a].pc.Fetch? && forall j :: 0 <= j < |s.queue| ==> !Eligible(s, a, s.queue[j]))
            || (t.actors[a].pc.Left? && s.queue == [])
  {
    hide CallEnabled, ContinueEnabled, MoveEnabled, ApplyCall, ApplyContinue, ApplyMove, Eligible;
    match step
    case Begin(b, call) => CallShape(s, b, call);
    case Continue(b) => ContinueShape(s, b);
    case Loop(b, move) =>
      MoveShape(s, b, move);
      MoveKeepsLooking(s, t, b, move, a);
      if move.DoFindNothing? {
        NothingEligible(s, b);
      }
    case Tick(ms) =>
  }

  /** Every active timer is attended to: a token is there or about to be written, or some worker is
      awake and will sample the deadlines again, or blocks no longer than until that timer is due. */
  lemma TimersAttended(states: seq<State>, steps: seq<Step>, i: nat, timer: nat)
    requires IsRun(states, steps) && i < |states|
    requires !states[i].force && !states[i].failed && timer in states[i].timers
    ensures states[i].tokens > 0 ||
            exists a :: 0 <= a < |states[i].actors| && Attends(states[i].actors[a], states[i].timers[timer].due)
  {
    hide IsRun, Placed, Counted, DrainOk, BatchesOk, TasksOk, Attends, Extras;
    RunKeepsInvariant(states, steps, i);
    assert Covered(states[i], states[i].timers[timer].due);
  }

  /** So if every worker is blocked past its deadline, a token is there or about to be. */
  lemma NoLateTimer(states: seq<State>, steps: seq<Step>, i: nat, timer: nat)
    requires IsRun(states, steps) && i < |states|
    requires !states[i].force && !states[i].failed && timer in states[i].timers
    requires forall a :: 0 <= a < |states[i].actors| && IsWorker(states[i].actors[a]) ==>
               (states[i].actors[a].pc.Waiting? &&
                (states[i].actors[a].pc.deadline.Some? ==>
                   states[i].actors[a].pc.deadline.value > states[i].timers[timer].due))
    ensures states[i].tokens > 0 || exists a :: 0 <= a < |states[i].actors| && Owing(states[i].actors[a])
  {
    hide IsRun, Owing;
    TimersAttended(states, steps, i, timer);
    var s := states[i];
    if s.tokens == 0 {
      var a :| 0 <= a < |s.actors| && Attends(s.actors[a], s.timers[timer].due);
      assert Owing(s.actors[a]);
    }
  }

  // ----- exactly once

  lemma {:induction false} PlacesOverRun(states: seq<State>, steps: seq<Step>, i: nat, j: nat, id: nat)
    requires IsRun(states, steps) && i <= j < |states| && id < |states[i].place|
    ensures id < |states[j].place|
    ensures states[i].place[id].Started? || states[i].place[id].Deleted? || states[i].place[id].Cleared? ==>
              states[j].place[id] == states[i].place[id]
    ensures states[i].place[id].Queued? ==> states[j].place[id].Queued? || states[j].place[id].Started?
    decreases j
  {
    hide Invariant, Initial, Enabled, Apply, Placed, Extras;
    if i < j {
      PlacesOverRun(states, steps, i, j - 1, id);
      RunKeepsInvariant(states, steps, j - 1);
      assert Placed(states[j - 1]) by { InvariantPlaced(states[j - 1], Extras(states, steps, 0, j - 1)); }
      StepMovesOn(states[j - 1], steps[j - 1]);
    }
  }

  lemma InvariantPlaced(s: State, n: nat)
    requires Invariant(s, n)
    ensures Placed(s)
  {
  }

  ghost predicate Starts(s: State, step: Step, id: nat) {
    step.Loop? && step.move.DoTake? && step.move.i < |s.queue| && s.queue[step.move.i].id == id
  }

  /** No task is started twice, and none is started after its registration was deleted or cleared. */
  lemma StartsOnce(states: seq<State>, steps: seq<Step>, i: nat, j: nat, id: nat)
    requires IsRun(states, steps) && i < j < |steps|
    requires id < |states[i].place| && Starts(states[j], steps[j], id)
    ensures !Starts(states[i], steps[i], id)
    ensures !states[i].place[id].Started? && !states[i].place[id].Deleted? && !states[i].place[id].Cleared?
  {
    hide Invariant, Initial, Placed, Extras;
    RunKeepsInvariant(states, steps, j);
    InvariantPlaced(states[j], Extras(states, steps, 0, j));
    assert states[j].place[id].Queued? by { QueuedPlace(states[j], steps[j].move.i); }
    PlacesOverRun(states, steps, i, j, id);
    if Starts(states[i], steps[i], id) {
      RunKeepsInvariant(states, steps, i);
      InvariantPlaced(states[i], Extras(states, steps, 0, i));
      assert states[i + 1].place[id].Started? by {
        TakeStarts(states[i], steps[i].a, steps[i].move.i, steps[i].move.fiber);
      }
      PlacesOverRun(states, steps, i + 1, j, id);
      assert false;
    }
  }

  lemma QueuedPlace(s: State, i: nat)
    requires Placed(s) && i < |s.queue|
    ensures s.queue[i].id < |s.place| && s.place[s.queue[i].id].Queued?
  {
  }

  lemma TakeStarts(s: State, a: nat, i: nat, fiber: nat)
    requires Placed(s) && a < |s.actors| && i < |s.queue|
    ensures s.queue[i].id < |Take(s, a, i, fiber).place|
    ensures Take(s, a, i, fiber).place[s.queue[i].id].Started?
  {
    hide SlotsRecorded, TodosRecorded, AllFound;
  }

  /** The pending counter, at every moment. */
  lemma PendingInRun(states: seq<State>, steps: seq<Step>, i: nat)
    requires IsRun(states, steps) && i < |states|
    ensures states[i].pending == |states[i].slots| + |RemovedIds(states[i])|
  {
    hide IsRun, Placed, Counted, WakeUpOk, DrainOk, Extras;
    RunKeepsInvariant(states, steps, i);
    PendingExact(states[i]);
  }

  // ----- drain on stop

  /** Once every worker has left, nothing is queued, registered or armed, and every task that was
      ever accepted has been started, or its registration was deleted by the user. */
  lemma DrainedOnStop(states: seq<State>, steps: seq<Step>, i: nat)
    requires IsRun(states, steps) && i < |states| && Peaceful(states[i])
    requires forall a :: 0 <= a < |states[i].actors| && IsWorker(states[i].actors[a]) ==> states[i].actors[a].pc.Left?
    ensures states[i].queue == [] && states[i].slots == map[] && states[i].timers == map[]
    ensures states[i].pending == 0
    ensures forall id :: 0 <= id < |states[i].place| ==>
              states[i].place[id].Started? || states[i].place[id].Deleted?
  {
    hide IsRun, WakeUpOk, Extras;
    RunKeepsInvariant(states, steps, i);
    AllLeft(states[i]);
    NothingInSlots(states[i]);
    forall id | 0 <= id < |states[i].place| ensures states[i].place[id].Started? || states[i].place[id].Deleted? {
      Ended(states[i], id);
    }
  }

  lemma AllLeft(s: State)
    requires Orderly(s)
    requires forall a :: 0 <= a < |s.actors| && IsWorker(s.actors[a]) ==> s.actors[a].pc.Left?
    ensures s.queue == [] && s.timers == map[] && s.pending == 0 && s.stopping
    ensures forall a :: 0 <= a < |s.actors| ==> OnlyTickles(s.actors[a])
  {
    var b :| 0 <= b < |s.actors| && IsWorker(s.actors[b]);
    assert ThreadOrderly(s, s.actors[b]);
    forall a | 0 <= a < |s.actors| ensures OnlyTickles(s.actors[a]) {
      assert ThreadOrderly(s, s.actors[a]);
    }
  }

  lemma NothingInSlots(s: State)
    requires Counted(s) && s.pending == 0
    ensures s.slots == map[]
  {
    assert s.counted == {};
  }

  lemma Ended(s: State, id: nat)
    requires Placed(s) && id < |s.place| && s.queue == [] && s.slots == map[] && Cleared !in s.place
    requires forall a :: 0 <= a < |s.actors| ==> OnlyTickles(s.actors[a])
    ensures s.place[id].Started? || s.place[id].Deleted?
  {
    assert Found(s, id);
    assert s.place[id] != Cleared;
  }
}
