/** Taking a coroutine twice.  getNextTask passes over coroutines that run, but one that has only
    been taken does not run yet: a second entry for it goes to a second worker, whose resume() then
    finds it running. */
module IoClash {
  import opened Wrappers
  import opened IoMachine
  import opened IoShapes
  import opened IoRuns

  /** Two workers have the same coroutine. */
  ghost predicate Clash(s: State) {
    exists a, b :: 0 <= a < b < |s.actors| && Clashing(s.actors[a], s.actors[b])
  }

  predicate Clashing(first: Actor, second: Actor) {
    (first.pc.Taken? || first.pc.Running?) && HasFiber(second, first.pc.fiber)
  }

  predicate Resumes(task: Task, fiber: nat) {
    task.Resume? && task.fiber == fiber
  }

  /** The coroutine has no second entry while one is queued or has just been taken. */
  predicate QueuedOnce(s: State, fiber: nat) {
    && (forall i, j :: 0 <= i < j < |s.queue| ==> !(Resumes(s.queue[i], fiber) && Resumes(s.queue[j], fiber)))
    && (forall i, a :: 0 <= i < |s.queue| && 0 <= a < |s.actors| && Resumes(s.queue[i], fiber) ==>
          !(s.actors[a].pc.Taken? && s.actors[a].pc.fiber == fiber))
  }

  /** A step gives a thread no coroutine, except the one it takes. */
  predicate NoNewFiber(before: seq<Actor>, after: seq<Actor>) {
    && |after| == |before|
    && forall a :: 0 <= a < |after| && (after[a].pc.Taken? || after[a].pc.Running?) ==>
         HasFiber(before[a], after[a].pc.fiber)
  }

  lemma StillApart(s: State, t: State)
    requires !Clash(s) && NoNewFiber(s.actors, t.actors)
    ensures !Clash(t)
  {
    forall a, b | 0 <= a < b < |t.actors| ensures !Clashing(t.actors[a], t.actors[b]) {
      assert !Clashing(s.actors[a], s.actors[b]);
    }
  }

  lemma MoveGivesNone(s: State, t: State, a: nat, move: Move)
    requires MoveChanges(s, t, a, move) && !move.DoTake?
    ensures NoNewFiber(s.actors, t.actors)
  {
  }

  lemma StepGivesNone(s: State, step: Step)
    requires Enabled(s, step) && !(step.Loop? && step.move.DoTake?)
    ensures NoNewFiber(s.actors, Apply(s, step).actors)
  {
    hide CallEnabled, MoveEnabled, ContinueEnabled, ApplyCall, ApplyMove, ApplyContinue;
    match step
    case Begin(b, call) => CallShape(s, b, call);
    case Continue(b) => ContinueShape(s, b);
    case Loop(b, move) =>
      MoveShape(s, b, move);
      MoveGivesNone(s, ApplyMove(s, b, move), b, move);
    case Tick(ms) =>
  }

  lemma TakeApart(s: State, a: nat, i: nat, fiber: nat)
    requires !Clash(s) && MoveEnabled(s, a, DoTake(i, fiber)) && QueuedOnce(s, fiber)
    ensures !Clash(Take(s, a, i, fiber))
  {
    var t := Take(s, a, i, fiber);
    forall b | 0 <= b < |s.actors| ensures !HasFiber(s.actors[b], fiber) {
      if s.queue[i].Resume? {
        assert Resumes(s.queue[i], fiber);
      }
    }
    forall b, c | 0 <= b < c < |t.actors| ensures !Clashing(t.actors[b], t.actors[c]) {
      assert !Clashing(s.actors[b], s.actors[c]);
    }
  }

  /** No coroutine is taken twice in a run in which it never has a second entry while one is queued or
      taken.  Being queued while it runs is no second entry: that is what the test for running is for. */
  lemma {:induction false} NoClash(states: seq<State>, steps: seq<Step>, i: nat)
    requires IsRun(states, steps) && i < |states|
    requires forall j, fiber: nat :: 0 <= j < i ==> QueuedOnce(states[j], fiber)
    ensures !Clash(states[i])
  {
    hide Enabled, Apply, QueuedOnce;
    if i > 0 {
      NoClash(states, steps, i - 1);
      var s, step := states[i - 1], steps[i - 1];
      if step.Loop? && step.move.DoTake? {
        assert QueuedOnce(s, step.move.fiber);
        TakeStep(s, step);
      } else {
        StepGivesNone(s, step);
        StillApart(s, states[i]);
      }
    }
  }

  lemma TakeStep(s: State, step: Step)
    requires Enabled(s, step) && step.Loop? && step.move.DoTake? && !Clash(s) && QueuedOnce(s, step.move.fiber)
    ensures !Clash(Apply(s, step))
  {
    hide Clash, QueuedOnce;
    TakeApart(s, step.a, step.move.i, step.move.fiber);
  }

  /** Nothing more is asked than is needed: where a coroutine that does not run has a second entry
      besides one that is taken, a free worker clashes by its next step. */
  lemma SecondEntryClashes(s: State, a: nat, b: nat, i: nat)
    requires a < |s.actors| && s.actors[a].pc.Taken? && AtLoop(s, b) && s.actors[b].pc.Fetch?
    requires i < |s.queue| && Resumes(s.queue[i], s.actors[a].pc.fiber) && Eligible(s, b, s.queue[i])
    requires forall j :: 0 <= j < i ==> !Eligible(s, b, s.queue[j])
    ensures var step := Loop(b, DoTake(i, s.actors[a].pc.fiber)); Enabled(s, step) && Clash(Apply(s, step))
  {
    var t := Take(s, b, i, s.actors[a].pc.fiber);
    assert Clashing(t.actors[if a < b then a else b], t.actors[if a < b then b else a]);
  }

  // ----- both directions of a descriptor wake the same coroutine

  const READING := Resume(0, 7, None)
  const WRITING := Resume(1, 7, None)

  function Scene(first: Pc, second: Pc, queue: seq<Task>, tokens: nat, place: seq<Place>): State {
    State([Actor(first, {}, []), Actor(second, {}, []), Actor(Outside, {}, [])], queue, tokens, 2, false, false,
          map[], 0, map[], 0, 0, place, {}, false, false)
  }

  function Posting(s: State, todo: seq<Micro>): State
    requires |s.actors| == 3
  {
    s.(actors := s.actors[2 := Actor(Outside, {}, todo)])
  }

  function S0(): State {
    Scene(Fetch, Fetch, [], 0, [])
  }

  function S1(): State {
    Posting(Scene(Fetch, Fetch, [], 0, [Owed(2)]), [Schedule(READING)])
  }

  function S2(): State {
    Posting(Scene(Fetch, Fetch, [READING], 0, [Queued]), [Tickle])
  }

  function S3(): State {
    Scene(Fetch, Fetch, [READING], 1, [Queued])
  }

  function S4(): State {
    Posting(Scene(Fetch, Fetch, [READING], 1, [Queued, Owed(2)]), [Schedule(WRITING)])
  }

  function S5(): State {
    Posting(Scene(Fetch, Fetch, [READING, WRITING], 1, [Queued, Queued]), [Tickle])
  }

  function S6(): State {
    Scene(Fetch, Fetch, [READING, WRITING], 2, [Queued, Queued])
  }

  function S7(): State {
    Scene(Taken(7, false), Fetch, [WRITING], 2, [Started, Queued])
  }

  function S8(): State {
    Scene(Taken(7, false), Taken(7, false), [], 2, [Started, Started])
  }

  function S9(): State {
    Scene(Running(7, false), Taken(7, false), [], 2, [Started, Started])
  }

  lemma OnePush(task: Task)
    ensures [Schedule(task)][0 := Tickle] == [Tickle] && [Tickle][1..] == []
  {
  }

  lemma FirstPost()
    ensures Enabled(S0(), Begin(2, DoPost(READING))) && Apply(S0(), Begin(2, DoPost(READING))) == S1()
    ensures Enabled(S1(), Continue(2)) && Apply(S1(), Continue(2)) == S2()
    ensures Enabled(S2(), Continue(2)) && Apply(S2(), Continue(2)) == S3()
  {
    OnePush(READING);
    assert S1().actors[2 := Actor(Outside, {}, [Tickle])] == S2().actors;
    assert S2().actors[2 := Actor(Outside, {}, [])] == S3().actors;
    assert Moved([Owed(2)], {0}, Queued) == [Queued];
  }

  lemma SecondPost()
    ensures Enabled(S3(), Begin(2, DoPost(WRITING))) && Apply(S3(), Begin(2, DoPost(WRITING))) == S4()
    ensures Enabled(S4(), Continue(2)) && Apply(S4(), Continue(2)) == S5()
    ensures Enabled(S5(), Continue(2)) && Apply(S5(), Continue(2)) == S6()
  {
    OnePush(WRITING);
    assert S4().actors[2 := Actor(Outside, {}, [Tickle])] == S5().actors;
    assert S5().actors[2 := Actor(Outside, {}, [])] == S6().actors;
    assert Moved([Queued, Owed(2)], {1}, Queued) == [Queued, Queued];
  }

  lemma FirstTakes()
    ensures Enabled(S6(), Loop(0, DoTake(0, 7))) && Apply(S6(), Loop(0, DoTake(0, 7))) == S7()
  {
    assert S6().queue[1..] == [WRITING];
    assert S6().actors[0 := Actor(Taken(7, false), {}, [])] == S7().actors;
  }

  lemma SecondTakes()
    ensures Enabled(S7(), Loop(1, DoTake(0, 7))) && Apply(S7(), Loop(1, DoTake(0, 7))) == S8()
  {
    assert S7().queue[1..] == [];
    assert S7().actors[1 := Actor(Taken(7, false), {}, [])] == S8().actors;
  }

  lemma FirstStarts()
    ensures Enabled(S8(), Loop(0, DoStart)) && Apply(S8(), Loop(0, DoStart)) == S9()
  {
    assert S8().actors[0 := Actor(Running(7, false), {}, [])] == S9().actors;
  }

  lemma Begins()
    ensures Initial(S0())
  {
    assert S0().actors[0].pc.Fetch?;
  }

  lemma SecondFails()
    ensures Clash(S8()) && Clash(S9())
    ensures S9().actors[1].pc.Taken? && Executing(S9(), S9().actors[1].pc.fiber) && !Enabled(S9(), Loop(1, DoStart))
  {
    assert Clashing(S8().actors[0], S8().actors[1]) && Clashing(S9().actors[0], S9().actors[1]);
    assert S9().actors[0].pc.Running? && S9().actors[0].pc.fiber == 7;
  }

  /** A run in which two workers take one coroutine; when the first has resumed it, what resume()
      asserts does not hold for the second. */
  lemma TakenTwice() returns (states: seq<State>, steps: seq<Step>)
    ensures IsRun(states, steps) && |states| == |steps| + 1
    ensures var s := states[|steps|];
            Clash(s) && s.actors[1].pc.Taken? && Executing(s, s.actors[1].pc.fiber)
  {
    hide IsRun, Initial, Enabled, Apply, S0, S1, S2, S3, S4, S5, S6, S7, S8, S9;
    Begins();
    FirstPost();
    SecondPost();
    FirstTakes();
    SecondTakes();
    FirstStarts();
    SecondFails();
    states, steps := [S0()], [];
    assert IsRun(states, steps) by { NoStep(S0()); }
    states, steps := OneMore(states, steps, Begin(2, DoPost(READING)));
    states, steps := OneMore(states, steps, Continue(2));
    states, steps := OneMore(states, steps, Continue(2));
    states, steps := OneMore(states, steps, Begin(2, DoPost(WRITING)));
    states, steps := OneMore(states, steps, Continue(2));
    states, steps := OneMore(states, steps, Continue(2));
    states, steps := OneMore(states, steps, Loop(0, DoTake(0, 7)));
    states, steps := OneMore(states, steps, Loop(1, DoTake(0, 7)));
    states, steps := OneMore(states, steps, Loop(0, DoStart));
  }

  lemma NoStep(s: State)
    requires Initial(s)
    ensures IsRun([s], [])
  {
    hide Initial;
  }
}
