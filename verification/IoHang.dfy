/** How stop() can fail to return.  While a timer is active, one worker drains the tokens that stop()
    wrote for all of them, finding something left each time; a callback that runs on the other worker
    then cancels the timer, which wakes nobody, and that worker blocks. */
module IoHang {
  import opened Wrappers
  import opened IoMachine
  import opened IoAlone
  import opened IoStop

  const TIMER := Timing(1, 1, false)

  const CALL := Callback(0, None)

  /** Workers 0 and 1 at the given places, the others looking for a task, and one thread outside. */
  function Threads(pc0: Pc, pc1: Pc, todo: seq<Micro>, workers: nat): (r: seq<Actor>)
    requires workers >= 2
    ensures |r| == workers + 1
  {
    seq(workers + 1, i =>
      if i == 0 then Actor(pc0, {}, []) else if i == 1 then Actor(pc1, {}, [])
      else if i < workers then Actor(Fetch, {}, []) else Actor(Outside, {}, todo))
  }

  lemma NextThreads(pc0: Pc, pc1: Pc, todo: seq<Micro>, workers: nat)
    requires workers >= 2
    ensures forall pc :: Threads(pc0, pc1, todo, workers)[0 := Actor(pc, {}, [])] == Threads(pc, pc1, todo, workers)
    ensures forall pc :: Threads(pc0, pc1, todo, workers)[1 := Actor(pc, {}, [])] == Threads(pc0, pc, todo, workers)
    ensures forall more :: Threads(pc0, pc1, todo, workers)[workers := Actor(Outside, {}, more)] ==
                             Threads(pc0, pc1, more, workers)
  {
    forall pc ensures Threads(pc0, pc1, todo, workers)[0 := Actor(pc, {}, [])] == Threads(pc, pc1, todo, workers) {
    }
    forall pc ensures Threads(pc0, pc1, todo, workers)[1 := Actor(pc, {}, [])] == Threads(pc0, pc, todo, workers) {
    }
    forall more
      ensures Threads(pc0, pc1, todo, workers)[workers := Actor(Outside, {}, more)] ==
                Threads(pc0, pc1, more, workers)
    {
    }
  }

  /** Before the timer is set: worker 0 on its way to block. */
  function Early(pc0: Pc, workers: nat, wakeCount: nat): State
    requires workers >= 2
  {
    State(Threads(pc0, Fetch, [], workers), [], 0, wakeCount, false, false, map[], 0, map[], 0, 0, [], {}, false, false)
  }

  /** The timer is set, and `place` tells how far the callback has come. */
  function Later(
      pc0: Pc, pc1: Pc, todo: seq<Micro>, queue: seq<Task>, tokens: nat, stopping: bool, place: seq<Place>,
      workers: nat, wakeCount: nat): State
    requires workers >= 2
  {
    State(Threads(pc0, pc1, todo, workers), queue, tokens, wakeCount, stopping, false, map[], 0, map[0 := TIMER], 1, 0,
          place, {}, false, false)
  }

  /** Its callback runs on worker 1, and stop() has been called. */
  function Stopped(pc0: Pc, tokens: nat, workers: nat, wakeCount: nat): State
    requires workers >= 2
  {
    Later(pc0, Running(0, false), [], [], tokens, true, [Started], workers, wakeCount)
  }

  /** The timer is cancelled. */
  function Cancelled(pc0: Pc, pc1: Pc, workers: nat, wakeCount: nat): State
    requires workers >= 2
  {
    Stopped(pc0, 0, workers, wakeCount)
      .(actors := Threads(pc0, pc1, [], workers), timers := map[])
  }

  function Below(n: nat): (r: set<nat>)
    ensures |r| == n && forall a: nat :: a in r <==> a < n
  {
    if n == 0 then {}
    else
      var rest := Below(n - 1);
      assert n - 1 !in rest;
      rest + {n - 1}
  }

  lemma Begins(workers: nat, wakeCount: nat)
    requires workers >= 2 && wakeCount > 0
    ensures Reached(Early(Fetch, workers, wakeCount), workers, wakeCount)
  {
    var s := Early(Fetch, workers, wakeCount);
    assert s.actors[0].pc.Fetch?;
    assert Workers(s.actors) == Below(workers);
    assert TrueRun([s], []);
  }

  /** Worker 0 finds nothing and blocks. */
  lemma Blocks(workers: nat, wakeCount: nat)
    requires workers >= 2 && Reached(Early(Fetch, workers, wakeCount), workers, wakeCount)
    ensures Reached(Early(Waiting(None), workers, wakeCount), workers, wakeCount)
  {
    hide Reached;
    NextThreads(Fetch, Fetch, [], workers);
    NextThreads(Sample, Fetch, [], workers);
    StepReached(Early(Fetch, workers, wakeCount), Loop(0, DoFindNothing), workers, wakeCount);
    assert Apply(Early(Fetch, workers, wakeCount), Loop(0, DoFindNothing)) == Early(Sample, workers, wakeCount);
    StepReached(Early(Sample, workers, wakeCount), Loop(0, DoBlock(None)), workers, wakeCount);
    assert Apply(Early(Sample, workers, wakeCount), Loop(0, DoBlock(None))) == Early(Waiting(None), workers, wakeCount);
  }

  lemma SetsTimer(workers: nat, wakeCount: nat)
    requires workers >= 2 && Reached(Early(Waiting(None), workers, wakeCount), workers, wakeCount)
    ensures Reached(Later(Waiting(None), Fetch, [], [], 1, false, [], workers, wakeCount), workers, wakeCount)
  {
    hide Reached;
    NextThreads(Waiting(None), Fetch, [], workers);
    NextThreads(Waiting(None), Fetch, [Tickle], workers);
    var s := Early(Waiting(None), workers, wakeCount);
    var t := Later(Waiting(None), Fetch, [Tickle], [], 0, false, [], workers, wakeCount);
    StepReached(s, Begin(workers, DoSetTimer(0, TIMER)), workers, wakeCount);
    assert Remaining(s.timers, 0) == map[] && AtFront(map[], 0, 1);
    assert Apply(s, Begin(workers, DoSetTimer(0, TIMER))) == t;
    StepReached(t, Continue(workers), workers, wakeCount);
    assert [Tickle][1..] == [];
    assert Apply(t, Continue(workers)) == Later(Waiting(None), Fetch, [], [], 1, false, [], workers, wakeCount);
  }

  lemma Posts(workers: nat, wakeCount: nat)
    requires workers >= 2
    requires Reached(Later(Waiting(None), Fetch, [], [], 1, false, [], workers, wakeCount), workers, wakeCount)
    ensures Reached(Later(Waiting(None), Fetch, [], [CALL], 2, false, [Queued], workers, wakeCount), workers, wakeCount)
  {
    hide Reached;
    NextThreads(Waiting(None), Fetch, [], workers);
    NextThreads(Waiting(None), Fetch, [Schedule(CALL)], workers);
    NextThreads(Waiting(None), Fetch, [Tickle], workers);
    var s := Later(Waiting(None), Fetch, [], [], 1, false, [], workers, wakeCount);
    var t := Later(Waiting(None), Fetch, [Schedule(CALL)], [], 1, false, [Owed(workers)], workers, wakeCount);
    var u := Later(Waiting(None), Fetch, [Tickle], [CALL], 1, false, [Queued], workers, wakeCount);
    StepReached(s, Begin(workers, DoPost(CALL)), workers, wakeCount);
    assert Apply(s, Begin(workers, DoPost(CALL))) == t;
    StepReached(t, Continue(workers), workers, wakeCount);
    assert [Schedule(CALL)][0 := Tickle] == [Tickle] && Moved([Owed(workers)], {0}, Queued) == [Queued];
    assert Apply(t, Continue(workers)) == u;
    StepReached(u, Continue(workers), workers, wakeCount);
    assert [Tickle][1..] == [];
    assert Apply(u, Continue(workers)) ==
           Later(Waiting(None), Fetch, [], [CALL], 2, false, [Queued], workers, wakeCount);
  }

  lemma Takes(workers: nat, wakeCount: nat)
    requires workers >= 2
    requires Reached(Later(Waiting(None), Fetch, [], [CALL], 2, false, [Queued], workers, wakeCount),
                     workers, wakeCount)
    ensures Reached(Later(Waiting(None), Running(0, false), [], [], 2, false, [Started], workers, wakeCount),
                    workers, wakeCount)
  {
    hide Reached;
    NextThreads(Waiting(None), Fetch, [], workers);
    NextThreads(Waiting(None), Taken(0, false), [], workers);
    var s := Later(Waiting(None), Fetch, [], [CALL], 2, false, [Queued], workers, wakeCount);
    var t := Later(Waiting(None), Taken(0, false), [], [], 2, false, [Started], workers, wakeCount);
    assert s.actors[1].pc.Fetch? && s.queue[0] == CALL && s.queue[1..] == [];
    StepReached(s, Loop(1, DoTake(0, 0)), workers, wakeCount);
    assert Moved([Queued], {0}, Started) == [Started];
    assert Apply(s, Loop(1, DoTake(0, 0))) == t;
    assert t.actors[1].pc.Taken?;
    StepReached(t, Loop(1, DoStart), workers, wakeCount);
    assert Apply(t, Loop(1, DoStart)) ==
           Later(Waiting(None), Running(0, false), [], [], 2, false, [Started], workers, wakeCount);
  }

  lemma Stops(workers: nat, wakeCount: nat)
    requires workers >= 2
    requires Reached(Later(Waiting(None), Running(0, false), [], [], 2, false, [Started], workers, wakeCount),
                     workers, wakeCount)
    ensures Reached(Stopped(Waiting(None), 2 + wakeCount, workers, wakeCount), workers, wakeCount)
  {
    hide Reached;
    NextThreads(Waiting(None), Running(0, false), [], workers);
    NextThreads(Waiting(None), Running(0, false), [Tickle], workers);
    var s := Later(Waiting(None), Running(0, false), [], [], 2, false, [Started], workers, wakeCount);
    var t := Later(Waiting(None), Running(0, false), [Tickle], [], 2, true, [Started], workers, wakeCount);
    StepReached(s, Begin(workers, DoStop), workers, wakeCount);
    assert Apply(s, Begin(workers, DoStop)) == t;
    StepReached(t, Continue(workers), workers, wakeCount);
    assert [Tickle][1..] == [];
    assert Apply(t, Continue(workers)) == Stopped(Waiting(None), 2 + wakeCount, workers, wakeCount);
  }

  /** A move of worker 0 that changes its own place and drains at most a token. */
  lemma Worker0(pc: Pc, next: Pc, tokens: nat, left: nat, move: Move, workers: nat, wakeCount: nat)
    requires workers >= 2 && Reached(Stopped(pc, tokens, workers, wakeCount), workers, wakeCount)
    requires var s := Stopped(pc, tokens, workers, wakeCount);
             && MoveEnabled(s, 0, move) && KernelTruth(s, Loop(0, move))
             && ApplyMove(s, 0, move) == With(s, 0, Actor(next, {}, [])).(tokens := left)
    ensures Reached(Stopped(next, left, workers, wakeCount), workers, wakeCount)
  {
    hide Reached, MoveEnabled, ApplyMove;
    NextThreads(pc, Running(0, false), [], workers);
    StepReached(Stopped(pc, tokens, workers, wakeCount), Loop(0, move), workers, wakeCount);
  }

  /** Worker 0 drains a token, sees the timer, finds no task and blocks until the timer is due. */
  lemma DrainsOne(deadline: Option<nat>, tokens: nat, workers: nat, wakeCount: nat)
    requires workers >= 2 && tokens > 0
    requires Reached(Stopped(Waiting(deadline), tokens, workers, wakeCount), workers, wakeCount)
    ensures Reached(Stopped(Waiting(Some(1)), tokens - 1, workers, wakeCount), workers, wakeCount)
  {
    hide Reached;
    var left := tokens - 1;
    Worker0(Waiting(deadline), Handle([Tickled], false), tokens, tokens, DoWake([Tickled]), workers, wakeCount);
    assert [Tickled][1..] == [];
    Worker0(Handle([Tickled], false), Handle([], true), tokens, left, DoHandle, workers, wakeCount);
    Inspects(left, workers, wakeCount);
    SeesTimer(left, workers, wakeCount);
    BlocksAgain(left, workers, wakeCount);
  }

  lemma Inspects(tokens: nat, workers: nat, wakeCount: nat)
    requires workers >= 2 && Reached(Stopped(Handle([], true), tokens, workers, wakeCount), workers, wakeCount)
    ensures Reached(Stopped(Inspect(Flag, true), tokens, workers, wakeCount), workers, wakeCount)
  {
    hide Reached;
    var s := Stopped(Handle([], true), tokens, workers, wakeCount);
    assert Due(s.timers, 0) == {} && Elements([]) == {} && Advanced(s.timers, 0) == s.timers;
    assert NewCallbacks(|s.place|, 0) == [] && Calls([]) == [] && s.place + seq(0, i => Owed(0)) == s.place;
    Worker0(Handle([], true), Inspect(Flag, true), tokens, tokens, DoExpire(0, []), workers, wakeCount);
  }

  lemma SeesTimer(tokens: nat, workers: nat, wakeCount: nat)
    requires workers >= 2 && Reached(Stopped(Inspect(Flag, true), tokens, workers, wakeCount), workers, wakeCount)
    ensures Reached(Stopped(Fetch, tokens, workers, wakeCount), workers, wakeCount)
  {
    hide Reached;
    Worker0(Inspect(Flag, true), Inspect(Force, true), tokens, tokens, DoInspect, workers, wakeCount);
    Worker0(Inspect(Force, true), Inspect(Pending, true), tokens, tokens, DoInspect, workers, wakeCount);
    Worker0(Inspect(Pending, true), Inspect(Timers, true), tokens, tokens, DoInspect, workers, wakeCount);
    assert 0 in Stopped(Inspect(Timers, true), tokens, workers, wakeCount).timers;
    Worker0(Inspect(Timers, true), Fetch, tokens, tokens, DoInspect, workers, wakeCount);
  }

  lemma BlocksAgain(tokens: nat, workers: nat, wakeCount: nat)
    requires workers >= 2 && Reached(Stopped(Fetch, tokens, workers, wakeCount), workers, wakeCount)
    ensures Reached(Stopped(Waiting(Some(1)), tokens, workers, wakeCount), workers, wakeCount)
  {
    hide Reached;
    Worker0(Fetch, Sample, tokens, tokens, DoFindNothing, workers, wakeCount);
    Worker0(Sample, Waiting(Some(1)), tokens, tokens, DoBlock(Some(0)), workers, wakeCount);
  }

  lemma {:induction false} DrainsAll(deadline: Option<nat>, tokens: nat, workers: nat, wakeCount: nat)
    requires workers >= 2 && tokens > 0
    requires Reached(Stopped(Waiting(deadline), tokens, workers, wakeCount), workers, wakeCount)
    ensures Reached(Stopped(Waiting(Some(1)), 0, workers, wakeCount), workers, wakeCount)
    decreases tokens
  {
    hide Reached;
    DrainsOne(deadline, tokens, workers, wakeCount);
    if tokens > 1 {
      DrainsAll(Some(1), tokens - 1, workers, wakeCount);
    }
  }

  /** The callback cancels the timer and ends; its worker finds nothing and blocks. */
  lemma Hangs(workers: nat, wakeCount: nat) returns (s: State)
    requires workers >= 2
    requires Reached(Stopped(Waiting(Some(1)), 0, workers, wakeCount), workers, wakeCount)
    ensures Reached(s, workers, wakeCount) && Hung(s, 1)
  {
    hide Reached;
    var pc0 := Waiting(Some(1));
    NextThreads(pc0, Running(0, false), [], workers);
    NextThreads(pc0, Fetch, [], workers);
    NextThreads(pc0, Sample, [], workers);
    var s0 := Stopped(pc0, 0, workers, wakeCount);
    StepReached(s0, Begin(1, DoCancelTimer(0)), workers, wakeCount);
    assert Remaining(s0.timers, 0) == map[];
    assert Apply(s0, Begin(1, DoCancelTimer(0))) == Cancelled(pc0, Running(0, false), workers, wakeCount);
    StepReached(Cancelled(pc0, Running(0, false), workers, wakeCount), Loop(1, DoFinish(None)), workers, wakeCount);
    assert Apply(Cancelled(pc0, Running(0, false), workers, wakeCount), Loop(1, DoFinish(None))) ==
           Cancelled(pc0, Fetch, workers, wakeCount);
    StepReached(Cancelled(pc0, Fetch, workers, wakeCount), Loop(1, DoFindNothing), workers, wakeCount);
    assert Apply(Cancelled(pc0, Fetch, workers, wakeCount), Loop(1, DoFindNothing)) ==
           Cancelled(pc0, Sample, workers, wakeCount);
    StepReached(Cancelled(pc0, Sample, workers, wakeCount), Loop(1, DoBlock(None)), workers, wakeCount);
    s := Cancelled(pc0, Waiting(None), workers, wakeCount);
    assert Apply(Cancelled(pc0, Sample, workers, wakeCount), Loop(1, DoBlock(None))) == s;
  }

  /** Exactly: a worker can hang in stop() if and only if there are two or more. */
  lemma HangExact(workers: nat, wakeCount: nat)
    requires workers > 0 && wakeCount > 0
    ensures CanHang(workers, wakeCount) <==> workers >= 2
  {
    hide Reached, Hung;
    if workers == 1 {
      OneWorkerReturns(wakeCount);
    } else {
      Begins(workers, wakeCount);
      Blocks(workers, wakeCount);
      SetsTimer(workers, wakeCount);
      Posts(workers, wakeCount);
      Takes(workers, wakeCount);
      Stops(workers, wakeCount);
      DrainsAll(None, 2 + wakeCount, workers, wakeCount);
      var s := Hangs(workers, wakeCount);
    }
  }
}
