/** What the pool does for its users: a connection is given up only for a cause, an idle one is used
    before a new one is opened, and a new one is opened whenever there is room. */
module PoolFates {
  import opened ConnectionPool

  // ----- where a step takes a connection

  /** A valid idle connection is leased, a valid returned one becomes idle; what is discarded waits for
      its delete. */
  predicate Fate(s: State, step: Step, c: nat, to: Place)
    requires Enabled(s, step) && c < |s.place|
  {
    var thread := s.threads[step.t];
    match step
    case Examine(t, valid) => to == if c != s.idle[0] then s.place[c] else if valid then Leased else Doomed(t)
    case Delete(_) => to == if c == thread.doomed[0] then Deleted else s.place[c]
    case Release(t, d) => to == if c == d then Returning(t) else s.place[c]
    case Judge(t, valid) => to == if c == thread.connection && !valid then Doomed(t) else s.place[c]
    case PushIdle(t, throws) => to == if c != thread.connection then s.place[c] else if throws then Doomed(t) else Idle
    case Destroy(t) => to == if s.place[c].Idle? then Doomed(t) else s.place[c]
    case ReleaseOrphan(_, d) => to == if c == d then Deleted else s.place[c]
    case _ => to == s.place[c]
  }

  lemma DestroyFate(s: State, t: nat, c: nat)
    requires Placed(s) && Enabled(s, Destroy(t)) && c < |s.place|
    ensures Fate(s, Destroy(t), c, Apply(s, Destroy(t)).place[c])
  {
    DoomAllPlaces(s.place, s.idle, t);
    assert Found(s, c);
    if c in s.idle {
      var i :| 0 <= i < |s.idle| && s.idle[i] == c;
    }
  }

  lemma StepFate(s: State, step: Step, c: nat)
    requires Placed(s) && Enabled(s, step) && c < |s.place|
    ensures c < |Apply(s, step).place| && Fate(s, step, c, Apply(s, step).place[c])
    ensures |Apply(s, step).place| == |s.place| + if step.Connected? && step.success then 1 else 0
  {
    hide Placed, DoomAll;
    if step.Destroy? {
      DestroyFate(s, step.t, c);
    }
  }

  /** The idle connections wait in a queue. */
  predicate IdleAfter(s: State, step: Step, r: State)
    requires Enabled(s, step)
  {
    match step
    case Examine(_, _) => r.idle == s.idle[1..]
    case PushIdle(t, throws) => r.idle == if throws then s.idle else s.idle + [s.threads[t].connection]
    case Destroy(_) => r.idle == []
    case _ => r.idle == s.idle
  }

  lemma StepIdle(s: State, step: Step)
    requires Enabled(s, step)
    ensures IdleAfter(s, step, Apply(s, step))
  {
    hide DoomAll;
  }

  // ----- given up only for a cause

  /** The connection is found expired, dropped or closing, cannot be stored, or the pool is gone. */
  predicate Cause(s: State, step: Step, c: nat) {
    && step.t < |s.threads|
    && match step
       case Examine(_, valid) => !valid && s.idle != [] && s.idle[0] == c
       case Judge(t, valid) => !valid && s.threads[t].Releasing? && s.threads[t].connection == c
       case PushIdle(t, throws) => throws && s.threads[t].Pushing? && s.threads[t].connection == c
       case Destroy(_) => c < |s.place| && s.place[c].Idle?
       case ReleaseOrphan(_, d) => d == c
       case _ => false
  }

  predicate GivenUp(place: Place) {
    place.Doomed? || place.Deleted?
  }

  lemma GivenUpNow(s: State, step: Step, c: nat)
    requires Placed(s) && Enabled(s, step) && c < |s.place|
    requires !GivenUp(s.place[c]) && GivenUp(Apply(s, step).place[c])
    ensures Cause(s, step, c)
  {
    hide Apply;
    StepFate(s, step, c);
    if step.Delete? {
      DoomedFirst(s, step.t);
    }
  }

  lemma DoomedFirst(s: State, t: nat)
    requires Placed(s) && Enabled(s, Delete(t))
    ensures s.place[s.threads[t].doomed[0]] == Doomed(t)
  {
    assert ThreadRecorded(s, t);
  }

  lemma NewLeased(s: State, step: Step, c: nat)
    requires Enabled(s, step) && |s.place| <= c < |Apply(s, step).place|
    ensures Apply(s, step).place[c].Leased?
  {
    hide DoomAll;
  }

  lemma {:induction false} GivenUpForCause(states: seq<State>, steps: seq<Step>, i: nat, c: nat) returns (m: nat)
    requires IsRun(states, steps) && i < |states| && c < |states[i].place| && GivenUp(states[i].place[c])
    ensures m < i && Cause(states[m], steps[m], c)
  {
    hide Placed, Initial, Enabled, Apply, Cause, GivenUp;
    if i == 0 {
      assert states[0].place == [] by { NothingOpened(states[0]); }
    }
    var s := states[i - 1];
    PlacedOverRun(states, steps, i - 1);
    if c < |s.place| {
      if GivenUp(s.place[c]) {
        m := GivenUpForCause(states, steps, i - 1, c);
      } else {
        GivenUpNow(s, steps[i - 1], c);
        m := i - 1;
      }
    } else {
      NewLeased(s, steps[i - 1], c);
      assert !GivenUp(Leased) by { LeasedStays(); }
      assert false;
    }
  }

  lemma NothingOpened(s: State)
    requires Initial(s)
    ensures s.place == []
  {
  }

  lemma LeasedStays()
    ensures !GivenUp(Leased)
  {
  }

  // ----- idle ones first

  predicate FoundEmpty(thread: Thread) {
    thread.Deciding? || thread.Reserving?
  }

  predicate EmptyWhileDeciding(s: State) {
    Locked(s) && forall t :: 0 <= t < |s.threads| && FoundEmpty(s.threads[t]) ==> s.idle == []
  }

  lemma StepEmpty(s: State, step: Step)
    requires EmptyWhileDeciding(s) && Enabled(s, step)
    ensures EmptyWhileDeciding(Apply(s, step))
  {
    hide DoomAll, Locked, Apply;
    LockedAfter(s, step);
    StepIdle(s, step);
    var r := Apply(s, step);
    assert r.threads == s.threads[step.t := r.threads[step.t]] by { OneThread(s, step); }
    OwnEmpty(s, step);
    forall t | 0 <= t < |r.threads| && FoundEmpty(r.threads[t]) ensures r.idle == [] {
      if t != step.t {
        assert FoundEmpty(s.threads[t]);
        OthersEmpty(s, step, t);
      }
    }
  }

  lemma OneThread(s: State, step: Step)
    requires Enabled(s, step)
    ensures var r := Apply(s, step);
            |r.threads| == |s.threads| && r.threads == s.threads[step.t := r.threads[step.t]]
  {
    hide DoomAll;
  }

  /** The thread that finds the list empty. */
  lemma OwnEmpty(s: State, step: Step)
    requires EmptyWhileDeciding(s) && Enabled(s, step)
    ensures step.t < |Apply(s, step).threads|
    ensures FoundEmpty(Apply(s, step).threads[step.t]) ==> Apply(s, step).idle == []
  {
    hide DoomAll, Locked;
  }

  /** While one thread has found it empty no other can store a connection. */
  lemma OthersEmpty(s: State, step: Step, t: nat)
    requires EmptyWhileDeciding(s) && Enabled(s, step) && t < |s.threads| && FoundEmpty(s.threads[t])
    ensures Apply(s, step).idle == []
  {
    hide DoomAll, Locked;
    LockedBy(s, t);
  }

  lemma {:induction false} EmptyOverRun(states: seq<State>, steps: seq<Step>, i: nat)
    requires IsRun(states, steps) && i < |states|
    ensures EmptyWhileDeciding(states[i])
  {
    hide Initial, Enabled, Apply, EmptyWhileDeciding;
    if i == 0 {
      InitialEmpty(states[0]);
    } else {
      EmptyOverRun(states, steps, i - 1);
      StepEmpty(states[i - 1], steps[i - 1]);
    }
  }

  lemma InitialEmpty(s: State)
    requires Initial(s)
    ensures EmptyWhileDeciding(s)
  {
  }

  /** No connection is opened, and none refused, while one is idle. */
  lemma IdleFirst(states: seq<State>, steps: seq<Step>, i: nat)
    requires IsRun(states, steps) && i < |steps| && steps[i].Reserve?
    ensures states[i].idle == []
  {
    hide Initial, Locked;
    EmptyOverRun(states, steps, i);
    assert FoundEmpty(states[i].threads[steps[i].t]);
  }

  /** And one is opened exactly when there is room, where the counter cannot fill up: room among the
      connections and the discarded ones that others have not subtracted yet. */
  lemma RoomTaken(states: seq<State>, steps: seq<Step>, i: nat)
    requires IsRun(states, steps) && i < |steps| && steps[i].Load?
    requires !CanFill(states[0].max, |states[0].threads|)
    ensures var s, t := states[i], steps[i].t;
            && t < |s.threads| == |states[i + 1].threads| && s.threads[t].Deciding? && s.alive
            && states[i + 1].threads[t] ==
                 Reserving(s.threads[t].doomed,
                           Live(s) + Debts(s.threads) - |s.threads[t].doomed| < states[0].max)
  {
    assert states[0].max < WORD by { LimitInRange(states[0]); }
    hide Live, Debts, Initial, Locked, CanFill;
    var s, t := states[i], steps[i].t;
    hide Enabled, Apply, CanWrap, Placed, Bounded;
    NoWrap(states[0].max, |states[0].threads|);
    CapacityKept(states, steps, i);
    RunBounded(states, steps, i);
    Fits(s);
    EmptyOverRun(states, steps, i);
    LoadResult(s, t);
  }

  lemma LoadResult(s: State, t: nat)
    requires EmptyWhileDeciding(s) && Enabled(s, Load(t))
    requires s.alive ==> s.total == Live(s) + Debts(s.threads) < WORD
    ensures var r := Apply(s, Load(t));
            && |r.threads| == |s.threads| && s.alive
            && r.threads[t] ==
                 Reserving(s.threads[t].doomed, Live(s) + Debts(s.threads) - |s.threads[t].doomed| < s.max)
  {
    hide Live, Debts, Locked;
    LockedBy(s, t);
    ThreadUpdate(s.threads, t, Out);
  }

  lemma LimitInRange(s: State)
    requires Initial(s)
    ensures s.max < WORD
  {
  }

  lemma NoWrap(max: nat, threads: nat)
    requires max < WORD && !CanFill(max, threads)
    ensures !CanWrap(max, threads)
  {
  }

  lemma Fits(s: State)
    requires Bounded(s) && !CanFill(s.max, |s.threads|)
    ensures Live(s) + Debts(s.threads) < WORD
  {
    hide Live, Debts, Bounded, CanFill;
    UnitsFit(s);
  }
}
