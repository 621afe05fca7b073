/** The way past the limit of `HttpConnectionPool`.  Threads that found 1, 2, 3 and so on idle
    connections unusable have each taken a slot before they subtract what they discarded; when the
    limit and these slots make 2^32, the counter starts again at zero and the pool is filled a
    second time. */
module PoolWrapAround {
  import opened ConnectionPool

  ghost predicate Reached(s: State, max: nat, threads: nat) {
    exists states: seq<State>, steps: seq<Step> ::
      IsRun(states, steps) && states[|steps|] == s && states[0].max == max && |states[0].threads| == threads
  }

  lemma StepReached(s: State, step: Step, max: nat, threads: nat)
    requires Reached(s, max, threads) && Enabled(s, step)
    ensures Reached(Apply(s, step), max, threads)
  {
    hide Initial, Enabled, Apply;
    var states: seq<State>, steps: seq<Step> :|
      IsRun(states, steps) && states[|steps|] == s && states[0].max == max && |states[0].threads| == threads;
    var moreStates, moreSteps := states + [Apply(s, step)], steps + [step];
    forall i | 0 <= i < |moreSteps|
      ensures Enabled(moreStates[i], moreSteps[i]) && moreStates[i + 1] == Apply(moreStates[i], moreSteps[i])
    {
      if i < |steps| {
        assert moreStates[i] == states[i] && moreStates[i + 1] == states[i + 1];
      }
    }
    assert IsRun(moreStates, moreSteps);
  }

  /** Thread `w` is free, and the lock too. */
  predicate Quiet(s: State, w: nat) {
    w < |s.threads| && s.threads[w].Out? && !s.lock && s.alive && s.total < WORD
  }

  /** Thread `w` opens one more connection. */
  lemma LeaseOne(s: State, w: nat, max: nat, threads: nat)
    requires Reached(s, max, threads) && Quiet(s, w) && s.idle == [] && s.max == max
    requires s.total + 1 < WORD && s.total < max
    ensures Reached(s.(place := s.place + [Leased], total := s.total + 1), max, threads)
  {
    hide Reached;
    var s3 := SlotTaken(s, w, max, threads);
    StepReached(s3, Reserve(w), max, threads);
    var s4 := Apply(s3, Reserve(w));
    StepReached(s4, Proceed(w), max, threads);
    var s5 := Apply(s4, Proceed(w));
    StepReached(s5, Connected(w, true), max, threads);
    var s6 := Apply(s5, Connected(w, true));
    assert s6.threads == s.threads;
    assert s6 == s.(place := s.place + [Leased], total := s.total + 1);
  }

  lemma SlotTaken(s: State, w: nat, max: nat, threads: nat) returns (s3: State)
    requires Reached(s, max, threads) && Quiet(s, w) && s.idle == [] && s.max == max && s.total < max
    ensures Reached(s3, max, threads)
    ensures s3 == s.(threads := s.threads[w := Reserving([], true)], lock := true)
  {
    hide Reached;
    StepReached(s, Acquire(w), max, threads);
    var s1 := Apply(s, Acquire(w));
    StepReached(s1, Exhausted(w), max, threads);
    var s2 := Apply(s1, Exhausted(w));
    StepReached(s2, Load(w), max, threads);
    s3 := Apply(s2, Load(w));
  }

  function Leases(n: nat): (r: seq<Place>)
    ensures |r| == n
  {
    seq(n, i => Leased)
  }

  /** Thread `w` opens `n` connections. */
  lemma {:induction false} LeaseMany(s: State, w: nat, n: nat, max: nat, threads: nat)
    requires Reached(s, max, threads) && Quiet(s, w) && s.idle == [] && s.max == max && s.total + n <= max < WORD
    ensures Reached(s.(place := s.place + Leases(n), total := s.total + n), max, threads)
    decreases n
  {
    hide Reached;
    if n == 0 {
      assert s.place + Leases(0) == s.place;
      assert s == s.(place := s.place + Leases(n), total := s.total + n);
    } else {
      LeaseMany(s, w, n - 1, max, threads);
      LeaseOne(s.(place := s.place + Leases(n - 1), total := s.total + (n - 1)), w, max, threads);
      assert s.place + Leases(n - 1) + [Leased] == s.place + Leases(n);
    }
  }

  function Numbers(from: nat, count: nat): (r: seq<nat>)
    ensures |r| == count
  {
    seq(count, i requires 0 <= i < count => from + i)
  }

  /** `n` connections from `from` on are now at `p`. */
  function Marked(place: seq<Place>, from: nat, n: nat, p: Place): (r: seq<Place>)
    ensures |r| == |place|
  {
    seq(|place|, i requires 0 <= i < |place| => if from <= i < from + n then p else place[i])
  }

  predicate AllAt(place: seq<Place>, from: nat, n: nat, p: Place) {
    from + n <= |place| && forall i :: from <= i < from + n ==> place[i] == p
  }

  /** Thread `w` gives a connection back. */
  lemma ReturnOne(s: State, w: nat, c: nat, max: nat, threads: nat)
    requires Reached(s, max, threads) && Quiet(s, w) && c < |s.place| && s.place[c] == Leased
    ensures Reached(s.(place := s.place[c := Idle], idle := s.idle + [c]), max, threads)
  {
    hide Reached;
    StepReached(s, Release(w, c), max, threads);
    var s1 := Apply(s, Release(w, c));
    StepReached(s1, Judge(w, true), max, threads);
    var s2 := Apply(s1, Judge(w, true));
    StepReached(s2, PushIdle(w, false), max, threads);
    var s3 := Apply(s2, PushIdle(w, false));
    assert s3.threads == s.threads;
    assert s3.place == s.place[c := Idle];
    assert s3 == s.(place := s.place[c := Idle], idle := s.idle + [c]);
  }

  lemma {:induction false} ReturnMany(s: State, w: nat, from: nat, n: nat, max: nat, threads: nat)
    requires Reached(s, max, threads) && Quiet(s, w) && s.idle == [] && AllAt(s.place, from, n, Leased)
    ensures Reached(s.(place := Marked(s.place, from, n, Idle), idle := Numbers(from, n)), max, threads)
    decreases n
  {
    hide Reached;
    if n == 0 {
      assert Marked(s.place, from, 0, Idle) == s.place && Numbers(from, 0) == [];
      assert s == s.(place := Marked(s.place, from, n, Idle), idle := Numbers(from, n));
    } else {
      ReturnMany(s, w, from, n - 1, max, threads);
      var c := from + n - 1;
      ReturnOne(s.(place := Marked(s.place, from, n - 1, Idle), idle := Numbers(from, n - 1)), w, c, max, threads);
      assert Marked(s.place, from, n - 1, Idle)[c := Idle] == Marked(s.place, from, n, Idle);
      assert Numbers(from, n - 1) + [c] == Numbers(from, n);
    }
  }

  /** Thread `t`, inside the lock, has found the first `m` of `n` idle connections unusable. */
  function Scanned(s: State, t: nat, from: nat, n: nat, m: nat): State
    requires t < |s.threads| && m <= n
  {
    s.(threads := s.threads[t := Scanning(Numbers(from, m))], idle := Numbers(from + m, n - m), lock := true,
       place := Marked(s.place, from, m, Doomed(t)))
  }

  lemma {:induction false} DoomMany(s: State, t: nat, from: nat, n: nat, m: nat, max: nat, threads: nat)
    requires t < |s.threads| && m <= n && AllAt(s.place, from, n, Idle)
    requires Reached(Scanned(s, t, from, n, 0), max, threads)
    ensures Reached(Scanned(s, t, from, n, m), max, threads)
    decreases m
  {
    hide Reached;
    if m > 0 {
      DoomMany(s, t, from, n, m - 1, max, threads);
      var before := Scanned(s, t, from, n, m - 1);
      assert before.idle[0] == from + m - 1;
      StepReached(before, Examine(t, false), max, threads);
      assert before.idle[1..] == Numbers(from + m, n - m);
      assert Numbers(from, m - 1) + [from + m - 1] == Numbers(from, m);
      assert Marked(s.place, from, m - 1, Doomed(t))[from + m - 1 := Doomed(t)] == Marked(s.place, from, m, Doomed(t));
      assert before.threads[t := Scanning(Numbers(from, m))] == s.threads[t := Scanning(Numbers(from, m))];
      assert Apply(before, Examine(t, false)) == Scanned(s, t, from, n, m);
    }
  }

  /** Thread `t` has found `n` connections unusable and taken a slot for a new one. */
  function Raised(s: State, t: nat, from: nat, n: nat): State
    requires t < |s.threads|
  {
    s.(threads := s.threads[t := Settling(Numbers(from, n), 0, Connect)], total := (s.total + 1) % WORD,
       place := Marked(s.place, from, n, Doomed(t)))
  }

  lemma RaiseOver(s: State, t: nat, from: nat, n: nat, max: nat, threads: nat)
    requires Reached(s, max, threads) && Quiet(s, t) && s.idle == [] && AllAt(s.place, from, n, Leased)
    requires s.max == max && n <= s.total && s.total - n < max
    ensures Reached(Raised(s, t, from, n), max, threads)
  {
    hide Reached, Marked;
    ReturnMany(s, t, from, n, max, threads);
    var idle := s.(place := Marked(s.place, from, n, Idle), idle := Numbers(from, n));
    StepReached(idle, Acquire(t), max, threads);
    ScanBegins(s, t, from, n);
    DoomMany(idle, t, from, n, n, max, threads);
    var s1 := Scanned(idle, t, from, n, n);
    assert s1.idle == [];
    StepReached(s1, Exhausted(t), max, threads);
    var s2 := Apply(s1, Exhausted(t));
    StepReached(s2, Load(t), max, threads);
    var s3 := Apply(s2, Load(t));
    assert s3.threads[t] == Reserving(Numbers(from, n), true);
    StepReached(s3, Reserve(t), max, threads);
    MarkedTwice(s.place, from, n, Idle, Doomed(t));
    assert s.threads[t := s3.threads[t]] == s3.threads;
    assert Apply(s3, Reserve(t)) == Raised(s, t, from, n);
  }

  lemma ScanBegins(s: State, t: nat, from: nat, n: nat)
    requires Quiet(s, t) && AllAt(s.place, from, n, Leased)
    ensures var idle := s.(place := Marked(s.place, from, n, Idle), idle := Numbers(from, n));
            Apply(idle, Acquire(t)) == Scanned(idle, t, from, n, 0) && AllAt(idle.place, from, n, Idle)
  {
    var place := Marked(s.place, from, n, Idle);
    assert Marked(place, from, 0, Doomed(t)) == place;
    assert Numbers(from, 0) == [];
  }

  lemma MarkedTwice(place: seq<Place>, from: nat, n: nat, p: Place, q: Place)
    ensures Marked(Marked(place, from, n, p), from, n, q) == Marked(place, from, n, q)
  {
  }

  lemma {:induction false} LeasesLive(place: seq<Place>, n: nat)
    ensures LiveConnections(place + Leases(n)) == LiveConnections(place) + n
  {
    if n == 0 {
      assert place + Leases(0) == place;
    } else {
      LeasesLive(place, n - 1);
      LiveAppend(place + Leases(n - 1));
      assert place + Leases(n - 1) + [Leased] == place + Leases(n);
    }
  }

  lemma {:induction false} MarkedLive(place: seq<Place>, from: nat, n: nat, p: Place)
    requires AllAt(place, from, n, Leased) && !IsLive(p)
    ensures LiveConnections(Marked(place, from, n, p)) + n == LiveConnections(place)
  {
    if n == 0 {
      assert Marked(place, from, 0, p) == place;
    } else {
      MarkedLive(place, from, n - 1, p);
      LiveUpdate(Marked(place, from, n - 1, p), from + n - 1, p);
      assert Marked(place, from, n - 1, p)[from + n - 1 := p] == Marked(place, from, n, p);
    }
  }

  /** The first `j` threads owe 1, 2 and so on up to `j` discarded connections; all others are leased. */
  predicate Piled(s: State, max: nat, threads: nat, j: nat) {
    && |s.threads| == threads && s.max == max && !s.lock && s.alive && s.idle == []
    && s.total == (max + j) % WORD
    && (forall t :: j <= t < threads ==> s.threads[t].Out?)
    && Reservations(s.threads) == j
    && |s.place| == max && (forall i :: Triangle(j) <= i < max ==> s.place[i] == Leased)
    && LiveConnections(s.place) + Triangle(j) == max
  }

  function Fresh(max: nat, threads: nat): State {
    State(seq(threads, t => Out), false, [], 0, true, max, [])
  }

  lemma Start(max: nat, threads: nat)
    requires 0 < max < WORD
    ensures Reached(Fresh(max, threads), max, threads)
  {
    var s := Fresh(max, threads);
    assert IsRun([s], []);
  }

  lemma Filled(max: nat, threads: nat) returns (s: State)
    requires 0 < max < WORD && 0 < threads
    ensures Reached(s, max, threads) && Piled(s, max, threads, 0)
  {
    hide Reached, LiveConnections;
    var start := Fresh(max, threads);
    Start(max, threads);
    LeaseMany(start, 0, max, max, threads);
    s := start.(place := start.place + Leases(max), total := start.total + max);
    assert LiveConnections([]) == 0 by { NoConnections(); }
    LeasesLive([], max);
    NobodyCounts(s.threads);
  }

  lemma NoConnections()
    ensures LiveConnections([]) == 0
  {
  }

  lemma {:induction false} Pile(max: nat, threads: nat, j: nat) returns (s: State)
    requires 0 < max < WORD && max + j <= WORD && 0 < threads && j <= threads && Triangle(j) <= max
    ensures Reached(s, max, threads) && Piled(s, max, threads, j)
    decreases j
  {
    hide Reached, Raised;
    if j == 0 {
      s := Filled(max, threads);
    } else {
      var before := Pile(max, threads, j - 1);
      s := Raised(before, j - 1, Triangle(j - 1), j);
      RaiseOver(before, j - 1, Triangle(j - 1), j, max, threads);
      PiledMore(before, max, threads, j);
    }
  }

  lemma PiledMore(before: State, max: nat, threads: nat, j: nat)
    requires 0 < j <= threads && Triangle(j) <= max && max + j <= WORD && Piled(before, max, threads, j - 1)
    ensures Piled(Raised(before, j - 1, Triangle(j - 1), j), max, threads, j)
  {
    hide LiveConnections, Reservations, Marked;
    var from, s := Triangle(j - 1), Raised(before, j - 1, Triangle(j - 1), j);
    MarkedLive(before.place, from, j, Doomed(j - 1));
    CountsAfter(before, s, j - 1);
    MarkedBehind(before.place, from, j, Doomed(j - 1));
  }

  lemma MarkedBehind(place: seq<Place>, from: nat, n: nat, p: Place)
    ensures forall i :: from + n <= i < |place| ==> Marked(place, from, n, p)[i] == place[i]
  {
  }

  /** Full counter: it shows zero, although it stands for 2^32. */
  lemma CounterFilled(max: nat, threads: nat) returns (s: State)
    requires 0 < max < WORD && CanFill(max, threads)
    ensures Reached(s, max, threads) && Piled(s, max, threads, WORD - max)
    ensures s.alive && s.total == 0 && Live(s) > 0
  {
    hide Reached;
    TriangleIs(WORD - max);
    s := Pile(max, threads, WORD - max);
  }

  lemma LimitExceeded(max: nat, threads: nat) returns (s: State)
    requires 0 < max < WORD && CanWrap(max, threads)
    ensures Reached(s, max, threads) && Live(s) > max
  {
    hide Reached, LiveConnections;
    var w := WORD - max;
    var full := CounterFilled(max, threads);
    LeaseMany(full, w, max, max, threads);
    s := full.(place := full.place + Leases(max), total := full.total + max);
    LeasesLive(full.place, max);
    TriangleIs(w);
  }

  /** Exactly which pools stay within their limit. */
  lemma LimitExact(max: nat, threads: nat)
    requires 0 < max < WORD
    ensures CanWrap(max, threads) <==> exists s :: Reached(s, max, threads) && Live(s) > max
  {
    hide Live, CanWrap;
    if CanWrap(max, threads) {
      var s := LimitExceeded(max, threads);
    } else {
      forall s | Reached(s, max, threads) ensures Live(s) <= max {
        var states: seq<State>, steps: seq<Step> :|
          IsRun(states, steps) && states[|steps|] == s && states[0].max == max && |states[0].threads| == threads;
        CapacityKept(states, steps, |steps|);
      }
    }
  }

  /** And exactly which ones have an exact counter. */
  lemma CounterExact(max: nat, threads: nat)
    requires 0 < max < WORD
    ensures CanFill(max, threads) <==> exists s :: Reached(s, max, threads) && s.alive && s.total != Units(s)
  {
    hide Live, CanFill, Debts;
    if CanFill(max, threads) {
      var s := CounterFilled(max, threads);
    } else {
      forall s | Reached(s, max, threads) && s.alive ensures s.total == Units(s) {
        var states: seq<State>, steps: seq<Step> :|
          IsRun(states, steps) && states[|steps|] == s && states[0].max == max && |states[0].threads| == threads;
        CapacityKept(states, steps, |steps|);
      }
    }
  }

  /** No pool of at most 2^32 - 92681 connections, and none with fewer threads than its limit is
      below 2^32, can get there. */
  lemma LimitsThatHold(max: nat, threads: nat)
    requires 0 < max < WORD && (max <= WORD - 92681 || max + threads <= WORD)
    ensures !CanWrap(max, threads)
  {
    var k := WORD - max;
    if k >= 92681 {
      assert k * (k + 1) >= 92681 * (k + 1);
    }
  }
}
