/** `HttpConnectionPool`: its capacity is an atomic counter that is raised under the lock and
    lowered outside it.  Any number of threads borrow and return connections; every lock section
    is split at each access to the counter, so the bound is proved for every interleaving. */
module ConnectionPool {
  const WORD: nat := 0x1_0000_0000

  /** What becomes of a connection object.  `Returning` is in the hands of a deleter that has not
      decided yet, `Doomed` waits for its delete. */
  datatype Place = Idle | Leased | Returning(thread: nat) | Doomed(thread: nat) | Deleted

  datatype Next = Return | Connect

  /** Where a thread is in getConnection, releaseConnection or the destructor. */
  datatype Thread =
    | Out
    | Scanning(doomed: seq<nat>)
    | Deciding(doomed: seq<nat>)
    | Reserving(doomed: seq<nat>, ok: bool)
    | Settling(doomed: seq<nat>, owed: nat, next: Next)
    | Connecting
    | Releasing(connection: nat)
    | Pushing(connection: nat)

  /** `total` is the 32-bit counter.  Connections are numbered in the order they are opened. */
  datatype State = State(
    threads: seq<Thread>,
    lock: bool,
    idle: seq<nat>,
    total: nat,
    alive: bool,
    max: nat,
    place: seq<Place>)

  datatype Step =
    | Acquire(t: nat)
    | Examine(t: nat, valid: bool)
    | Exhausted(t: nat)
    | Load(t: nat)
    | Reserve(t: nat)
    | Delete(t: nat)
    | Subtract(t: nat)
    | Proceed(t: nat)
    | Connected(t: nat, success: bool)
    | Release(t: nat, connection: nat)
    | Judge(t: nat, valid: bool)
    | PushIdle(t: nat, throws: bool)
    | Destroy(t: nat)
    | ReleaseOrphan(t: nat, connection: nat)

  function With(s: State, t: nat, thread: Thread): State
    requires t < |s.threads|
  {
    s.(threads := s.threads[t := thread])
  }

  predicate Enabled(s: State, step: Step) {
    && step.t < |s.threads|
    && var thread := s.threads[step.t];
       match step
       case Acquire(_) => thread.Out? && s.alive && !s.lock
       case Examine(_, _) => thread.Scanning? && s.idle != [] && s.idle[0] < |s.place|
       case Exhausted(_) => thread.Scanning? && s.idle == []
       case Load(_) => thread.Deciding?
       case Reserve(_) => thread.Reserving?
       case Delete(_) => thread.Settling? && thread.doomed != [] && thread.doomed[0] < |s.place|
       case Subtract(_) => thread.Settling? && thread.doomed == [] && thread.owed > 0
       case Proceed(_) => thread.Settling? && thread.doomed == [] && thread.owed == 0
       case Connected(_, _) => thread.Connecting?
       case Release(_, c) => thread.Out? && s.alive && c < |s.place| && s.place[c].Leased?
       case Judge(_, _) => thread.Releasing? && thread.connection < |s.place|
       case PushIdle(_, _) => thread.Pushing? && !s.lock && thread.connection < |s.place|
       case Destroy(_) => s.alive && forall u :: 0 <= u < |s.threads| ==> s.threads[u].Out?
       case ReleaseOrphan(_, c) => thread.Out? && !s.alive && c < |s.place| && s.place[c].Leased?
  }

  /** The destructor takes the whole idle list. */
  function DoomAll(place: seq<Place>, idle: seq<nat>, t: nat): (r: seq<Place>)
    ensures |r| == |place|
    decreases |idle|
  {
    if idle == [] then place
    else if idle[0] < |place| then DoomAll(place[idle[0] := Doomed(t)], idle[1..], t)
    else DoomAll(place, idle[1..], t)
  }

  function Apply(s: State, step: Step): State
    requires Enabled(s, step)
  {
    var t := step.t;
    var thread := s.threads[t];
    match step
    case Acquire(_) => With(s, t, Scanning([])).(lock := true)
    case Examine(_, valid) =>
      var c := s.idle[0];
      if valid then
        With(s, t, Settling(thread.doomed, 0, Return)).(
          lock := false, idle := s.idle[1..], place := s.place[c := Leased])
      else
        With(s, t, Scanning(thread.doomed + [c])).(idle := s.idle[1..], place := s.place[c := Doomed(t)])
    case Exhausted(_) => With(s, t, Deciding(thread.doomed))
    case Load(_) =>
      With(s, t, Reserving(thread.doomed, (s.total - |thread.doomed|) % WORD < s.max))
    case Reserve(_) =>
      if thread.ok then
        With(s, t, Settling(thread.doomed, 0, Connect)).(lock := false, total := (s.total + 1) % WORD)
      else
        With(s, t, Settling(thread.doomed, 0, Return)).(lock := false)
    case Delete(_) =>
      With(s, t, thread.(doomed := thread.doomed[1..], owed := thread.owed + 1))
        .(place := s.place[thread.doomed[0] := Deleted])
    case Subtract(_) => With(s, t, thread.(owed := 0)).(total := (s.total - thread.owed) % WORD)
    case Proceed(_) => With(s, t, if thread.next.Connect? then Connecting else Out)
    case Connected(_, success) =>
      if success then With(s, t, Out).(place := s.place + [Leased])
      else With(s, t, Settling([], 1, Return))
    case Release(_, c) => With(s, t, Releasing(c)).(place := s.place[c := Returning(t)])
    case Judge(_, valid) =>
      var c := thread.connection;
      if valid then With(s, t, Pushing(c))
      else With(s, t, Settling([c], 0, Return)).(place := s.place[c := Doomed(t)])
    case PushIdle(_, throws) =>
      var c := thread.connection;
      if throws then With(s, t, Settling([c], 0, Return)).(place := s.place[c := Doomed(t)])
      else With(s, t, Out).(idle := s.idle + [c], place := s.place[c := Idle])
    case Destroy(_) =>
      With(s, t, Settling(s.idle, 0, Return)).(alive := false, idle := [], place := DoomAll(s.place, s.idle, t))
    case ReleaseOrphan(_, c) => s.(place := s.place[c := Deleted])
  }

  predicate Initial(s: State) {
    && (forall t :: 0 <= t < |s.threads| ==> s.threads[t].Out?)
    && !s.lock && s.idle == [] && s.total == 0 && s.alive && 0 < s.max < WORD && s.place == []
  }

  // ----- what the counter stands for

  predicate IsLive(place: Place) {
    place.Idle? || place.Leased? || place.Returning?
  }

  /** Connections in the pool, on lease or on their way back. */
  function LiveConnections(place: seq<Place>): nat {
    if place == [] then 0
    else LiveConnections(place[..|place| - 1]) + if IsLive(place[|place| - 1]) then 1 else 0
  }

  /** Taken out of the pool but not yet subtracted. */
  function DebtOf(thread: Thread): nat {
    match thread
    case Scanning(doomed) => |doomed|
    case Deciding(doomed) => |doomed|
    case Reserving(doomed, _) => |doomed|
    case Settling(doomed, owed, _) => |doomed| + owed
    case _ => 0
  }

  /** A connection about to be opened. */
  function ReservedBy(thread: Thread): nat {
    if thread.Connecting? || (thread.Settling? && thread.next.Connect?) then 1 else 0
  }

  function Debts(threads: seq<Thread>): nat {
    if threads == [] then 0 else Debts(threads[..|threads| - 1]) + DebtOf(threads[|threads| - 1])
  }

  function Reservations(threads: seq<Thread>): nat {
    if threads == [] then 0 else Reservations(threads[..|threads| - 1]) + ReservedBy(threads[|threads| - 1])
  }

  /** Idle, leased, returning and connecting. */
  function Live(s: State): nat {
    LiveConnections(s.place) + Reservations(s.threads)
  }

  function Units(s: State): nat {
    Live(s) + Debts(s.threads)
  }

  lemma {:induction false} LiveUpdate(place: seq<Place>, c: nat, p: Place)
    requires c < |place|
    ensures LiveConnections(place[c := p]) ==
              LiveConnections(place) - (if IsLive(place[c]) then 1 else 0) + (if IsLive(p) then 1 else 0)
    ensures IsLive(place[c]) ==> LiveConnections(place) > 0
  {
    var n := |place| - 1;
    if c == n {
      assert place[c := p][..n] == place[..n];
    } else {
      LiveUpdate(place[..n], c, p);
      assert place[c := p][..n] == place[..n][c := p];
    }
  }

  lemma {:induction false} ThreadUpdate(threads: seq<Thread>, t: nat, thread: Thread)
    requires t < |threads|
    ensures Debts(threads[t := thread]) == Debts(threads) - DebtOf(threads[t]) + DebtOf(thread)
    ensures Reservations(threads[t := thread]) == Reservations(threads) - ReservedBy(threads[t]) + ReservedBy(thread)
    ensures DebtOf(threads[t]) <= Debts(threads)
  {
    hide DebtOf, ReservedBy;
    var n := |threads| - 1;
    if t == n {
      assert threads[t := thread][..n] == threads[..n];
    } else {
      ThreadUpdate(threads[..n], t, thread);
      assert threads[t := thread][..n] == threads[..n][t := thread];
    }
  }

  // ----- every connection is in one place

  predicate Recorded(place: seq<Place>, list: seq<nat>, p: Place) {
    && (forall i :: 0 <= i < |list| ==> list[i] < |place| && place[list[i]] == p)
    && (forall i, j :: 0 <= i < j < |list| ==> list[i] != list[j])
  }

  function DoomedOf(thread: Thread): seq<nat> {
    match thread
    case Scanning(doomed) => doomed
    case Deciding(doomed) => doomed
    case Reserving(doomed, _) => doomed
    case Settling(doomed, _, _) => doomed
    case _ => []
  }

  function HeldBy(thread: Thread): seq<nat> {
    match thread
    case Releasing(c) => [c]
    case Pushing(c) => [c]
    case _ => []
  }

  predicate ThreadRecorded(s: State, t: nat)
    requires t < |s.threads|
  {
    Recorded(s.place, DoomedOf(s.threads[t]), Doomed(t)) && Recorded(s.place, HeldBy(s.threads[t]), Returning(t))
  }

  /** Nothing is lost either: an object not deleted is where its place says. */
  predicate Found(s: State, c: nat)
    requires c < |s.place|
  {
    match s.place[c]
    case Idle => c in s.idle
    case Returning(t) => t < |s.threads| && c in HeldBy(s.threads[t])
    case Doomed(t) => t < |s.threads| && c in DoomedOf(s.threads[t])
    case _ => true
  }

  predicate Placed(s: State) {
    && Recorded(s.place, s.idle, Idle)
    && (forall t :: 0 <= t < |s.threads| ==> ThreadRecorded(s, t))
    && (forall c :: 0 <= c < |s.place| ==> Found(s, c))
  }

  /** Only thread `t` and the place of `c` change; `c` was nowhere else before. */
  lemma OthersRecorded(s: State, r: State, t: nat, c: nat)
    requires Placed(s) && t < |s.threads| && c < |s.place| && |r.threads| == |s.threads| && |r.place| == |s.place|
    requires forall u :: 0 <= u < |s.threads| && u != t ==> r.threads[u] == s.threads[u]
    requires forall d :: 0 <= d < |s.place| && d != c ==> r.place[d] == s.place[d]
    requires s.place[c] != Idle || s.idle == [] || s.idle[0] == c
    requires forall u :: 0 <= u < |s.threads| && u != t ==> s.place[c] != Doomed(u) && s.place[c] != Returning(u)
    ensures forall u :: 0 <= u < |s.threads| && u != t ==> ThreadRecorded(r, u)
  {
    forall u | 0 <= u < |s.threads| && u != t ensures ThreadRecorded(r, u) {
      assert ThreadRecorded(s, u);
    }
  }

  lemma FramePlaced(s: State, r: State, t: nat)
    requires Placed(s) && t < |s.threads| && r.place == s.place && r.idle == s.idle
    requires |r.threads| == |s.threads| && r.threads == s.threads[t := r.threads[t]]
    requires DoomedOf(r.threads[t]) == DoomedOf(s.threads[t]) && HeldBy(r.threads[t]) == HeldBy(s.threads[t])
    ensures Placed(r)
  {
    hide DoomedOf, HeldBy, Recorded;
    forall u | 0 <= u < |r.threads| ensures ThreadRecorded(r, u) {
      assert ThreadRecorded(s, u);
      assert u != t ==> r.threads[u] == s.threads[u];
    }
    forall c | 0 <= c < |r.place| ensures Found(r, c) {
      assert Found(s, c);
    }
  }

  lemma TailRecorded(place: seq<Place>, after: seq<Place>, list: seq<nat>, p: Place, to: Place)
    requires list != [] && Recorded(place, list, p) && after == place[list[0] := to]
    ensures Recorded(after, list[1..], p)
  {
    forall i | 0 <= i < |list[1..]| ensures list[1..][i] == list[i + 1] {
    }
  }

  lemma ExamineRecorded(s: State, t: nat, valid: bool)
    requires Placed(s) && Enabled(s, Examine(t, valid))
    ensures s.place[s.idle[0]] == Idle && ThreadRecorded(Apply(s, Examine(t, valid)), t)
  {
    var c, doomed := s.idle[0], s.threads[t].doomed;
    assert s.place[c] == Idle && ThreadRecorded(s, t);
    hide Placed, Recorded;
    MoreRecorded(s.place, doomed, Doomed(t), c);
    OthersKept(s.place, doomed, Doomed(t), c, Leased);
    NoneRecorded(Apply(s, Examine(t, valid)).place, Returning(t));
  }

  lemma NoneRecorded(place: seq<Place>, p: Place)
    ensures Recorded(place, [], p)
  {
  }

  lemma MoreRecorded(place: seq<Place>, list: seq<nat>, p: Place, c: nat)
    requires Recorded(place, list, p) && c < |place| && place[c] != p
    ensures Recorded(place[c := p], list + [c], p)
  {
  }

  lemma OthersKept(place: seq<Place>, list: seq<nat>, p: Place, c: nat, to: Place)
    requires Recorded(place, list, p) && c < |place| && place[c] != p
    ensures Recorded(place[c := to], list, p)
  {
  }

  lemma ExamineFound(s: State, t: nat, valid: bool, d: nat)
    requires Placed(s) && Enabled(s, Examine(t, valid)) && d < |s.place|
    ensures Found(Apply(s, Examine(t, valid)), d)
  {
    hide ThreadRecorded, Recorded;
    var r, c := Apply(s, Examine(t, valid)), s.idle[0];
    assert Found(s, d);
    if d == c && !valid {
      assert DoomedOf(r.threads[t])[|DoomedOf(s.threads[t])|] == c;
    } else if d != c && s.place[d].Idle? {
      assert s.idle == [c] + s.idle[1..];
    }
  }

  lemma ExaminePlaced(s: State, t: nat, valid: bool)
    requires Placed(s) && Enabled(s, Examine(t, valid))
    ensures Placed(Apply(s, Examine(t, valid)))
  {
    var r := Apply(s, Examine(t, valid));
    var c := s.idle[0];
    ExamineRecorded(s, t, valid);
    OthersRecorded(s, r, t, c);
    TailRecorded(s.place, r.place, s.idle, Idle, r.place[c]);
    hide Found, ThreadRecorded, Recorded;
    forall d | 0 <= d < |r.place| ensures Found(r, d) {
      ExamineFound(s, t, valid, d);
    }
  }

  lemma DeletePlaced(s: State, t: nat)
    requires Placed(s) && Enabled(s, Delete(t))
    ensures Placed(Apply(s, Delete(t)))
    ensures s.place[s.threads[t].doomed[0]] == Doomed(t)
  {
    var r := Apply(s, Delete(t));
    var doomed := s.threads[t].doomed;
    var c := doomed[0];
    assert ThreadRecorded(s, t);
    assert s.place[c] == Doomed(t);
    OthersRecorded(s, r, t, c);
    assert ThreadRecorded(r, t) by {
      forall i | 0 <= i < |doomed[1..]| ensures doomed[1..][i] == doomed[i + 1] {
      }
    }
    forall d | 0 <= d < |r.place| ensures Found(r, d) {
      assert Found(s, d);
      assert d != c && d in doomed ==> d in doomed[1..];
    }
  }

  lemma ConnectedPlaced(s: State, t: nat)
    requires Placed(s) && Enabled(s, Connected(t, true))
    ensures Placed(Apply(s, Connected(t, true)))
  {
    var r := Apply(s, Connected(t, true));
    forall u | 0 <= u < |r.threads| ensures ThreadRecorded(r, u) {
      assert ThreadRecorded(s, u);
    }
    forall d | 0 <= d < |r.place| ensures Found(r, d) {
      assert d < |s.place| ==> Found(s, d);
    }
  }

  lemma ReleasePlaced(s: State, t: nat, c: nat)
    requires Placed(s) && Enabled(s, Release(t, c))
    ensures Placed(Apply(s, Release(t, c)))
  {
    var r := Apply(s, Release(t, c));
    OthersRecorded(s, r, t, c);
    forall d | 0 <= d < |r.place| ensures Found(r, d) {
      assert Found(s, d);
    }
  }

  lemma JudgePlaced(s: State, t: nat, valid: bool)
    requires Placed(s) && Enabled(s, Judge(t, valid))
    ensures Placed(Apply(s, Judge(t, valid)))
  {
    var r := Apply(s, Judge(t, valid));
    if valid {
      FramePlaced(s, r, t);
    } else {
      DiscardPlaced(s, r, t, s.threads[t].connection);
    }
  }

  /** A connection on its way back is to be deleted instead. */
  lemma DiscardPlaced(s: State, r: State, t: nat, c: nat)
    requires Placed(s) && t < |s.threads| && HeldBy(s.threads[t]) == [c] && DoomedOf(s.threads[t]) == []
    requires c < |s.place| && r == With(s, t, Settling([c], 0, Return)).(place := s.place[c := Doomed(t)])
    ensures Placed(r)
  {
    assert ThreadRecorded(s, t);
    assert HeldBy(s.threads[t])[0] == c;
    OthersRecorded(s, r, t, c);
    forall d | 0 <= d < |r.place| ensures Found(r, d) {
      assert Found(s, d);
    }
  }

  lemma PushIdlePlaced(s: State, t: nat, throws: bool)
    requires Placed(s) && Enabled(s, PushIdle(t, throws))
    ensures Placed(Apply(s, PushIdle(t, throws)))
  {
    var r := Apply(s, PushIdle(t, throws));
    var c := s.threads[t].connection;
    if throws {
      DiscardPlaced(s, r, t, c);
    } else {
      KeepIdlePlaced(s, t);
    }
  }

  lemma KeepIdlePlaced(s: State, t: nat)
    requires Placed(s) && Enabled(s, PushIdle(t, false))
    ensures Placed(Apply(s, PushIdle(t, false)))
  {
    var r, c := Apply(s, PushIdle(t, false)), s.threads[t].connection;
    assert ThreadRecorded(s, t);
    assert HeldBy(s.threads[t])[0] == c;
    OthersRecorded(s, r, t, c);
    MoreRecorded(s.place, s.idle, Idle, c);
    NoneRecorded(r.place, Doomed(t));
    NoneRecorded(r.place, Returning(t));
    assert ThreadRecorded(r, t);
    hide Recorded, ThreadRecorded;
    forall d | 0 <= d < |r.place| ensures Found(r, d) {
      assert Found(s, d);
      assert r.idle[|s.idle|] == c;
    }
  }

  lemma OrphanPlaced(s: State, t: nat, c: nat)
    requires Placed(s) && Enabled(s, ReleaseOrphan(t, c))
    ensures Placed(Apply(s, ReleaseOrphan(t, c)))
  {
    var r := Apply(s, ReleaseOrphan(t, c));
    forall u | 0 <= u < |r.threads| ensures ThreadRecorded(r, u) {
      assert ThreadRecorded(s, u);
    }
    forall d | 0 <= d < |r.place| ensures Found(r, d) {
      assert Found(s, d);
    }
  }

  lemma {:induction false} DoomAllPlaces(place: seq<Place>, idle: seq<nat>, t: nat)
    requires Recorded(place, idle, Idle)
    ensures forall c :: 0 <= c < |place| ==> DoomAll(place, idle, t)[c] == if c in idle then Doomed(t) else place[c]
    ensures LiveConnections(DoomAll(place, idle, t)) == LiveConnections(place) - |idle|
    decreases |idle|
  {
    if idle != [] {
      var next := place[idle[0] := Doomed(t)];
      LiveUpdate(place, idle[0], Doomed(t));
      assert Recorded(next, idle[1..], Idle) by {
        forall i | 0 <= i < |idle[1..]| ensures idle[1..][i] == idle[i + 1] {
        }
      }
      DoomAllPlaces(next, idle[1..], t);
      forall c | 0 <= c < |place|
        ensures DoomAll(place, idle, t)[c] == if c in idle then Doomed(t) else place[c]
      {
        assert c in idle <==> c == idle[0] || c in idle[1..];
      }
    }
  }

  lemma DestroyPlaced(s: State, t: nat)
    requires Placed(s) && Enabled(s, Destroy(t))
    ensures Placed(Apply(s, Destroy(t)))
  {
    var r := Apply(s, Destroy(t));
    DoomAllPlaces(s.place, s.idle, t);
    forall u | 0 <= u < |r.threads| ensures ThreadRecorded(r, u) {
      assert ThreadRecorded(s, u);
    }
    forall d | 0 <= d < |r.place| ensures Found(r, d) {
      assert Found(s, d);
    }
  }

  lemma StepPlaced(s: State, step: Step)
    requires Placed(s) && Enabled(s, step)
    ensures Placed(Apply(s, step))
  {
    hide Placed;
    match step
    case Examine(t, valid) => ExaminePlaced(s, t, valid);
    case Delete(t) => DeletePlaced(s, t);
    case Connected(t, success) =>
      if success {
        ConnectedPlaced(s, t);
      } else {
        FramePlaced(s, Apply(s, step), t);
      }
    case Release(t, c) => ReleasePlaced(s, t, c);
    case Judge(t, valid) => JudgePlaced(s, t, valid);
    case PushIdle(t, throws) => PushIdlePlaced(s, t, throws);
    case Destroy(t) => DestroyPlaced(s, t);
    case ReleaseOrphan(t, c) => OrphanPlaced(s, t, c);
    case _ => FramePlaced(s, Apply(s, step), step.t);
  }

  // ----- the bound

  predicate HoldsLock(thread: Thread) {
    thread.Scanning? || thread.Deciding? || thread.Reserving?
  }

  /** One thread at a time is in the lock section, and the idle list stays empty once it was found so. */
  predicate Locked(s: State) {
    && (forall t, u :: 0 <= t < u < |s.threads| ==> !(HoldsLock(s.threads[t]) && HoldsLock(s.threads[u])))
    && (forall t :: 0 <= t < |s.threads| && HoldsLock(s.threads[t]) ==> s.lock && s.alive)
  }

  /** What the thread in the lock section may rely on, although the others go on lowering the counter. */
  predicate Promised(s: State, thread: Thread) {
    && (HoldsLock(thread) ==> Live(s) + |DoomedOf(thread)| <= s.max)
    && (thread.Reserving? && thread.ok ==> Units(s) - |thread.doomed| < s.max)
  }

  /** The thread has raised the counter for a new connection, and has `j` discarded ones or more to
      subtract yet. */
  predicate RaisedOver(thread: Thread, j: nat) {
    thread.Settling? && thread.next.Connect? && j <= DebtOf(thread)
  }

  function Raisers(threads: seq<Thread>, j: nat): nat {
    if threads == [] then 0
    else Raisers(threads[..|threads| - 1], j) + if RaisedOver(threads[|threads| - 1], j) then 1 else 0
  }

  /** How far the counter stands for more than the limit. */
  function Excess(s: State): nat {
    if Units(s) <= s.max then 0 else Units(s) - s.max
  }

  /** To go one further over the limit takes a thread with as many discarded connections: the ones
      that did so owe at least 1, 2, 3 and so on. */
  predicate Stacked(s: State) {
    forall j :: 1 <= j <= Excess(s) ==> Excess(s) - j < Raisers(s.threads, j)
  }

  predicate Bounded(s: State) {
    && Locked(s)
    && 0 < s.max < WORD
    && (s.alive ==> s.total == Units(s) % WORD)
    && Live(s) <= s.max
    && Stacked(s)
    && forall t :: 0 <= t < |s.threads| ==> Promised(s, s.threads[t])
  }

  lemma WrapAround(units: nat, k: nat, max: nat)
    requires k <= units < WORD
    ensures (units % WORD - k) % WORD == units - k
  {
  }

  lemma WordAdd(units: nat)
    ensures (units % WORD + 1) % WORD == (units + 1) % WORD
  {
  }

  lemma WordSubtract(units: nat, k: nat)
    requires k <= units
    ensures (units % WORD - k) % WORD == (units - k) % WORD
  {
    assert units % WORD - k == units - k - (units / WORD) * WORD;
    WordShift(units - k, units / WORD);
  }

  lemma {:induction false} WordShift(n: nat, q: nat)
    ensures (n - q * WORD) % WORD == n % WORD
    decreases q
  {
    if q > 0 {
      WordShift(n, q - 1);
      var m := n - (q - 1) * WORD;
      assert n - q * WORD == m - WORD;
      assert (m - WORD) % WORD == m % WORD;
    }
  }

  /** How the counts change with one thread and at most one connection. */
  lemma CountsAfter(s: State, r: State, t: nat)
    requires t < |s.threads| == |r.threads| && r.threads == s.threads[t := r.threads[t]]
    ensures Debts(r.threads) == Debts(s.threads) - DebtOf(s.threads[t]) + DebtOf(r.threads[t])
    ensures Reservations(r.threads) == Reservations(s.threads) - ReservedBy(s.threads[t]) + ReservedBy(r.threads[t])
    ensures DebtOf(s.threads[t]) <= Debts(s.threads)
  {
    ThreadUpdate(s.threads, t, r.threads[t]);
  }

  /** The connection a step moves, if it moves one that exists. */
  lemma LiveAfter(s: State, step: Step)
    requires Placed(s) && Enabled(s, step)
    ensures var r := Apply(s, step);
            LiveConnections(r.place) == LiveConnections(s.place) +
              match step
              case Examine(_, valid) => if valid then 0 else -1
              case Connected(_, success) => if success then 1 else 0
              case Judge(_, valid) => if valid then 0 else -1
              case PushIdle(_, throws) => if throws then -1 else 0
              case Destroy(_) => -|s.idle|
              case ReleaseOrphan(_, _) => -1
              case _ => 0
  {
    hide LiveConnections, Found;
    var t := step.t;
    assert ThreadRecorded(s, t);
    match step
    case Examine(_, valid) => LiveUpdate(s.place, s.idle[0], if valid then Leased else Doomed(t));
    case Delete(_) => LiveUpdate(s.place, s.threads[t].doomed[0], Deleted);
    case Connected(_, success) =>
      if success {
        LiveAppend(s.place);
      }
    case Release(_, c) => LiveUpdate(s.place, c, Returning(t));
    case Judge(_, valid) => HeldLive(s, t, Doomed(t));
    case PushIdle(_, throws) => HeldLive(s, t, if throws then Doomed(t) else Idle);
    case Destroy(_) => DoomAllPlaces(s.place, s.idle, t);
    case ReleaseOrphan(_, c) => LiveUpdate(s.place, c, Deleted);
    case _ =>
  }

  lemma HeldLive(s: State, t: nat, p: Place)
    requires t < |s.threads| && ThreadRecorded(s, t) && (s.threads[t].Releasing? || s.threads[t].Pushing?)
    ensures s.threads[t].connection < |s.place|
    ensures LiveConnections(s.place[s.threads[t].connection := p]) ==
              LiveConnections(s.place) - 1 + if IsLive(p) then 1 else 0
  {
    hide LiveConnections;
    assert HeldBy(s.threads[t])[0] == s.threads[t].connection;
    LiveUpdate(s.place, s.threads[t].connection, p);
  }

  lemma LiveAppend(place: seq<Place>)
    ensures LiveConnections(place + [Leased]) == LiveConnections(place) + 1
  {
    assert (place + [Leased])[..|place|] == place;
  }

  /** What a step adds to the thread's debt. */
  lemma DebtAfter(s: State, step: Step)
    requires Enabled(s, step) && !step.ReleaseOrphan?
    ensures var more: int :=
              match step
              case Examine(_, valid) => if valid then 0 else 1
              case Subtract(_) => -(s.threads[step.t].owed as int)
              case Connected(_, success) => if success then 0 else 1
              case Judge(_, valid) => if valid then 0 else 1
              case PushIdle(_, throws) => if throws then 1 else 0
              case Destroy(_) => |s.idle|
              case _ => 0;
            DebtOf(Apply(s, step).threads[step.t]) == DebtOf(s.threads[step.t]) + more
  {
    hide DoomAll;
  }

  /** And to the connections it is about to open. */
  lemma ReservedAfter(s: State, step: Step)
    requires Enabled(s, step) && !step.ReleaseOrphan?
    ensures ReservedBy(Apply(s, step).threads[step.t]) == ReservedBy(s.threads[step.t]) +
              match step
              case Reserve(_) => if s.threads[step.t].ok then 1 else 0
              case Connected(_, _) => -1
              case _ => 0
  {
    hide DoomAll;
  }

  lemma TotalAfter(s: State, step: Step)
    requires Enabled(s, step)
    ensures Apply(s, step).total ==
              match step
              case Reserve(_) => if s.threads[step.t].ok then (s.total + 1) % WORD else s.total
              case Subtract(_) => (s.total - s.threads[step.t].owed) % WORD
              case _ => s.total
    ensures Apply(s, step).alive ==> s.alive
  {
    hide DoomAll;
  }

  lemma ThreadAfter(s: State, step: Step)
    requires Enabled(s, step)
    ensures var r := Apply(s, step);
            |r.threads| == |s.threads| &&
            r.threads == if step.ReleaseOrphan? then s.threads else s.threads[step.t := r.threads[step.t]]
  {
    hide DoomAll;
  }

  /** The counter follows the units it stands for. */
  lemma UnitsAfter(s: State, step: Step)
    requires Placed(s) && Bounded(s) && Enabled(s, step)
    ensures var r := Apply(s, step);
            var raised := step.Reserve? && s.threads[step.t].ok;
            && Live(r) <= Live(s) + (if raised then 1 else 0)
            && Units(r) <= Units(s) + (if raised then 1 else 0)
            && (r.alive ==> r.total == Units(r) % WORD)
  {
    hide LiveConnections, Debts, Reservations, DebtOf, ReservedBy, Placed, Promised, Locked, Stacked, Apply;
    var r := Apply(s, step);
    LiveAfter(s, step);
    TotalAfter(s, step);
    ThreadAfter(s, step);
    if !step.ReleaseOrphan? {
      CountsAfter(s, r, step.t);
      DebtAfter(s, step);
      ReservedAfter(s, step);
      if step.Subtract? {
        WordSubtract(Units(s), s.threads[step.t].owed);
      } else if step.Reserve? {
        WordAdd(Units(s));
      }
    }
  }

  lemma LockPassed(s: State, r: State, t: nat)
    requires Locked(s) && t < |s.threads| == |r.threads| && r.threads == s.threads[t := r.threads[t]]
    requires HoldsLock(r.threads[t]) ==> r.lock && r.alive && (HoldsLock(s.threads[t]) || !s.lock)
    requires s.lock && !r.lock ==> HoldsLock(s.threads[t])
    requires s.alive && !r.alive ==> forall u :: 0 <= u < |s.threads| ==> !HoldsLock(s.threads[u])
    ensures Locked(r)
  {
    hide HoldsLock;
    forall u | 0 <= u < |s.threads| && u != t ensures r.threads[u] == s.threads[u] {
    }
  }

  lemma LockedAfter(s: State, step: Step)
    requires Locked(s) && Enabled(s, step)
    ensures Locked(Apply(s, step))
  {
    hide DoomAll, Locked;
    var r := Apply(s, step);
    if HoldsLock(s.threads[step.t]) {
      LockedBy(s, step.t);
    }
    LockPassed(s, r, step.t);
  }

  lemma LockedBy(s: State, t: nat)
    requires Locked(s) && t < |s.threads| && HoldsLock(s.threads[t])
    ensures s.lock && s.alive
  {
  }

  /** Under the lock the counter is read against the idle connections found unusable. */
  lemma LoadPromised(s: State, t: nat)
    requires Bounded(s) && Enabled(s, Load(t)) && Units(s) < WORD
    ensures Promised(Apply(s, Load(t)), Apply(s, Load(t)).threads[t])
  {
    hide LiveConnections, Debts, Reservations;
    var r := Apply(s, Load(t));
    assert Promised(s, s.threads[t]);
    LockedBy(s, t);
    CountsAfter(s, r, t);
    WrapAround(Units(s), |s.threads[t].doomed|, s.max);
  }

  /** In the lock section, discarding makes as much room as it costs. */
  lemma PromiseKept(s: State, step: Step)
    requires Placed(s) && Bounded(s) && Enabled(s, step) && !step.Load? && !step.ReleaseOrphan?
    requires HoldsLock(Apply(s, step).threads[step.t])
    ensures Promised(Apply(s, step), Apply(s, step).threads[step.t])
  {
    hide LiveConnections, Debts, Reservations, Placed, Locked, Stacked;
    var r := Apply(s, step);
    assert Promised(s, s.threads[step.t]);
    LiveAfter(s, step);
    CountsAfter(s, r, step.t);
  }

  /** The thread that took the step may rely on what it found. */
  lemma PromisedAfter(s: State, step: Step)
    requires Placed(s) && Bounded(s) && Enabled(s, step) && step.t < |Apply(s, step).threads|
    requires step.Load? ==> Units(s) < WORD
    ensures Promised(Apply(s, step), Apply(s, step).threads[step.t])
  {
    hide Live, Units, Placed, Locked, Stacked, Apply;
    if step.Load? {
      LoadPromised(s, step.t);
    } else if step.ReleaseOrphan? {
      NoLock(s, step);
    } else if HoldsLock(Apply(s, step).threads[step.t]) {
      PromiseKept(s, step);
    }
  }

  lemma NoLock(s: State, step: Step)
    requires Enabled(s, step) && step.ReleaseOrphan?
    ensures Apply(s, step).threads[step.t].Out?
  {
  }

  lemma StepBounded(s: State, step: Step)
    requires Placed(s) && Bounded(s) && Enabled(s, step) && (step.Load? ==> Units(s) < WORD)
    ensures Bounded(Apply(s, step))
  {
    hide Live, Units, Placed, Locked, Promised, Stacked, WORD;
    var r := Apply(s, step);
    UnitsAfter(s, step);
    LockedAfter(s, step);
    PromisedAfter(s, step);
    RaisedBound(s, step);
    StackedAfter(s, step);
    forall u | 0 <= u < |r.threads| && u != step.t ensures Promised(r, r.threads[u]) {
      OthersStep(s, step, u);
    }
  }

  /** Where the counter is raised, the promise gives both bounds. */
  lemma RaisedBound(s: State, step: Step)
    requires Bounded(s) && Enabled(s, step)
    ensures step.Reserve? && s.threads[step.t].ok ==>
              Live(s) < s.max && Units(s) < s.max + |s.threads[step.t].doomed|
  {
    hide LiveConnections, Debts, Reservations, Stacked;
    if step.Reserve? {
      assert Promised(s, s.threads[step.t]);
      ThreadUpdate(s.threads, step.t, Out);
    }
  }

  lemma {:induction false} RaisersUpdate(threads: seq<Thread>, t: nat, thread: Thread, j: nat)
    requires t < |threads|
    ensures Raisers(threads[t := thread], j) ==
              Raisers(threads, j) - (if RaisedOver(threads[t], j) then 1 else 0)
                + if RaisedOver(thread, j) then 1 else 0
  {
    hide RaisedOver;
    var n := |threads| - 1;
    if t == n {
      assert threads[t := thread][..n] == threads[..n];
    } else {
      RaisersUpdate(threads[..n], t, thread, j);
      assert threads[t := thread][..n] == threads[..n][t := thread];
    }
  }

  /** Only Subtract takes a raiser away, and it lowers the counter. */
  lemma RaisersAfter(s: State, step: Step, j: nat)
    requires Enabled(s, step) && j > 0
    ensures var r := Apply(s, step);
            Raisers(r.threads, j) >= Raisers(s.threads, j) +
              if step.Subtract? then -1
              else if step.Reserve? && s.threads[step.t].ok && j <= |s.threads[step.t].doomed| then 1
              else 0
  {
    hide DoomAll, Raisers;
    var r := Apply(s, step);
    if step.ReleaseOrphan? {
      assert r.threads == s.threads;
    } else {
      assert r.threads == s.threads[step.t := r.threads[step.t]];
      RaisersUpdate(s.threads, step.t, r.threads[step.t], j);
    }
  }

  lemma SubtractLowers(s: State, t: nat)
    requires Enabled(s, Subtract(t))
    ensures Units(Apply(s, Subtract(t))) < Units(s)
  {
    hide LiveConnections;
    CountsAfter(s, Apply(s, Subtract(t)), t);
  }

  lemma StackedAfter(s: State, step: Step)
    requires Placed(s) && Bounded(s) && Enabled(s, step)
    ensures Stacked(Apply(s, step))
  {
    hide Units, Live, Placed, Raisers, Promised, Locked;
    var r := Apply(s, step);
    UnitsAfter(s, step);
    RaisedBound(s, step);
    MaxKept(s, step);
    if step.Subtract? {
      SubtractLowers(s, step.t);
    }
    forall j | 1 <= j <= Excess(r) ensures Excess(r) - j < Raisers(r.threads, j) {
      RaisersAfter(s, step, j);
    }
  }

  lemma OthersStep(s: State, step: Step, u: nat)
    requires Placed(s) && Bounded(s) && Enabled(s, step) && u < |Apply(s, step).threads| && u != step.t
    ensures Promised(Apply(s, step), Apply(s, step).threads[u])
  {
    hide LiveConnections, Debts, Reservations, Placed;
    var r := Apply(s, step);
    UnitsAfter(s, step);
    assert Promised(s, s.threads[u]);
    assert r.threads[u] == s.threads[u];
    assert step.Reserve? ==> HoldsLock(s.threads[step.t]);
    assert step.Reserve? ==> !HoldsLock(s.threads[u]);
  }

  // ----- runs

  ghost predicate IsRun(states: seq<State>, steps: seq<Step>) {
    && |states| == |steps| + 1
    && Initial(states[0])
    && forall i :: 0 <= i < |steps| ==> Enabled(states[i], steps[i]) && states[i + 1] == Apply(states[i], steps[i])
  }

  lemma {:induction false} NobodyCounts(threads: seq<Thread>)
    requires forall t :: 0 <= t < |threads| ==> threads[t].Out?
    ensures Debts(threads) == 0 && Reservations(threads) == 0
  {
    if threads != [] {
      NobodyCounts(threads[..|threads| - 1]);
    }
  }

  lemma InitialBounded(s: State)
    requires Initial(s)
    ensures Placed(s) && Bounded(s)
  {
    NobodyCounts(s.threads);
    forall t | 0 <= t < |s.threads| ensures ThreadRecorded(s, t) {
    }
  }

  // ----- when the counter can start again at zero

  function Triangle(n: nat): nat {
    if n == 0 then 0 else Triangle(n - 1) + n
  }

  lemma {:induction false} TriangleIs(n: nat)
    ensures 2 * Triangle(n) == n * (n + 1)
  {
    if n > 0 {
      TriangleIs(n - 1);
      assert n * (n + 1) == (n - 1) * n + 2 * n;
    }
  }

  lemma TriangleGrows(n: nat, m: nat)
    requires n <= m
    ensures Triangle(n) <= Triangle(m)
    decreases m
  {
    if n < m {
      TriangleGrows(n, m - 1);
    }
  }

  /** The raisers that owe 1 or more, 2 or more, and so on up to `n`, together. */
  function Layers(threads: seq<Thread>, n: nat): nat {
    if n == 0 then 0 else Layers(threads, n - 1) + Raisers(threads, n)
  }

  lemma {:induction false} LayersLast(threads: seq<Thread>, n: nat)
    requires threads != []
    ensures var debt := DebtOf(threads[|threads| - 1]);
            Layers(threads, n) <= Layers(threads[..|threads| - 1], n) + if n < debt then n else debt
  {
    hide DebtOf;
    if n > 0 {
      LayersLast(threads, n - 1);
    }
  }

  lemma {:induction false} LayersOfNone(n: nat)
    ensures Layers([], n) == 0
  {
    if n > 0 {
      LayersOfNone(n - 1);
    }
  }

  /** Counted in layers, the raisers' debts are no more than all debts. */
  lemma {:induction false} LayersBounded(threads: seq<Thread>, n: nat)
    ensures Layers(threads, n) <= Debts(threads)
  {
    hide DebtOf, Raisers;
    if threads == [] {
      LayersOfNone(n);
    } else {
      LayersBounded(threads[..|threads| - 1], n);
      LayersLast(threads, n);
    }
  }

  lemma {:induction false} LayersStacked(s: State, n: nat)
    requires Stacked(s) && n <= Excess(s)
    ensures Layers(s.threads, n) + Triangle(Excess(s) - n) >= Triangle(Excess(s))
  {
    hide Excess, Raisers;
    if n > 0 {
      LayersStacked(s, n - 1);
      assert Triangle(Excess(s) - (n - 1)) == Triangle(Excess(s) - n) + (Excess(s) - n + 1);
    }
  }

  /** Every raiser has a connection to open, and none is in the lock section. */
  lemma {:induction false} RaisersReserve(threads: seq<Thread>, j: nat)
    ensures Raisers(threads, j) <= Reservations(threads) && Raisers(threads, j) <= |threads|
    ensures (exists t :: 0 <= t < |threads| && HoldsLock(threads[t])) ==> Raisers(threads, j) < |threads|
  {
    if threads != [] {
      RaisersReserve(threads[..|threads| - 1], j);
      if t :| 0 <= t < |threads| && HoldsLock(threads[t]) {
        assert t < |threads| - 1 ==> threads[..|threads| - 1][t] == threads[t];
      }
    }
  }

  /** The excess is at most the number of threads, and its triangle at most the limit. */
  lemma ExcessBounded(s: State)
    requires Bounded(s)
    ensures Excess(s) <= |s.threads| && Triangle(Excess(s)) <= s.max
    ensures Excess(s) > 0 && (exists t :: 0 <= t < |s.threads| && HoldsLock(s.threads[t])) ==> Excess(s) < |s.threads|
  {
    hide Promised, Locked, Raisers, Reservations, Debts, LiveConnections;
    if Excess(s) > 0 {
      RaisersReserve(s.threads, 1);
      assert Excess(s) - 1 < Raisers(s.threads, 1);
      LayersStacked(s, Excess(s));
      LayersBounded(s.threads, Excess(s));
    }
  }

  /** As many threads as the limit is below 2^32, and limit enough for their debts, fill the counter. */
  predicate CanFill(max: nat, threads: nat)
    requires max < WORD
  {
    var k := WORD - max;
    k <= threads && k * (k + 1) <= 2 * max
  }

  /** One thread more can make use of it. */
  predicate CanWrap(max: nat, threads: nat)
    requires max < WORD
  {
    CanFill(max, threads) && WORD - max < threads
  }

  lemma UnitsFit(s: State)
    requires Bounded(s)
    ensures !CanFill(s.max, |s.threads|) ==> Units(s) < WORD
    ensures !CanWrap(s.max, |s.threads|) && (exists t :: 0 <= t < |s.threads| && HoldsLock(s.threads[t])) ==>
              Units(s) < WORD
  {
    hide Units, Stacked, Locked, Promised;
    if Units(s) >= WORD {
      ExcessBounded(s);
      TriangleGrows(WORD - s.max, Excess(s));
      TriangleIs(WORD - s.max);
    }
  }

  lemma {:induction false} RunBounded(states: seq<State>, steps: seq<Step>, i: nat)
    requires IsRun(states, steps) && i < |states| && !CanWrap(states[0].max, |states[0].threads|)
    ensures Placed(states[i]) && Bounded(states[i])
    ensures states[i].max == states[0].max && |states[i].threads| == |states[0].threads|
  {
    hide Placed, Bounded, Initial, Enabled, Apply, CanWrap;
    if i == 0 {
      InitialBounded(states[0]);
    } else {
      RunBounded(states, steps, i - 1);
      LoadFits(states[i - 1], steps[i - 1]);
      StepPlaced(states[i - 1], steps[i - 1]);
      StepBounded(states[i - 1], steps[i - 1]);
      MaxKept(states[i - 1], steps[i - 1]);
    }
  }

  lemma LoadFits(s: State, step: Step)
    requires Bounded(s) && Enabled(s, step) && !CanWrap(s.max, |s.threads|)
    ensures step.Load? ==> Units(s) < WORD
  {
    hide Bounded, Units, CanWrap;
    UnitsFit(s);
    assert step.Load? ==> HoldsLock(s.threads[step.t]);
  }

  lemma MaxKept(s: State, step: Step)
    requires Enabled(s, step)
    ensures Apply(s, step).max == s.max && |Apply(s, step).threads| == |s.threads|
  {
    hide DoomAll;
  }

  /** Capacity: in every interleaving, the connections that are idle, leased, on their way back or
      being opened never exceed the limit, and the counter is their number plus the discarded ones
      not yet subtracted. */
  lemma CapacityKept(states: seq<State>, steps: seq<Step>, i: nat)
    requires IsRun(states, steps) && i < |states| && !CanWrap(states[0].max, |states[0].threads|)
    ensures Live(states[i]) <= states[0].max
    ensures states[i].alive ==> states[i].total == (Live(states[i]) + Debts(states[i].threads)) % WORD
    ensures states[i].alive && !CanFill(states[0].max, |states[0].threads|) ==>
              states[i].total == Live(states[i]) + Debts(states[i].threads)
  {
    hide Placed, Live, Locked, Promised, Stacked, IsRun, CanFill, CanWrap;
    RunBounded(states, steps, i);
    UnitsFit(states[i]);
  }

  /** The object this step deletes. */
  predicate Deletes(s: State, step: Step, c: nat) {
    && step.t < |s.threads|
    && match step
       case Delete(t) => s.threads[t].Settling? && s.threads[t].doomed != [] && s.threads[t].doomed[0] == c
       case ReleaseOrphan(_, connection) => connection == c
       case _ => false
  }

  lemma DeleteEffect(s: State, step: Step, c: nat)
    requires Placed(s) && Enabled(s, step) && Deletes(s, step, c)
    ensures c < |s.place| && !s.place[c].Deleted?
    ensures c < |Apply(s, step).place| && Apply(s, step).place[c].Deleted?
  {
    hide DoomAll;
    assert ThreadRecorded(s, step.t);
  }

  lemma DeletedStays(s: State, step: Step, c: nat)
    requires Placed(s) && Enabled(s, step) && c < |s.place| && s.place[c].Deleted?
    ensures c < |Apply(s, step).place| && Apply(s, step).place[c].Deleted?
  {
    assert ThreadRecorded(s, step.t);
    if step.Destroy? {
      DoomAllPlaces(s.place, s.idle, step.t);
    } else if step.Judge? || step.PushIdle? {
      assert HeldBy(s.threads[step.t])[0] == s.threads[step.t].connection;
    }
  }

  lemma {:induction false} PlacedOverRun(states: seq<State>, steps: seq<Step>, i: nat)
    requires IsRun(states, steps) && i < |states|
    ensures Placed(states[i])
  {
    hide Placed, Initial, Enabled, Apply;
    if i == 0 {
      InitialBounded(states[0]);
    } else {
      PlacedOverRun(states, steps, i - 1);
      StepPlaced(states[i - 1], steps[i - 1]);
    }
  }

  lemma {:induction false} DeletedOverRun(states: seq<State>, steps: seq<Step>, i: nat, j: nat, c: nat)
    requires IsRun(states, steps) && i <= j < |states| && c < |states[i].place| && states[i].place[c].Deleted?
    ensures c < |states[j].place| && states[j].place[c].Deleted?
    decreases j
  {
    hide Placed, Initial, Enabled, Apply;
    if i < j {
      DeletedOverRun(states, steps, i, j - 1, c);
      PlacedOverRun(states, steps, j - 1);
      DeletedStays(states[j - 1], steps[j - 1], c);
    }
  }

  /** No connection is deleted twice, whatever happens to the pool, and none is leased or pushed
      back after its delete. */
  lemma DeletedOnce(states: seq<State>, steps: seq<Step>, i: nat, j: nat, c: nat)
    requires IsRun(states, steps) && i < j < |steps| && Deletes(states[i], steps[i], c)
    ensures !Deletes(states[j], steps[j], c)
    ensures c < |states[j].place| && states[j].place[c].Deleted?
  {
    hide Placed, Initial, Enabled, Apply, Deletes;
    PlacedOverRun(states, steps, i);
    DeleteEffect(states[i], steps[i], c);
    DeletedOverRun(states, steps, i + 1, j, c);
    PlacedOverRun(states, steps, j);
    if Deletes(states[j], steps[j], c) {
      DeleteEffect(states[j], steps[j], c);
      assert false;
    }
  }

  /** Nothing leaks: when no thread is inside a call and the pool is gone, every connection that was
      opened is on lease or deleted. */
  lemma NothingLeaks(states: seq<State>, steps: seq<Step>, i: nat, c: nat)
    requires IsRun(states, steps) && i < |states| && c < |states[i].place|
    requires forall t :: 0 <= t < |states[i].threads| ==> states[i].threads[t].Out?
    requires states[i].idle == []
    ensures states[i].place[c].Leased? || states[i].place[c].Deleted?
  {
    hide IsRun;
    PlacedOverRun(states, steps, i);
    assert Found(states[i], c);
  }
}
