/** `TimerManager`: an ordered set of timers whose keys change.  A timer is always taken out before
    its deadline is rewritten, so the set stays strictly sorted by (deadline, age). */
module Timers {
  import opened Wrappers

  /** A callback is known by a number; what it does is the user's business. */
  type Action = nat

  const NEVER: nat := 0xFFFF_FFFF_FFFF_FFFF

  class Timer {
    const recurring: bool
    const sequence: nat
    var manager: TimerManager?
    var ms: nat
    var next: nat
    var canceled: bool
    var callback: Option<Action>

    constructor (manager: TimerManager, ms: nat, callback: Action, recurring: bool, next: nat, sequence: nat)
      ensures this.manager == manager && this.ms == ms && this.callback == Some(callback)
      ensures this.recurring == recurring && this.next == next && this.sequence == sequence && !canceled
    {
      this.manager, this.ms, this.callback := manager, ms, Some(callback);
      this.recurring, this.next, this.sequence, canceled := recurring, next, sequence, false;
    }
  }

  /** TimerComparator. */
  predicate Less(a: Timer, b: Timer)
    reads a, b
  {
    if a.next != b.next then a.next < b.next else a.sequence < b.sequence
  }

  ghost predicate Sorted(timers: seq<Timer>)
    reads timers
  {
    forall i, j :: 0 <= i < j < |timers| ==> Less(timers[i], timers[j])
  }

  function Members(timers: seq<Timer>): set<Timer> {
    set i | 0 <= i < |timers| :: timers[i]
  }

  /** `timer` stands at its place among `before`. */
  ghost predicate InsertedAt(before: seq<Timer>, after: seq<Timer>, timer: Timer, k: int)
    reads before, timer
  {
    && 0 <= k <= |before| && after == before[..k] + [timer] + before[k..]
    && (forall i :: 0 <= i < k ==> Less(before[i], timer))
    && (forall i :: k <= i < |before| ==> Less(timer, before[i]))
  }

  lemma InsertedSorted(before: seq<Timer>, after: seq<Timer>, timer: Timer, k: int)
    requires Sorted(before) && InsertedAt(before, after, timer, k)
    ensures Sorted(after) && Members(after) == Members(before) + {timer}
    ensures forall t :: t in after <==> t in before || t == timer
  {
    hide Less;
    forall i, j | 0 <= i < j < |after| ensures Less(after[i], after[j]) {
      assert after[i] == if i < k then before[i] else if i == k then timer else before[i - 1];
      assert after[j] == if j < k then before[j] else if j == k then timer else before[j - 1];
    }
    forall t ensures t in after <==> t in before || t == timer {
      if t in before {
        var i :| 0 <= i < |before| && before[i] == t;
        assert after[if i < k then i else i + 1] == t;
      }
      assert after[k] == timer;
    }
    assert forall t :: t in Members(after) <==> t in after;
    assert forall t :: t in Members(before) <==> t in before;
  }

  lemma ErasedSorted(before: seq<Timer>, after: seq<Timer>, k: nat)
    requires Sorted(before) && k < |before| && after == before[..k] + before[k + 1..]
    requires forall i, j :: 0 <= i < j < |before| ==> before[i] != before[j]
    ensures Sorted(after) && Members(after) == Members(before) - {before[k]}
    ensures forall t :: t in after <==> t in before && t != before[k]
  {
    hide Less;
    forall i | 0 <= i < |after| ensures after[i] == before[if i < k then i else i + 1] {
    }
    forall t ensures t in after <==> t in before && t != before[k] {
      if t in before && t != before[k] {
        var i :| 0 <= i < |before| && before[i] == t;
        assert after[if i < k then i else i - 1] == t;
      }
    }
    assert forall t :: t in Members(after) <==> t in after;
    assert forall t :: t in Members(before) <==> t in before;
  }

  class TimerManager {
    var timers: seq<Timer>
    var nextSequence: nat
    /** Every timer this manager has created. */
    ghost var created: set<Timer>

    /** A timer is in the set exactly while its manager is set and it is not canceled. */
    ghost predicate Listed()
      reads this, created
    {
      && (forall i :: 0 <= i < |timers| ==> timers[i] in created)
      && (forall t :: t in created ==> (t in timers <==> Active(t)))
      && (forall t :: t in created ==> t.manager == this || t.manager == null)
    }

    ghost predicate Keyed()
      reads this, created
    {
      && (forall t :: t in created && t in timers ==> t.next >= t.ms && t.callback.Some?)
      && (forall t :: t in created ==> t.sequence < nextSequence)
      && (forall t, u :: t in created && u in created && t.sequence == u.sequence ==> t == u)
    }

    ghost predicate Valid()
      reads this, created
    {
      Listed() && Sorted(timers) && Keyed()
    }

    ghost predicate Active(t: Timer)
      reads t
    {
      t.manager == this && !t.canceled
    }

    constructor ()
      ensures Valid() && timers == [] && created == {}
    {
      timers, nextSequence, created := [], 0, {};
    }

    /** std::set::insert. */
    method Insert(timer: Timer) returns (k: nat)
      requires Sorted(timers)
      requires forall i :: 0 <= i < |timers| ==> timers[i].sequence != timer.sequence
      modifies this`timers
      ensures Sorted(timers) && Members(timers) == Members(old(timers)) + {timer}
      ensures forall t :: t in timers <==> t in old(timers) || t == timer
      ensures InsertedAt(old(timers), timers, timer, k)
    {
      k := 0;
      while k < |timers| && Less(timers[k], timer)
        invariant 0 <= k <= |timers|
        invariant forall i :: 0 <= i < k ==> Less(timers[i], timer)
      {
        k := k + 1;
      }
      assert forall i :: k <= i < |timers| ==> Less(timer, timers[i]);
      timers := timers[..k] + [timer] + timers[k..];
      assert InsertedAt(old(timers), timers, timer, k);
      InsertedSorted(old(timers), timers, timer, k);
    }

    /** std::set::find: by equivalence of keys, not by identity. */
    method Find(timer: Timer) returns (found: Option<nat>)
      requires Valid() && timer in created
      ensures found.Some? <==> timer in timers
      ensures found.Some? ==> found.value < |timers| && timers[found.value] == timer
    {
      var i := 0;
      while i < |timers|
        invariant 0 <= i <= |timers|
        invariant forall j :: 0 <= j < i ==> timers[j] != timer
      {
        if !Less(timers[i], timer) && !Less(timer, timers[i]) {
          return Some(i);
        }
        i := i + 1;
      }
      return None;
    }

    /** Keys are pairwise different, so no timer is in the set twice. */
    lemma NoDuplicates(list: seq<Timer>)
      requires Sorted(list)
      ensures forall i, j :: 0 <= i < j < |list| ==> list[i] != list[j]
    {
    }

    /** addTimer.  The answer says whether the event loop must be told. */
    method AddTimer(ms: nat, callback: Action, recurring: bool, now: nat) returns (timer: Timer, atFront: bool)
      requires Valid()
      modifies this
      ensures Valid() && fresh(timer) && created == old(created) + {timer}
      ensures Members(timers) == Members(old(timers)) + {timer}
      ensures timer.next == now + ms && timer.ms == ms
      ensures timer.recurring == recurring && timer.callback == Some(callback)
      ensures atFront <==> timers[0] == timer
    {
      timer := new Timer(this, ms, callback, recurring, now + ms, nextSequence);
      nextSequence := nextSequence + 1;
      atFront := timers == [] || Less(timer, timers[0]);
      var at := Insert(timer);
      FirstOf(old(timers), timers, timer, at);
      hide Less, InsertedAt, Sorted, Members;
      created := created + {timer};
      OneMore(timer);
    }

    /** A timer of this manager was created and inserted. */
    twostate lemma OneMore(new timer: Timer)
      requires old(Valid()) && Sorted(timers) && timer !in old(created) && created == old(created) + {timer}
      requires forall t :: t in timers <==> t in old(timers) || t == timer
      requires forall t :: t in old(created) ==>
                 t.manager == old(t.manager) && t.canceled == old(t.canceled) && t.callback == old(t.callback) &&
                 t.next == old(t.next) && t.ms == old(t.ms)
      requires timer.manager == this && !timer.canceled && timer.callback.Some? && timer.next >= timer.ms
      requires timer.sequence == old(nextSequence) && nextSequence == old(nextSequence) + 1
      ensures Valid()
    {
      hide Less;
      assert forall i :: 0 <= i < |timers| ==> timers[i] in timers;
      assert forall i :: 0 <= i < |old(timers)| ==> old(timers)[i] in old(timers);
    }

    /** getNextTimer. */
    method GetNextTimer(now: nat) returns (wait: nat)
      requires Valid()
      ensures timers == [] ==> wait == NEVER
      ensures forall t :: t in timers ==> now + wait <= t.next || (wait == 0 && timers[0].next <= now)
      ensures timers != [] ==> wait == if timers[0].next <= now then 0 else timers[0].next - now
    {
      if timers == [] {
        return NEVER;
      }
      var next := timers[0].next;
      return if next <= now then 0 else next - now;
    }

    /** cancelTimer.  It succeeds exactly for a timer that is in the set. */
    method CancelTimer(timer: Timer) returns (done: bool)
      requires Valid() && timer in created
      modifies this`timers, timer
      ensures Valid()
      ensures done <==> timer in old(timers)
      ensures Members(timers) == Members(old(timers)) - {timer}
      ensures done ==> timer.canceled && timer.manager == null && timer.callback == None
      ensures !done ==> timers == old(timers) && unchanged(timer)
      ensures timer.next == old(timer.next) && timer.ms == old(timer.ms)
    {
      if timer.manager != this || timer.canceled {
        return false;
      }
      var found := Find(timer);
      if found.None? {
        return false;
      }
      Erase(found.value);
      timer.canceled, timer.manager, timer.callback := true, null, None;
      return true;
    }

    /** The common part of refreshTimer and resetTimer: out, new deadline, in again. */
    method Rekey(timer: Timer, k: nat, ms: nat, next: nat) returns (atFront: bool, ghost at: nat)
      requires Sorted(timers) && k < |timers| && timers[k] == timer
      requires forall i, j :: 0 <= i < j < |timers| ==> timers[i].sequence != timers[j].sequence
      modifies this`timers, timer`next, timer`ms
      ensures Sorted(timers) && timer.next == next && timer.ms == ms
      ensures Members(timers) == Members(old(timers)) && forall t :: t in timers <==> t in old(timers)
      ensures timers != [] && (atFront <==> timers[0] == timer)
      ensures InsertedAt(old(timers)[..k] + old(timers)[k + 1..], timers, timer, at)
    {
      OtherSequences(timers, k);
      Erase(k);
      ghost var others := timers;
      hide Members, InsertedAt;
      timer.ms, timer.next := ms, next;
      assert Sorted(timers);
      atFront := timers == [] || Less(timer, timers[0]);
      at := Insert(timer);
      FirstOf(others, timers, timer, at);
      Restored(old(timers), others, timers, timer);
    }

    lemma OtherSequences(list: seq<Timer>, k: nat)
      requires k < |list| && forall i, j :: 0 <= i < j < |list| ==> list[i].sequence != list[j].sequence
      ensures var others := list[..k] + list[k + 1..];
              forall i :: 0 <= i < |others| ==> others[i].sequence != list[k].sequence
    {
      var others := list[..k] + list[k + 1..];
      forall i | 0 <= i < |others| ensures others[i] == list[if i < k then i else i + 1] {
      }
    }

    /** Only a key changed. */
    twostate lemma KeyChanged()
      requires old(Valid()) && Sorted(timers) && created == old(created) && nextSequence == old(nextSequence)
      requires forall t :: t in timers <==> t in old(timers)
      requires forall t :: t in created ==>
                 t.manager == old(t.manager) && t.canceled == old(t.canceled) && t.callback == old(t.callback)
      requires forall t :: t in created && t in timers ==> t.next >= t.ms
      ensures Valid()
    {
      hide Less;
      assert forall i :: 0 <= i < |timers| ==> timers[i] in timers;
    }

    lemma OwnSequences()
      requires Valid()
      ensures forall i, j :: 0 <= i < j < |timers| ==> timers[i].sequence != timers[j].sequence
    {
      NoDuplicates(timers);
    }

    /** After the insertion `timer` is first exactly when it was less than the first one. */
    lemma FirstOf(before: seq<Timer>, after: seq<Timer>, timer: Timer, k: nat)
      requires InsertedAt(before, after, timer, k) && timer !in before
      ensures after[0] == timer <==> before == [] || Less(timer, before[0])
    {
      if k > 0 {
        assert after[0] == before[0] && Less(before[0], timer);
      }
    }

    lemma Restored(before: seq<Timer>, without: seq<Timer>, after: seq<Timer>, timer: Timer)
      requires timer in before
      requires forall t :: t in without <==> t in before && t != timer
      requires forall t :: t in after <==> t in without || t == timer
      ensures forall t :: t in after <==> t in before
      ensures Members(after) == Members(before)
    {
      assert forall t :: t in Members(after) <==> t in after;
      assert forall t :: t in Members(before) <==> t in before;
    }

    /** std::set::erase of an iterator. */
    method Erase(k: nat)
      requires Sorted(timers) && k < |timers|
      modifies this`timers
      ensures timers == old(timers)[..k] + old(timers)[k + 1..]
      ensures Sorted(timers) && Members(timers) == Members(old(timers)) - {old(timers)[k]}
      ensures forall t :: t in timers <==> t in old(timers) && t != old(timers)[k]
    {
      NoDuplicates(timers);
      timers := timers[..k] + timers[k + 1..];
      ErasedSorted(old(timers), timers, k);
    }

    method RefreshTimer(timer: Timer, now: nat) returns (done: bool, atFront: bool)
      requires Valid() && timer in created
      modifies this`timers, timer`next, timer`ms
      ensures Valid() && timer.ms == old(timer.ms)
      ensures done <==> timer in old(timers)
      ensures Members(timers) == Members(old(timers))
      ensures timer.next == if done then now + timer.ms else old(timer.next)
      ensures atFront <==> done && timers[0] == timer
    {
      if timer.manager != this || timer.canceled {
        return false, false;
      }
      var found := Find(timer);
      if found.None? {
        return false, false;
      }
      OwnSequences();
      ghost var at;
      atFront, at := Rekey(timer, found.value, timer.ms, now + timer.ms);
      KeyChanged();
      return true, atFront;
    }

    /** Counting from the old start never goes below zero: a deadline is never before its interval. */
    method ResetTimer(timer: Timer, ms: nat, fromNow: bool, now: nat) returns (done: bool, atFront: bool)
      requires Valid() && timer in created
      modifies this`timers, timer`next, timer`ms
      ensures Valid()
      ensures done <==> timer in old(timers)
      ensures Members(timers) == Members(old(timers))
      ensures done ==> timer.ms == ms && timer.next == (if fromNow then now else old(timer.next) - old(timer.ms)) + ms
      ensures !done ==> timer.ms == old(timer.ms) && timer.next == old(timer.next)
      ensures atFront <==> done && timers[0] == timer
    {
      if timer.manager != this || timer.canceled {
        return false, false;
      }
      var found := Find(timer);
      if found.None? {
        return false, false;
      }
      var oldMs := timer.ms;
      var start := if fromNow then now else timer.next - oldMs;
      OwnSequences();
      ghost var at;
      atFront, at := Rekey(timer, found.value, ms, start + ms);
      KeyChanged();
      return true, atFront;
    }

    /** The number of timers due: they come first. */
    ghost function DueCount(list: seq<Timer>, now: nat): (n: nat)
      reads list
      ensures n <= |list|
    {
      if list == [] || list[0].next > now then 0 else 1 + DueCount(list[1..], now)
    }

    lemma {:induction false} DueFirst(list: seq<Timer>, now: nat)
      requires Sorted(list)
      ensures forall i :: 0 <= i < |list| ==> (list[i].next <= now <==> i < DueCount(list, now))
      decreases |list|
    {
      if list != [] {
        assert Sorted(list[1..]);
        DueFirst(list[1..], now);
        forall i | 0 <= i < |list| ensures list[i].next <= now <==> i < DueCount(list, now) {
          if i > 0 {
            assert list[i] == list[1..][i - 1];
            assert Less(list[0], list[i]);
          }
        }
      }
    }

    /** What a due timer looks like after it fired. */
    twostate predicate Fired(timer: Timer, now: nat)
      reads timer
    {
      if timer.recurring then
        timer.next == now + (if timer.ms > 1 then timer.ms else 1) && timer.ms == old(timer.ms) &&
        timer.callback == old(timer.callback) && timer.manager == old(timer.manager) && !timer.canceled
      else
        timer.canceled && timer.manager == null
    }

    /** One round of listExpiredCallbacks, for a first timer that is due.  It is not canceled, so its
        callback is always emitted. */
    method FireFirst(now: nat) returns (callback: Action, ghost k: nat)
      requires Valid() && timers != [] && timers[0].next <= now
      modifies this`timers, timers[0]
      ensures Valid() && old(timers[0].callback) == Some(callback) && Fired(old(timers)[0], now)
      ensures k < |old(timers)|
      ensures timers == if old(timers)[0].recurring
                        then old(timers)[1..k + 1] + [old(timers)[0]] + old(timers)[k + 1..] else old(timers)[1..]
      ensures old(timers)[0].recurring ==>
                old(timers)[0].next > now && forall i :: k < i < |old(timers)| ==> old(timers)[i].next > now
    {
      var timer := timers[0];
      assert !timer.canceled && timer.callback.Some?;
      callback := timer.callback.value;
      k := 0;
      if timer.recurring {
        k := FireRecurring(timer, now);
      } else {
        FireOnce();
      }
    }

    method FireRecurring(timer: Timer, now: nat) returns (ghost k: nat)
      requires Valid() && timers != [] && timers[0] == timer && timer.next <= now && timer.recurring
      modifies this`timers, timer`next, timer`ms
      ensures Valid() && k < |old(timers)|
      ensures timer.ms == old(timer.ms) && timer.next == now + (if timer.ms > 1 then timer.ms else 1)
      ensures timers == old(timers)[1..k + 1] + [timer] + old(timers)[k + 1..]
      ensures forall i :: k < i < |old(timers)| ==> old(timers)[i].next > now
    {
      hide Less, Members, InsertedAt;
      OwnSequences();
      ghost var others := timers[..0] + timers[1..];
      var _, at := Rekey(timer, 0, timer.ms, now + if timer.ms > 1 then timer.ms else 1);
      k := at;
      KeyChanged();
      Moved(old(timers), others, timers, timer, k, now);
    }

    /** The first timer went back in behind the one at `k`. */
    lemma Moved(before: seq<Timer>, others: seq<Timer>, after: seq<Timer>, timer: Timer, k: nat, now: nat)
      requires before != [] && others == before[..0] + before[1..] && InsertedAt(others, after, timer, k)
      requires timer.next > now
      ensures k < |before| && after == before[1..k + 1] + [timer] + before[k + 1..]
      ensures forall i :: k < i < |before| ==> before[i].next > now
    {
      assert others[..k] == before[1..k + 1] && others[k..] == before[k + 1..];
      forall i | k < i < |before| ensures before[i].next > now {
        assert before[i] == others[i - 1];
        assert Less(timer, others[i - 1]);
      }
    }

    method FireOnce()
      requires Valid() && timers != []
      modifies this`timers, timers[0]
      ensures Valid() && timers == old(timers)[1..]
      ensures old(timers)[0].canceled && old(timers)[0].manager == null
    {
      FirstListed();
      hide Less, Members, Listed, Keyed, Sorted;
      var timer := timers[0];
      Erase(0);
      WithoutFirst(old(timers));
      timer.canceled, timer.manager, timer.callback := true, null, None;
      OneLeft(timer);
    }

    lemma FirstListed()
      requires Valid() && timers != []
      ensures timers[0] in created && Sorted(timers)
    {
    }

    lemma WithoutFirst(list: seq<Timer>)
      requires list != []
      ensures list[..0] + list[1..] == list[1..]
    {
    }

    twostate lemma OneLeft(timer: Timer)
      requires old(Valid()) && Sorted(timers) && created == old(created) && nextSequence == old(nextSequence)
      requires forall t :: t in timers <==> t in old(timers) && t != timer
      requires forall t :: t in created && t != timer ==>
                 t.manager == old(t.manager) && t.canceled == old(t.canceled) && t.callback == old(t.callback) &&
                 t.next == old(t.next) && t.ms == old(t.ms)
      requires timer in created && timer.manager == null
      ensures Valid()
    {
      hide Less;
      assert forall i :: 0 <= i < |timers| ==> timers[i] in timers;
    }

    /** After `p` rounds: the timers still due come first, the others are later than `now`, and of
        the `p` that fired the recurring ones are still there. */
    ghost predicate Progress(start: seq<Timer>, n: nat, p: nat, list: seq<Timer>, now: nat)
      reads list, start
    {
      && (forall i, j :: 0 <= i < j < |start| ==> start[i] != start[j])
      && p <= n <= |start| && n - p <= |list| && list[..n - p] == start[p..n]
      && (forall i :: n - p <= i < |list| ==> list[i].next > now)
      && (forall i :: p <= i < n ==> start[i].next <= now)
      && Survivors(start, p, list)
    }

    predicate Survivors(start: seq<Timer>, p: nat, list: seq<Timer>) {
      && (forall i :: 0 <= i < |start| ==> (start[i] in list <==> (i < p ==> start[i].recurring)))
      && (forall t :: t in list ==> t in start)
    }

    /** listExpiredCallbacks: each due timer fires once, in the order of the set; one-shot timers
        leave, recurring ones move past `now`, and the others are not touched. */
    method ListExpired(now: nat) returns (callbacks: seq<Action>)
      requires Valid()
      modifies this`timers, created
      ensures Valid()
      ensures var n := old(DueCount(timers, now));
              && |callbacks| == n
              && (forall i :: 0 <= i < n ==> old(timers[i].callback) == Some(callbacks[i]))
              && (forall i :: 0 <= i < n ==> Fired(old(timers[i]), now))
              && (forall i :: n <= i < |old(timers)| ==> Untouched(old(timers[i])))
      ensures Progress(old(timers), old(DueCount(timers, now)), old(DueCount(timers, now)), timers, now)
    {
      callbacks := [];
      ghost var start := timers;
      ghost var n := DueCount(timers, now);
      hide Valid, DueCount, Less, Sorted, Progress, Survivors;
      NoProgress(now);
      while timers != [] && timers[0].next <= now
        invariant Valid() && |callbacks| <= n <= |start| && Progress(start, n, |callbacks|, timers, now)
        invariant forall i :: |callbacks| <= i < |start| ==> Untouched(start[i])
        invariant forall i :: 0 <= i < |callbacks| ==> Fired(start[i], now)
        invariant forall i :: 0 <= i < |callbacks| ==> old(timers[i].callback) == Some(callbacks[i])
        decreases n - |callbacks|
      {
        HeadDue(start, n, |callbacks|, timers, now);
        FirstCreated();
        var callback := FireNext(start, n, |callbacks|, now);
        callbacks := callbacks + [callback];
      }
      AllFired(start, n, |callbacks|, timers, now);
    }

    lemma NoProgress(now: nat)
      requires Valid()
      ensures DueCount(timers, now) <= |timers| && Progress(timers, DueCount(timers, now), 0, timers, now)
      ensures forall i, j :: 0 <= i < j < |timers| ==> timers[i] != timers[j]
    {
      DueFirst(timers, now);
      NoDuplicates(timers);
    }

    lemma FirstCreated()
      requires Valid() && timers != []
      ensures timers[0] in created
    {
    }

    /** A round, seen as progress. */
    method FireNext(ghost start: seq<Timer>, ghost n: nat, ghost p: nat, now: nat) returns (callback: Action)
      requires Valid() && Progress(start, n, p, timers, now) && timers != [] && timers[0].next <= now
      modifies this`timers, timers[0]
      ensures Valid() && p < n && old(timers)[0] == start[p] && Progress(start, n, p + 1, timers, now)
      ensures old(timers[0].callback) == Some(callback) && Fired(start[p], now)
    {
      HeadDue(start, n, p, timers, now);
      NoDuplicates(timers);
      ghost var before := timers;
      assert forall i :: p < i < n ==> start[i] != start[p];
      assert forall i :: 0 < i < |before| ==> before[i] != before[0];
      hide Valid, Less, Sorted, Survivors;
      var emitted, k := FireFirst(now);
      callback := emitted;
      NextRound(start, n, p, before, timers, k, now);
    }

    lemma AllFired(start: seq<Timer>, n: nat, p: nat, list: seq<Timer>, now: nat)
      requires Progress(start, n, p, list, now) && (list == [] || list[0].next > now)
      ensures p == n
    {
      if p < n {
        HeadStays(list, start[p..n]);
        assert false;
      }
    }

    lemma HeadStays(list: seq<Timer>, due: seq<Timer>)
      requires 0 < |due| <= |list| && list[..|due|] == due
      ensures list[0] == due[0]
    {
      assert list[0] == list[..|due|][0];
    }

    lemma HeadDue(start: seq<Timer>, n: nat, p: nat, list: seq<Timer>, now: nat)
      requires Progress(start, n, p, list, now) && list != [] && list[0].next <= now
      ensures p < n && list[0] == start[p]
    {
      if p < n {
        assert list[0] == list[..n - p][0];
      }
    }

    lemma LeftInOrder(before: seq<Timer>, after: seq<Timer>, k: nat, left: nat, due: seq<Timer>, now: nat)
      requires 0 < left <= |before| && before[..left] == due && k < |before|
      requires after == if before[0].recurring then before[1..k + 1] + [before[0]] + before[k + 1..] else before[1..]
      requires forall i :: 0 < i < left ==> before[i].next <= now
      requires forall i :: left <= i < |before| ==> before[i].next > now
      requires before[0].recurring ==> before[0].next > now && forall i :: k < i < |before| ==> before[i].next > now
      ensures left - 1 <= |after| && after[..left - 1] == due[1..]
      ensures forall i :: left - 1 <= i < |after| ==> after[i].next > now
    {
      if before[0].recurring {
        assert left == 1 || before[left - 1].next <= now;
        forall i | 0 <= i < |after|
          ensures after[i] == if i < k then before[i + 1] else if i == k then before[0] else before[i]
        {
        }
        assert forall i :: 0 <= i < left - 1 ==> after[i] == due[i + 1];
      }
    }

    lemma SameButFirst(before: seq<Timer>, after: seq<Timer>, k: nat)
      requires k < |before| && forall i, j :: 0 <= i < j < |before| ==> before[i] != before[j]
      requires after == if before[0].recurring then before[1..k + 1] + [before[0]] + before[k + 1..] else before[1..]
      ensures forall t :: t in after <==> t in before && (t == before[0] ==> t.recurring)
    {
      forall t ensures t in after <==> t in before && (t == before[0] ==> t.recurring) {
        assert before == [before[0]] + before[1..k + 1] + before[k + 1..];
      }
    }

    lemma NextRound(start: seq<Timer>, n: nat, p: nat, before: seq<Timer>, after: seq<Timer>, k: nat, now: nat)
      requires p < n <= |start| && n - p <= |before| && before[..n - p] == start[p..n] && k < |before|
      requires forall i, j :: 0 <= i < j < |before| ==> before[i] != before[j]
      requires forall i, j :: 0 <= i < j < |start| ==> start[i] != start[j]
      requires forall i :: p < i < n ==> start[i].next <= now
      requires forall i :: n - p <= i < |before| ==> before[i].next > now
      requires Survivors(start, p, before)
      requires after == if before[0].recurring then before[1..k + 1] + [before[0]] + before[k + 1..] else before[1..]
      requires before[0].recurring ==> before[0].next > now && forall i :: k < i < |before| ==> before[i].next > now
      ensures Progress(start, n, p + 1, after, now)
    {
      hide Survivors;
      StillDue(start, n, p, before, now);
      LeftInOrder(before, after, k, n - p, start[p..n], now);
      assert start[p + 1..n] == start[p..n][1..];
      SameButFirst(before, after, k);
      OneSurvivorLess(start, p, before, after);
    }

    lemma StillDue(start: seq<Timer>, n: nat, p: nat, before: seq<Timer>, now: nat)
      requires p < n <= |start| && n - p <= |before| && before[..n - p] == start[p..n]
      requires forall i :: p < i < n ==> start[i].next <= now
      ensures before[0] == start[p] && forall i :: 0 < i < n - p ==> before[i].next <= now
    {
      forall i | 0 <= i < n - p ensures before[i] == start[p + i] {
        assert before[i] == before[..n - p][i];
      }
    }

    lemma OneSurvivorLess(start: seq<Timer>, p: nat, before: seq<Timer>, after: seq<Timer>)
      requires p < |start| && before != [] && before[0] == start[p] && Survivors(start, p, before)
      requires forall i, j :: 0 <= i < j < |start| ==> start[i] != start[j]
      requires forall t :: t in after <==> t in before && (t == before[0] ==> t.recurring)
      ensures Survivors(start, p + 1, after)
    {
    }

    twostate predicate Untouched(timer: Timer)
      reads timer
    {
      timer.next == old(timer.next) && timer.callback == old(timer.callback) && timer.ms == old(timer.ms) &&
      timer.manager == old(timer.manager)
    }

    twostate lemma NoneLeft()
      requires old(Keyed()) && timers == [] && created == old(created) && nextSequence == old(nextSequence)
      ensures Sorted(timers) && Keyed()
    {
    }

    method ClearTimers()
      requires Valid()
      modifies this`timers, timers
      ensures Valid() && timers == []
      ensures forall t :: t in created ==> !Active(t)
    {
      hide Less, Sorted, Keyed;
      var i := 0;
      while i < |timers|
        invariant 0 <= i <= |timers|
        invariant forall j :: 0 <= j < i ==> timers[j].canceled && timers[j].manager == null
        invariant forall t :: t in created && t !in timers ==> !Active(t)
        invariant forall t :: t in created ==> t.manager == this || t.manager == null
        modifies timers
      {
        timers[i].canceled, timers[i].manager, timers[i].callback := true, null, None;
        i := i + 1;
      }
      timers := [];
      NoneLeft();
    }
  }
}
