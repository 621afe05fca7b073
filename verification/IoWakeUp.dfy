/** No lost wake-up.  While an unpinned task is queued, or a timer is due before any blocked
    worker would wake by itself, there is always a token in the eventfd, a thread about to write
    one, or a worker that looks again before it blocks. */
module IoWakeUp {
  import opened Wrappers
  import opened IoMachine
  import opened IoShapes
  import opened Sets

  /** What one scan of the queue can start: a callback, or a suspended coroutine however often
      it is queued. */
  datatype Key = OfCallback(id: nat) | OfFiber(fiber: nat)

  function KeyOf(task: Task): Key {
    if task.Callback? then OfCallback(task.id) else OfFiber(task.fiber)
  }

  predicate RunsUnpinned(actor: Actor) {
    (actor.pc.Taken? || actor.pc.Running?) && !actor.pc.pinned
  }

  predicate RunsPinned(actor: Actor) {
    (actor.pc.Taken? || actor.pc.Running?) && actor.pc.pinned
  }

  /** Coroutines that some worker runs as an unpinned task. */
  function UnpinnedRuns(actors: seq<Actor>): set<nat> {
    set a | 0 <= a < |actors| && RunsUnpinned(actors[a]) :: actors[a].pc.fiber
  }

  function PinnedRuns(actors: seq<Actor>): set<nat> {
    set a | 0 <= a < |actors| && RunsPinned(actors[a]) :: actors[a].pc.fiber
  }

  /** The unpinned work that waits in the queue. */
  function WantedIn(queue: seq<Task>, running: set<nat>): set<Key> {
    set i | 0 <= i < |queue| && queue[i].pin.None? && (queue[i].Resume? ==> queue[i].fiber !in running) ::
      KeyOf(queue[i])
  }

  function Wanted(s: State): set<Key> {
    WantedIn(s.queue, UnpinnedRuns(s.actors))
  }

  /** The thread's next action is to write a token. */
  predicate Owing(actor: Actor) {
    actor.todo != [] && actor.todo[0].Tickle?
  }

  /** A worker that scans the queue before it can block, not counting one that is busy with a task
      and one whose batch still holds the token it was woken by. */
  predicate Rescans(actor: Actor) {
    match actor.pc
    case Fetch => true
    case Handle(batch, ready) => ready && Tickled !in batch
    case Inspect(_, ready) => ready
    case _ => false
  }

  /** The same, including workers that are busy. */
  predicate Looking(actor: Actor) {
    match actor.pc
    case Fetch => true
    case Taken(_, _) => true
    case Running(_, _) => true
    case Handle(_, ready) => ready
    case Inspect(_, ready) => ready
    case _ => false
  }

  function Help(actor: Actor): nat {
    (if Owing(actor) then 1 else 0) +
    (if Rescans(actor) || RunsPinned(actor) then 1 else 0)
  }

  function Helpers(actors: seq<Actor>): nat {
    if actors == [] then 0 else Helpers(actors[..|actors| - 1]) + Help(actors[|actors| - 1])
  }

  lemma {:induction false} HelpersUpdate(actors: seq<Actor>, a: nat, actor: Actor)
    requires a < |actors|
    ensures Helpers(actors[a := actor]) == Helpers(actors) - Help(actors[a]) + Help(actor)
  {
    hide Help;
    var n := |actors| - 1;
    if a == n {
      assert actors[a := actor][..n] == actors[..n];
    } else {
      HelpersUpdate(actors[..n], a, actor);
      assert actors[a := actor][..n] == actors[..n][a := actor];
    }
  }

  lemma {:induction false} PinnedRunsHelp(actors: seq<Actor>)
    ensures |PinnedRuns(actors)| <= Helpers(actors)
  {
    if actors == [] {
      assert PinnedRuns(actors) == {};
    } else {
      var n := |actors| - 1;
      PinnedRunsHelp(actors[..n]);
      var last := actors[n].pc;
      if RunsPinned(actors[n]) {
        assert PinnedRuns(actors) == PinnedRuns(actors[..n]) + {last.fiber} by {
          assert actors[n] == actors[|actors| - 1];
        }
      } else {
        assert PinnedRuns(actors) == PinnedRuns(actors[..n]);
      }
    }
  }

  // ----- the invariants

  /** As many tokens, owed tokens and scanning workers as there are tasks to start, but for `n`.  A
      worker may also spend a token on a task pinned to it. */
  predicate EnoughWakeUps(s: State, n: nat) {
    |Wanted(s)| <= s.tokens + Helpers(s.actors) + n
  }

  predicate Helps(actor: Actor) {
    Owing(actor) || Looking(actor)
  }

  predicate SomeoneHelps(s: State) {
    s.tokens > 0 || exists a :: 0 <= a < |s.actors| && Helps(s.actors[a])
  }

  predicate TasksCovered(s: State) {
    Wanted(s) != {} ==> SomeoneHelps(s)
  }

  /** A worker that samples the earliest deadline before it blocks. */
  predicate Awake(actor: Actor) {
    match actor.pc
    case Outside => false
    case Waiting(_) => false
    case Left => false
    case Inspect(stage, _) => stage != Queue
    case _ => true
  }

  /** This thread sees to it that a timer due at `due` is noticed in time. */
  predicate Attends(actor: Actor, due: nat) {
    || Owing(actor)
    || Awake(actor)
    || (actor.pc.Waiting? && actor.pc.deadline.Some? && actor.pc.deadline.value <= due)
  }

  predicate Covered(s: State, due: nat) {
    s.tokens > 0 || exists a :: 0 <= a < |s.actors| && Attends(s.actors[a], due)
  }

  predicate TimersCovered(s: State) {
    forall t :: t in s.timers ==> Covered(s, s.timers[t].due)
  }

  predicate BatchesOk(s: State) {
    s.wakeCount > 0 && forall a :: 0 <= a < |s.actors| && s.actors[a].pc.Handle? ==> OneTickle(s.actors[a].pc.batch)
  }

  // ----- what a step of one thread changes

  /** The thread goes on with the unpinned coroutine it has, or with none. */
  predicate SameRun(before: Actor, after: Actor) {
    || after.pc == before.pc
    || (!RunsUnpinned(before) && !RunsUnpinned(after))
    || (RunsUnpinned(before) && RunsUnpinned(after) && after.pc.fiber == before.pc.fiber)
  }

  lemma RunsUnchanged(actors: seq<Actor>, a: nat, actor: Actor)
    requires a < |actors|
    requires SameRun(actors[a], actor)
    ensures UnpinnedRuns(actors[a := actor]) == UnpinnedRuns(actors)
  {
    var after := actors[a := actor];
    forall b | 0 <= b < |actors|
      ensures RunsUnpinned(after[b]) <==> RunsUnpinned(actors[b])
      ensures RunsUnpinned(actors[b]) ==> after[b].pc.fiber == actors[b].pc.fiber
    {
      assert after[b] == if b == a then actor else actors[b];
    }
  }

  /** The thread changes, the queue does not, and no unpinned run starts or ends. */
  lemma CountKept(s: State, t: State, a: nat, actor: Actor, n: nat)
    requires EnoughWakeUps(s, n) && a < |s.actors| && t.actors == s.actors[a := actor]
    requires t.queue == s.queue
    requires SameRun(s.actors[a], actor)
    requires s.tokens + Help(s.actors[a]) <= t.tokens + Help(actor)
    ensures EnoughWakeUps(t, n)
    ensures Wanted(t) == Wanted(s)
  {
    hide Help, Helpers, UnpinnedRuns, WantedIn;
    HelpersUpdate(s.actors, a, actor);
    RunsUnchanged(s.actors, a, actor);
  }

  lemma HelpKept(s: State, t: State, a: nat, actor: Actor)
    requires SomeoneHelps(s) && a < |s.actors| && t.actors == s.actors[a := actor]
    requires Helps(s.actors[a]) ==> Helps(actor) || t.tokens > 0
    requires s.tokens > 0 ==> t.tokens > 0 || Helps(actor)
    ensures SomeoneHelps(t)
  {
    hide Helps;
    if s.tokens == 0 {
      var b :| 0 <= b < |s.actors| && Helps(s.actors[b]);
      assert b != a ==> t.actors[b] == s.actors[b];
    }
    assert t.actors[a] == actor;
  }

  lemma CoverKept(s: State, t: State, a: nat, actor: Actor, due: nat)
    requires Covered(s, due) && a < |s.actors| && t.actors == s.actors[a := actor]
    requires Attends(s.actors[a], due) ==> Attends(actor, due) || t.tokens > 0
    requires s.tokens > 0 ==> t.tokens > 0 || Attends(actor, due)
    ensures Covered(t, due)
  {
    hide Attends;
    if s.tokens == 0 {
      var b :| 0 <= b < |s.actors| && Attends(s.actors[b], due);
      assert b != a ==> t.actors[b] == s.actors[b];
    }
    assert t.actors[a] == actor;
  }

  predicate TasksOk(s: State, n: nat) {
    EnoughWakeUps(s, n) && TasksCovered(s)
  }

  /** A step of one thread that leaves the queue alone and gives up no help it does not replace. */
  lemma ThreadKeepsTasks(s: State, t: State, a: nat, actor: Actor, n: nat)
    requires TasksOk(s, n) && a < |s.actors| && t.actors == s.actors[a := actor]
    requires t.queue == s.queue
    requires SameRun(s.actors[a], actor)
    requires s.tokens + Help(s.actors[a]) <= t.tokens + Help(actor)
    requires Helps(s.actors[a]) ==> Helps(actor) || t.tokens > 0
    requires s.tokens > 0 ==> t.tokens > 0 || Helps(actor)
    ensures TasksOk(t, n)
  {
    hide Help, Helps, Wanted, SomeoneHelps, EnoughWakeUps;
    CountKept(s, t, a, actor, n);
    if Wanted(t) != {} {
      HelpKept(s, t, a, actor);
    }
  }

  lemma NothingWanted(s: State, n: nat)
    requires s.queue == []
    ensures TasksOk(s, n)
  {
    hide Helpers;
    assert Wanted(s) == {};
  }

  lemma WantedMore(queue: seq<Task>, more: seq<Task>, running: set<nat>)
    ensures |WantedIn(queue + more, running)| <= |WantedIn(queue, running)| + |more|
    decreases |more|
  {
    hide KeyOf;
    if more == [] {
      assert queue + more == queue;
    } else {
      var n := |more| - 1;
      WantedMore(queue, more[..n], running);
      WantedOneMore(queue + more[..n], more[n], running);
      assert queue + more == queue + more[..n] + [more[n]];
    }
  }

  lemma WantedOneMore(queue: seq<Task>, task: Task, running: set<nat>)
    ensures |WantedIn(queue + [task], running)| <= |WantedIn(queue, running)| + 1
  {
    hide KeyOf;
    var before, after := WantedIn(queue, running), WantedIn(queue + [task], running);
    forall k | k in after ensures k in before + {KeyOf(task)} {
      var i :| 0 <= i < |queue + [task]| && KeyOf((queue + [task])[i]) == k && (queue + [task])[i].pin.None? &&
        ((queue + [task])[i].Resume? ==> (queue + [task])[i].fiber !in running);
      if i < |queue| {
        assert queue[i] == (queue + [task])[i];
      }
    }
    SubsetSize(after, before + {KeyOf(task)});
  }

  /** Tasks enter the queue and the thread that pushed them owes a token. */
  lemma PushKeepsTasks(s: State, t: State, a: nat, actor: Actor, tasks: seq<Task>, n: nat)
    requires TasksOk(s, n) && a < |s.actors| && t.actors == s.actors[a := actor] && tasks != []
    requires t.queue == s.queue + tasks && t.tokens == s.tokens
    requires actor.pc == s.actors[a].pc && !Owing(s.actors[a]) && Owing(actor)
    ensures TasksOk(t, n + |tasks| - 1)
  {
    hide WantedIn, UnpinnedRuns, Helpers;
    RunsUnchanged(s.actors, a, actor);
    WantedMore(s.queue, tasks, UnpinnedRuns(s.actors));
    HelpersUpdate(s.actors, a, actor);
    assert t.actors[a] == actor;
  }

  /** Entries without a wake-up of their own that a call adds: all but one of a batch. */
  function CallExtra(call: Call): nat {
    if call.DoPostBatch? && call.tasks != [] then |call.tasks| - 1 else 0
  }

  /** And a move: the wake-up is spent on a coroutine that another worker has taken already. */
  function MoveExtra(s: State, move: Move): nat {
    if move.DoTake? && move.i < |s.queue| && TakenAgain(s, s.queue[move.i]) then 1 else 0
  }

  predicate TakenAgain(s: State, task: Task) {
    task.pin.None? && task.Resume? && task.fiber in UnpinnedRuns(s.actors)
  }

  /** A call that leaves the queue alone. */
  lemma OtherCallKeepsTasks(s: State, t: State, a: nat, n: nat)
    requires TasksOk(s, n) && CallChanges(s, t, a) && QueueKept(s, t)
    requires s.actors[a].todo == []
    ensures TasksOk(t, n)
  {
    hide TasksOk;
    ThreadKeepsTasks(s, t, a, t.actors[a], n);
  }

  lemma PostBatchKeepsTasks(s: State, a: nat, tasks: seq<Task>, n: nat)
    requires TasksOk(s, n) && a < |s.actors| && s.actors[a].todo == [] && tasks != []
    ensures TasksOk(PostBatch(s, a, tasks), n + |tasks| - 1)
  {
    hide TasksOk;
    var t := PostBatch(s, a, tasks);
    PushKeepsTasks(s, t, a, t.actors[a], tasks, n);
  }

  lemma CallKeepsTasks(s: State, a: nat, call: Call, n: nat)
    requires TasksOk(s, n) && CallEnabled(s, a, call)
    ensures TasksOk(ApplyCall(s, a, call), n + CallExtra(call))
  {
    hide TasksOk, CallChanges, QueueKept, Post, PostBatch, AddEvent, DelEvent, CancelEvent, SetTimer, CancelTimer, Stop,
      Clear, Chosen;
    match call
    case DoPostBatch(tasks) => PostBatchKeepsTasks(s, a, tasks, n);
    case _ =>
      CallShape(s, a, call);
      OtherCallKeepsTasks(s, ApplyCall(s, a, call), a, n);
  }

  lemma SubtractKeepsTasks(s: State, a: nat, n: nat)
    requires TasksOk(s, n) && a < |s.actors|
    ensures TasksOk(Subtract(s, a), n)
  {
    hide TasksOk;
    var t := Subtract(s, a);
    ThreadKeepsTasks(s, t, a, t.actors[a], n);
  }

  lemma WriteTokenKeepsTasks(s: State, a: nat, n: nat)
    requires TasksOk(s, n) && s.wakeCount > 0 && a < |s.actors| && s.actors[a].todo != []
    ensures TasksOk(WriteToken(s, a), n)
  {
    hide TasksOk;
    var t := WriteToken(s, a);
    ThreadKeepsTasks(s, t, a, t.actors[a], n);
  }

  lemma PushOneKeepsTasks(s: State, a: nat, n: nat)
    requires TasksOk(s, n) && a < |s.actors| && s.actors[a].todo != [] && s.actors[a].todo[0].Schedule?
    ensures TasksOk(Push(s, a), n)
  {
    hide TasksOk, Moved;
    var t := Push(s, a);
    PushKeepsTasks(s, t, a, t.actors[a], [s.actors[a].todo[0].task], n);
  }

  lemma ContinueKeepsTasks(s: State, a: nat, n: nat)
    requires TasksOk(s, n) && s.wakeCount > 0 && ContinueEnabled(s, a)
    ensures TasksOk(ApplyContinue(s, a), n)
  {
    hide TasksOk, Push, Subtract, WriteToken;
    if s.actors[a].removed != {} {
      SubtractKeepsTasks(s, a, n);
    } else if s.actors[a].todo[0].Schedule? {
      PushOneKeepsTasks(s, a, n);
    } else {
      WriteTokenKeepsTasks(s, a, n);
    }
  }

  lemma RunsStart(actors: seq<Actor>, a: nat, actor: Actor)
    requires a < |actors| && !RunsUnpinned(actors[a]) && RunsUnpinned(actor)
    ensures UnpinnedRuns(actors[a := actor]) == UnpinnedRuns(actors) + {actor.pc.fiber}
  {
    var after := actors[a := actor];
    forall b | 0 <= b < |actors| ensures after[b] == if b == a then actor else actors[b] {
    }
    forall f | f in UnpinnedRuns(actors) ensures f in UnpinnedRuns(after) {
      var b :| 0 <= b < |actors| && RunsUnpinned(actors[b]) && actors[b].pc.fiber == f;
      assert RunsUnpinned(after[b]);
    }
    assert RunsUnpinned(after[a]);
  }

  lemma RunsEnd(actors: seq<Actor>, a: nat, actor: Actor)
    requires a < |actors| && RunsUnpinned(actors[a]) && !RunsUnpinned(actor)
    ensures UnpinnedRuns(actors) <= UnpinnedRuns(actors[a := actor]) + {actors[a].pc.fiber}
  {
    var after := actors[a := actor];
    forall f | f in UnpinnedRuns(actors) && f != actors[a].pc.fiber ensures f in UnpinnedRuns(after) {
      var b :| 0 <= b < |actors| && RunsUnpinned(actors[b]) && actors[b].pc.fiber == f;
      assert RunsUnpinned(after[b]);
    }
  }

  /** An unpinned task is started: one less to start, one worker less that scans. */
  lemma StartShrinksWanted(queue: seq<Task>, i: nat, running: set<nat>, fiber: nat)
    requires i < |queue| && queue[i].pin.None?
    requires forall j, k :: 0 <= j < k < |queue| ==> queue[j].id != queue[k].id
    requires queue[i].Resume? ==> queue[i].fiber == fiber && fiber !in running
    ensures |WantedIn(queue[..i] + queue[i + 1..], running + {fiber})| + 1 <= |WantedIn(queue, running)|
  {
    var rest := queue[..i] + queue[i + 1..];
    var before, after := WantedIn(queue, running), WantedIn(rest, running + {fiber});
    var key := KeyOf(queue[i]);
    assert key in before;
    forall k | k in after ensures k in before && k != key {
      var j :| 0 <= j < |rest| && KeyOf(rest[j]) == k && rest[j].pin.None? &&
        (rest[j].Resume? ==> rest[j].fiber !in running + {fiber});
      assert rest[j] == queue[if j < i then j else j + 1];
    }
    SubsetSize(after, before - {key});
  }

  lemma FewerWanted(queue: seq<Task>, i: nat, running: set<nat>)
    requires i < |queue|
    ensures WantedIn(queue[..i] + queue[i + 1..], running) <= WantedIn(queue, running)
  {
    var rest := queue[..i] + queue[i + 1..];
    forall j | 0 <= j < |rest| ensures rest[j] == queue[if j < i then j else j + 1] {
    }
  }

  lemma TakeKeepsTasks(s: State, a: nat, i: nat, fiber: nat, n: nat)
    requires TasksOk(s, n) && MoveEnabled(s, a, DoTake(i, fiber))
    requires forall j, k :: 0 <= j < k < |s.queue| ==> s.queue[j].id != s.queue[k].id
    ensures TasksOk(Take(s, a, i, fiber), n + MoveExtra(s, DoTake(i, fiber)))
  {
    hide WantedIn, Helpers, UnpinnedRuns, Moved, Eligible;
    var t := Take(s, a, i, fiber);
    var actor := t.actors[a];
    HelpersUpdate(s.actors, a, actor);
    if s.queue[i].pin.None? {
      RunsStart(s.actors, a, actor);
      if TakenAgain(s, s.queue[i]) {
        assert UnpinnedRuns(t.actors) == UnpinnedRuns(s.actors);
        FewerWanted(s.queue, i, UnpinnedRuns(s.actors));
        SubsetSize(Wanted(t), Wanted(s));
      } else {
        StartShrinksWanted(s.queue, i, UnpinnedRuns(s.actors), fiber);
      }
    } else {
      RunsUnchanged(s.actors, a, actor);
      FewerWanted(s.queue, i, UnpinnedRuns(s.actors));
      SubsetSize(Wanted(t), Wanted(s));
    }
    assert Helps(actor);
  }

  /** A run ends; the coroutine it ran in may be startable again. */
  lemma FinishKeepsTasks(s: State, a: nat, again: Option<Task>, n: nat)
    requires TasksOk(s, n) && MoveEnabled(s, a, DoFinish(again))
    ensures TasksOk(Finish(s, a, again), n)
  {
    hide WantedIn, Helpers, UnpinnedRuns;
    var t := Finish(s, a, again);
    var actor := t.actors[a];
    HelpersUpdate(s.actors, a, actor);
    if RunsUnpinned(s.actors[a]) {
      var fiber := s.actors[a].pc.fiber;
      RunsEnd(s.actors, a, actor);
      WantedWithout(s.queue, UnpinnedRuns(s.actors), UnpinnedRuns(t.actors), fiber);
    } else {
      RunsUnchanged(s.actors, a, actor);
    }
    assert Helps(actor);
  }

  lemma WantedWithout(queue: seq<Task>, running: set<nat>, after: set<nat>, fiber: nat)
    requires running <= after + {fiber}
    ensures |WantedIn(queue, after)| <= |WantedIn(queue, running)| + 1
  {
    SubsetSize(WantedIn(queue, after), WantedIn(queue, running) + {OfFiber(fiber)});
  }

  /** A scan that finds nothing leaves only coroutines that run as pinned tasks. */
  lemma FindNothingKeepsTasks(s: State, a: nat, n: nat)
    requires MoveEnabled(s, a, DoFindNothing)
    ensures TasksOk(FindNothing(s, a), n)
  {
    hide Helpers, Help, Eligible, UnpinnedRuns, WantedIn, PinnedRuns;
    var t := FindNothing(s, a);
    var pinned := PinnedRuns(t.actors);
    var keys := set f | f in pinned :: OfFiber(f);
    WantedPinned(s, a);
    KeysSize(pinned, keys);
    SubsetSize(Wanted(t), keys);
    PinnedRunsHelp(t.actors);
    if Wanted(t) != {} {
      var k :| k in Wanted(t);
      PinnedLook(t, k.fiber);
    }
  }

  lemma PinnedLook(s: State, fiber: nat)
    requires fiber in PinnedRuns(s.actors)
    ensures SomeoneHelps(s)
  {
    var b :| 0 <= b < |s.actors| && RunsPinned(s.actors[b]);
    assert Helps(s.actors[b]);
  }

  lemma WantedPinned(s: State, a: nat)
    requires MoveEnabled(s, a, DoFindNothing)
    ensures var t := FindNothing(s, a);
            forall k :: k in Wanted(t) ==> k.OfFiber? && k.fiber in PinnedRuns(t.actors)
  {
    var t := FindNothing(s, a);
    forall k | k in Wanted(t) ensures k.OfFiber? && k.fiber in PinnedRuns(t.actors) {
      var i :| 0 <= i < |t.queue| && KeyOf(t.queue[i]) == k && t.queue[i].pin.None? &&
        (t.queue[i].Resume? ==> t.queue[i].fiber !in UnpinnedRuns(t.actors));
      assert !Eligible(s, a, s.queue[i]);
      var b :| 0 <= b < |s.actors| && s.actors[b].pc.Running? && s.actors[b].pc.fiber == t.queue[i].fiber;
      assert t.actors[b] == s.actors[b];
      assert RunsPinned(t.actors[b]);
    }
  }

  lemma {:induction false} KeysSize(fibers: set<nat>, keys: set<Key>)
    requires keys == set f | f in fibers :: OfFiber(f)
    ensures |keys| <= |fibers|
    decreases |fibers|
  {
    if fibers == {} {
      assert keys == {};
    } else {
      var f :| f in fibers;
      var rest := set g | g in fibers - {f} :: OfFiber(g);
      KeysSize(fibers - {f}, rest);
      assert keys == rest + {OfFiber(f)};
    }
  }

  lemma RestOfBatch(batch: seq<Report>)
    requires OneTickle(batch) && batch != []
    ensures OneTickle(batch[1..])
    ensures Tickled in batch[1..] ==> Tickled in batch && batch[0] != Tickled
  {
    forall i | 0 <= i < |batch[1..]| ensures batch[1..][i] == batch[i + 1] {
    }
  }

  lemma HandleTickledKeepsTasks(s: State, a: nat, n: nat)
    requires TasksOk(s, n) && BatchesOk(s) && MoveEnabled(s, a, DoHandle) && s.actors[a].pc.batch[0].Tickled?
    ensures TasksOk(HandleOne(s, a), n)
  {
    hide TasksOk, OneTickle;
    RestOfBatch(s.actors[a].pc.batch);
    var t := HandleOne(s, a);
    ThreadKeepsTasks(s, t, a, t.actors[a], n);
  }

  lemma ReadyHelpsMore(before: Actor, after: Actor, batch: seq<Report>, rest: seq<Report>, ready: bool)
    requires before.pc == Handle(batch, ready) && before.todo == []
    requires after.pc.Handle? && after.pc.batch == rest && (ready ==> after.pc.ready)
    requires Tickled in rest ==> Tickled in batch
    ensures Help(before) <= Help(after)
    ensures Helps(before) ==> Helps(after)
  {
  }

  lemma HandleFdKeepsTasks(s: State, a: nat, n: nat)
    requires TasksOk(s, n) && BatchesOk(s) && MoveEnabled(s, a, DoHandle) && s.actors[a].pc.batch[0].Fd?
    ensures TasksOk(HandleOne(s, a), n)
  {
    hide TasksOk, OneTickle, Help, Helps, HandleOne;
    var batch := s.actors[a].pc.batch;
    RestOfBatch(batch);
    HandleFdShape(s, a);
    var actor := HandleOne(s, a).actors[a];
    ReadyHelpsMore(s.actors[a], actor, batch, batch[1..], s.actors[a].pc.ready);
    ThreadKeepsTasks(s, HandleOne(s, a), a, actor, n);
  }

  lemma HandleKeepsTasks(s: State, a: nat, n: nat)
    requires TasksOk(s, n) && BatchesOk(s) && MoveEnabled(s, a, DoHandle)
    ensures TasksOk(HandleOne(s, a), n)
  {
    hide TasksOk, BatchesOk, HandleOne;
    if s.actors[a].pc.batch[0].Tickled? {
      HandleTickledKeepsTasks(s, a, n);
    } else {
      HandleFdKeepsTasks(s, a, n);
    }
  }

  lemma InspectKeepsTasks(s: State, a: nat, n: nat)
    requires TasksOk(s, n) && !s.force && MoveEnabled(s, a, DoInspect)
    ensures TasksOk(InspectNext(s, a), n)
  {
    hide TasksOk;
    var t := InspectNext(s, a);
    if t.actors[a].pc.Left? {
      NothingWanted(t, n);
    } else {
      ThreadKeepsTasks(s, t, a, t.actors[a], n);
    }
  }

  lemma ExpireKeepsTasks(s: State, a: nat, now: nat, count: nat, n: nat)
    requires TasksOk(s, n) && a < |s.actors| && s.actors[a].pc.Handle? && Settled(s.actors[a])
    requires s.actors[a].pc.batch == []
    ensures TasksOk(Expire(s, a, now, count), n)
  {
    hide TasksOk, Advanced, NewCallbacks;
    var t := Expire(s, a, now, count);
    ThreadKeepsTasks(s, t, a, t.actors[a], n);
  }

  lemma QuietKeepsTasks(s: State, t: State, a: nat, move: Move, n: nat)
    requires TasksOk(s, n) && MoveChanges(s, t, a, move) && QuietChanges(s, t, a)
    requires move.DoStart? || move.DoBlock? || move.DoWake? || move.DoInterrupt? || move.DoEpollFailure?
    ensures TasksOk(t, n)
  {
    hide TasksOk;
    ThreadKeepsTasks(s, t, a, t.actors[a], n);
  }

  lemma MoveKeepsTasks(s: State, a: nat, move: Move, n: nat)
    requires TasksOk(s, n) && BatchesOk(s) && !s.force && MoveEnabled(s, a, move)
    requires forall j, k :: 0 <= j < k < |s.queue| ==> s.queue[j].id != s.queue[k].id
    ensures TasksOk(ApplyMove(s, a, move), n + MoveExtra(s, move))
  {
    hide TasksOk, BatchesOk, Eligible, Executing, Held, Due, Elements, HandleOne, InspectNext, Take, Finish, Expire,
      FindNothing, OneTickle, IsEarliest;
    match move
    case DoTake(i, fiber) => TakeKeepsTasks(s, a, i, fiber, n);
    case DoFindNothing => FindNothingKeepsTasks(s, a, n);
    case DoFinish(again) => FinishKeepsTasks(s, a, again, n);
    case DoHandle => HandleKeepsTasks(s, a, n);
    case DoInspect => InspectKeepsTasks(s, a, n);
    case DoExpire(now, order) => ExpireKeepsTasks(s, a, now, |order|, n);
    case _ =>
      MoveShape(s, a, move);
      QuietShape(s, a, move);
      QuietKeepsTasks(s, ApplyMove(s, a, move), a, move, n);
  }

  // ----- timers

  predicate AttendsNoLess(before: Actor, after: Actor) {
    || Owing(after)
    || Awake(after)
    || (!Owing(before) && !Awake(before) && (before.pc.Waiting? ==> after.pc == before.pc))
  }

  /** A step of one thread that brings no deadline forward and gives up no attention. */
  lemma ThreadKeepsTimers(s: State, t: State, a: nat, actor: Actor)
    requires TimersCovered(s) && a < |s.actors| && t.actors == s.actors[a := actor]
    requires forall x :: x in t.timers ==> x in s.timers && t.timers[x] == s.timers[x]
    requires AttendsNoLess(s.actors[a], actor) && s.tokens == t.tokens
    ensures TimersCovered(t)
  {
    forall x | x in t.timers ensures Covered(t, t.timers[x].due) {
      var due := t.timers[x].due;
      assert Covered(s, due);
      if Owing(actor) || Awake(actor) {
        assert Attends(t.actors[a], due);
      } else {
        CoverKept(s, t, a, actor, due);
      }
    }
  }

  lemma TokenCoversTimers(t: State)
    requires t.tokens > 0
    ensures TimersCovered(t)
  {
  }

  lemma CoverGrows(s: State, due: nat, later: nat)
    requires Covered(s, due) && due <= later
    ensures Covered(s, later)
  {
    if s.tokens == 0 {
      var b :| 0 <= b < |s.actors| && Attends(s.actors[b], due);
      assert Attends(s.actors[b], later);
    }
  }

  /** Whoever owes a token or is awake covers every timer. */
  lemma AttendedByOne(t: State, a: nat)
    requires a < |t.actors| && (Owing(t.actors[a]) || Awake(t.actors[a]))
    ensures TimersCovered(t)
  {
    forall x | x in t.timers ensures Covered(t, t.timers[x].due) {
      assert Attends(t.actors[a], t.timers[x].due);
    }
  }

  lemma SetTimerKeepsTimers(s: State, a: nat, id: nat, timing: Timing)
    requires TimersCovered(s) && CallEnabled(s, a, DoSetTimer(id, timing))
    ensures TimersCovered(SetTimer(s, a, id, timing))
  {
    hide Covered;
    var t := SetTimer(s, a, id, timing);
    var others := Remaining(s.timers, id);
    if AtFront(others, id, timing.due) {
      AttendedByOne(t, a);
    } else {
      var f :| f in others && !(timing.due < others[f].due || (timing.due == others[f].due && id < f));
      forall x | x in t.timers ensures Covered(t, t.timers[x].due) {
        var y := if x == id then f else x;
        assert Covered(s, s.timers[y].due);
        CoverGrows(s, s.timers[y].due, t.timers[x].due);
        CoverKept(s, t, a, t.actors[a], t.timers[x].due);
      }
    }
  }

  lemma CallKeepsTimers(s: State, a: nat, call: Call)
    requires TimersCovered(s) && CallEnabled(s, a, call)
    ensures TimersCovered(ApplyCall(s, a, call))
  {
    hide TimersCovered, AtFront, CallInProgress, Chosen, Handlers, Ids, Without, Moved, SetTimer, Calls;
    var t := ApplyCall(s, a, call);
    match call
    case DoSetTimer(id, timing) => SetTimerKeepsTimers(s, a, id, timing);
    case DoClear => NoTimers(t);
    case DoPostBatch(_) => AttendedByOne(t, a);
    case DoAddEvent(_, _) => AttendedByOne(t, a);
    case DoDelEvent(_, _, _) => AttendedByOne(t, a);
    case DoStop => AttendedByOne(t, a);
    case DoCancelEvent(fd, read, write) =>
      hide AttendsNoLess;
      CancelAttends(s, a, Chosen(s.slots, fd, read, write));
      ThreadKeepsTimers(s, t, a, t.actors[a]);
    case _ => ThreadKeepsTimers(s, t, a, t.actors[a]);
  }

  lemma CancelAttends(s: State, a: nat, keys: seq<Slot>)
    requires a < |s.actors| && s.actors[a].todo == [] && forall i :: 0 <= i < |keys| ==> keys[i] in s.slots
    ensures AttendsNoLess(s.actors[a], CancelEvent(s, a, keys).actors[a])
  {
  }

  lemma NoTimers(s: State)
    requires s.timers == map[]
    ensures TimersCovered(s)
  {
  }

  lemma ContinueKeepsTimers(s: State, a: nat)
    requires TimersCovered(s) && s.wakeCount > 0 && ContinueEnabled(s, a)
    ensures TimersCovered(ApplyContinue(s, a))
  {
    hide TimersCovered, Moved, AttendsNoLess;
    var t := ApplyContinue(s, a);
    if s.actors[a].removed != {} {
      assert AttendsNoLess(s.actors[a], t.actors[a]) by { SameAttends(s.actors[a], t.actors[a]); }
      ThreadKeepsTimers(s, t, a, t.actors[a]);
    } else if s.actors[a].todo[0].Schedule? {
      AttendedByOne(t, a);
    } else {
      TokenCoversTimers(t);
    }
  }

  lemma SameAttends(before: Actor, after: Actor)
    requires after.pc == before.pc && after.todo == before.todo
    ensures AttendsNoLess(before, after)
  {
  }

  /** The sampled deadline is never later than the earliest timer. */
  lemma BlockKeepsTimers(s: State, a: nat, first: Option<nat>)
    requires MoveEnabled(s, a, DoBlock(first))
    ensures TimersCovered(ApplyMove(s, a, DoBlock(first)))
  {
    var t := Block(s, a, first);
    forall x | x in t.timers ensures Covered(t, t.timers[x].due) {
      assert Attends(t.actors[a], t.timers[x].due);
    }
  }

  lemma InspectKeepsTimers(s: State, a: nat)
    requires TimersCovered(s) && !s.force && MoveEnabled(s, a, DoInspect)
    ensures TimersCovered(ApplyMove(s, a, DoInspect))
  {
    hide TimersCovered, AttendsNoLess;
    var t := InspectNext(s, a);
    if s.actors[a].pc.stage == Timers && s.timers == map[] {
      NoTimers(t);
    } else if Awake(t.actors[a]) {
      AttendedByOne(t, a);
    } else {
      assert AttendsNoLess(s.actors[a], t.actors[a]) by { LeavingAttends(s.actors[a], t.actors[a]); }
      ThreadKeepsTimers(s, t, a, t.actors[a]);
    }
  }

  lemma LeavingAttends(before: Actor, after: Actor)
    requires before.todo == [] && before.pc.Inspect? && before.pc.stage == Queue
    ensures AttendsNoLess(before, after)
  {
  }

  lemma MoveKeepsTimers(s: State, a: nat, move: Move)
    requires TimersCovered(s) && !s.force && !move.DoEpollFailure? && MoveEnabled(s, a, move)
    ensures TimersCovered(ApplyMove(s, a, move))
  {
    hide TimersCovered, MoveEnabled, ApplyMove;
    match move
    case DoBlock(first) => BlockKeepsTimers(s, a, first);
    case DoInspect => InspectKeepsTimers(s, a);
    case DoEpollFailure =>
    case _ =>
      MoveShape(s, a, move);
      AttendedByOne(ApplyMove(s, a, move), a);
  }

  // ----- every step

  lemma CallKeepsBatches(s: State, t: State, a: nat)
    requires BatchesOk(s) && CallChanges(s, t, a)
    ensures BatchesOk(t)
  {
    hide OneTickle;
  }

  lemma MoveKeepsBatches(s: State, t: State, a: nat, move: Move)
    requires BatchesOk(s) && MoveChanges(s, t, a, move) && (move.DoWake? ==> OneTickle(move.batch))
    ensures BatchesOk(t)
  {
    hide OneTickle;
    if move.DoHandle? {
      RestOfBatch(s.actors[a].pc.batch);
    } else if move.DoTake? || move.DoStart? || move.DoInspect? {
      assert !t.actors[a].pc.Handle?;
    }
  }

  /** What wake-up rests on.  Forced shutdown drops tasks, and a worker whose epoll_wait fails
      takes its deadline with it. */
  predicate WakeUpOk(s: State, n: nat) {
    && BatchesOk(s)
    && (!s.force ==> TasksOk(s, n))
    && (!s.force && !s.failed ==> TimersCovered(s))
  }

  /** By how much a step lets the wake-ups fall short. */
  function Extra(s: State, step: Step): nat {
    match step
    case Begin(_, call) => CallExtra(call)
    case Loop(_, move) => MoveExtra(s, move)
    case _ => 0
  }

  predicate DistinctIds(queue: seq<Task>) {
    forall j, k :: 0 <= j < k < |queue| ==> queue[j].id != queue[k].id
  }

  lemma StepKeepsWakeUp(s: State, step: Step, n: nat)
    requires WakeUpOk(s, n) && DistinctIds(s.queue) && Enabled(s, step)
    ensures WakeUpOk(Apply(s, step), n + Extra(s, step))
  {
    hide TasksOk, TimersCovered, BatchesOk, CallEnabled, MoveEnabled, ApplyCall, ApplyMove, ContinueEnabled,
      ApplyContinue;
    match step
    case Begin(a, call) =>
      CallShape(s, a, call);
      CallKeepsBatches(s, ApplyCall(s, a, call), a);
      if !s.force { CallKeepsTasks(s, a, call, n); }
      if !s.force && !s.failed { CallKeepsTimers(s, a, call); }
    case Continue(a) =>
      ContinueShape(s, a);
      assert s.wakeCount > 0 by { BatchesPositive(s); }
      CallKeepsBatches(s, ApplyContinue(s, a), a);
      if !s.force { ContinueKeepsTasks(s, a, n); }
      if !s.force && !s.failed { ContinueKeepsTimers(s, a); }
    case Loop(a, move) =>
      MoveShape(s, a, move);
      assert move.DoWake? ==> OneTickle(move.batch) by { WakesOnce(s, a, move); }
      MoveKeepsBatches(s, ApplyMove(s, a, move), a, move);
      if !s.force { MoveKeepsTasks(s, a, move, n); }
      if !s.force && !s.failed && !move.DoEpollFailure? { MoveKeepsTimers(s, a, move); }
    case Tick(ms) => TickKeepsWakeUp(s, ms, n);
  }

  lemma WakesOnce(s: State, a: nat, move: Move)
    requires MoveEnabled(s, a, move)
    ensures move.DoWake? ==> OneTickle(move.batch)
  {
  }

  lemma BatchesPositive(s: State)
    requires BatchesOk(s)
    ensures s.wakeCount > 0
  {
  }

  lemma TickKeepsWakeUp(s: State, ms: nat, n: nat)
    requires WakeUpOk(s, n)
    ensures WakeUpOk(s.(clock := s.clock + ms), n)
  {
    hide Helpers, OneTickle, Helps, Attends;
    var t := s.(clock := s.clock + ms);
    assert SomeoneHelps(s) ==> SomeoneHelps(t);
    forall due | Covered(s, due) ensures Covered(t, due) {
    }
  }

  lemma InitialWakeUp(s: State, n: nat)
    requires Initial(s)
    ensures WakeUpOk(s, n)
  {
    NothingWanted(s, n);
  }
}
