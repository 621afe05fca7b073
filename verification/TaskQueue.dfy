/** `Scheduler::getNextTask` and the batch `schedule` on the queue. */
module TaskQueue {
  import opened Wrappers
  import opened IoMachine

  predicate EligibleFor(task: Task, self: nat, executing: set<nat>) {
    (task.pin.None? || task.pin.value == self) && (task.Resume? ==> task.fiber !in executing)
  }

  /** `found` is the first task of the list that thread `self` may run, and is gone from it. */
  ghost predicate FirstTaken(before: seq<Task>, after: seq<Task>, self: nat, executing: set<nat>, found: Option<Task>) {
    if found.None? then after == before && forall j :: 0 <= j < |before| ==> !EligibleFor(before[j], self, executing)
    else exists i :: TakenAt(before, after, self, executing, found.value, i)
  }

  predicate TakenAt(before: seq<Task>, after: seq<Task>, self: nat, executing: set<nat>, found: Task, i: int) {
    && 0 <= i < |before| && found == before[i] && EligibleFor(found, self, executing)
    && (forall j :: 0 <= j < i ==> !EligibleFor(before[j], self, executing))
    && after == before[..i] + before[i + 1..]
  }

  class Tasks {
    var tasks: seq<Task>

    constructor ()
      ensures tasks == []
    {
      tasks := [];
    }

    method ScheduleAll(batch: seq<Task>) returns (needTickle: bool)
      modifies this
      ensures tasks == old(tasks) + batch
      ensures needTickle <==> batch != []
    {
      needTickle := false;
      for i := 0 to |batch|
        invariant tasks == old(tasks) + batch[..i]
        invariant needTickle <==> i > 0
      {
        tasks := tasks + [batch[i]];
        assert batch[..i + 1] == batch[..i] + [batch[i]];
        needTickle := true;
      }
      assert batch[..|batch|] == batch;
    }

    method GetNextTask(self: nat, executing: set<nat>) returns (found: Option<Task>)
      modifies this
      ensures FirstTaken(old(tasks), tasks, self, executing, found)
    {
      if tasks == [] {
        return None;
      }
      var i := 0;
      while i < |tasks|
        invariant 0 <= i <= |tasks| && tasks == old(tasks)
        invariant forall j :: 0 <= j < i ==> !EligibleFor(tasks[j], self, executing)
      {
        var task := tasks[i];
        if task.pin.Some? && task.pin.value != self {
          i := i + 1;
          continue;
        }
        if task.Resume? && task.fiber in executing {
          i := i + 1;
          continue;
        }
        tasks := tasks[..i] + tasks[i + 1..];
        assert TakenAt(old(tasks), tasks, self, executing, task, i);
        return Some(task);
      }
      return None;
    }
  }

  /** The coroutines marked as running. */
  function ExecutingFibers(actors: seq<Actor>): set<nat> {
    set a | 0 <= a < |actors| && actors[a].pc.Running? :: actors[a].pc.fiber
  }

  /** The method makes exactly the moves of the machine: it finds nothing when FindNothing is
      enabled, and otherwise takes the entry that Take takes. */
  lemma FetchIsTheMove(s: State, a: nat, after: seq<Task>, found: Option<Task>)
    requires AtLoop(s, a) && s.actors[a].pc.Fetch?
    requires FirstTaken(s.queue, after, a, ExecutingFibers(s.actors), found)
    ensures MoveEnabled(s, a, DoFindNothing) <==> found.None?
    ensures forall i: nat, fiber: nat :: MoveEnabled(s, a, DoTake(i, fiber)) ==>
              found == Some(s.queue[i]) && after == Take(s, a, i, fiber).queue
    ensures found.Some? && found.value.Resume? ==> exists i: nat :: MoveEnabled(s, a, DoTake(i, found.value.fiber))
  {
    var executing := ExecutingFibers(s.actors);
    forall task ensures EligibleFor(task, a, executing) <==> Eligible(s, a, task) {
      EligibleAgree(s, a, task);
    }
    if found.Some? {
      var i :| TakenAt(s.queue, after, a, executing, found.value, i);
      assert Eligible(s, a, s.queue[i]);
      if found.value.Resume? {
        assert MoveEnabled(s, a, DoTake(i, found.value.fiber));
      }
      forall k: nat, fiber: nat | MoveEnabled(s, a, DoTake(k, fiber))
        ensures found == Some(s.queue[k]) && after == Take(s, a, k, fiber).queue
      {
        assert k == i;
      }
    }
  }

  lemma EligibleAgree(s: State, a: nat, task: Task)
    ensures EligibleFor(task, a, ExecutingFibers(s.actors)) <==> Eligible(s, a, task)
  {
    if task.Resume? && Executing(s, task.fiber) {
      var b :| 0 <= b < |s.actors| && s.actors[b].pc.Running? && s.actors[b].pc.fiber == task.fiber;
    }
  }

  /** First in, first out: a posted entry is found only by a thread that may run it and found no
      entry before it, and it changes nothing for a thread that did. */
  lemma PostedLast(before: seq<Task>, after: seq<Task>, task: Task, self: nat, executing: set<nat>, found: Option<Task>)
    requires FirstTaken(before, after, self, executing, found)
    ensures if found.Some? then FirstTaken(before + [task], after + [task], self, executing, found)
            else if EligibleFor(task, self, executing) then
              FirstTaken(before + [task], before, self, executing, Some(task))
            else FirstTaken(before + [task], before + [task], self, executing, None)
  {
    hide EligibleFor;
    var more := before + [task];
    if found.Some? {
      var i :| TakenAt(before, after, self, executing, found.value, i);
      assert more[..i] + more[i + 1..] == after + [task];
      assert TakenAt(more, after + [task], self, executing, found.value, i);
    } else if EligibleFor(task, self, executing) {
      assert more[..|before|] + more[|before| + 1..] == before;
      assert TakenAt(more, before, self, executing, task, |before|);
    }
  }

  /** A scan has one answer. */
  lemma FirstIsOne(before: seq<Task>, self: nat, executing: set<nat>,
                   after1: seq<Task>, found1: Option<Task>, after2: seq<Task>, found2: Option<Task>)
    requires FirstTaken(before, after1, self, executing, found1) && FirstTaken(before, after2, self, executing, found2)
    ensures found1 == found2 && after1 == after2
  {
    hide EligibleFor;
    if found1.Some? && found2.Some? {
      var i :| TakenAt(before, after1, self, executing, found1.value, i);
      var j :| TakenAt(before, after2, self, executing, found2.value, j);
      assert i == j;
    }
  }
}
