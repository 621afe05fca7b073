/** What any call, move or step leaves alone, and where it takes the thread that makes it. */
module IoShapes {
  import opened Wrappers
  import opened IoMachine

  /** Only one thread changes, and no flag is taken back. */
  predicate Changes(s: State, t: State, a: nat) {
    && a < |s.actors| == |t.actors| && t.actors == s.actors[a := t.actors[a]] && t.wakeCount == s.wakeCount
    && (s.force ==> t.force) && (s.failed ==> t.failed) && (s.late ==> t.late)
  }

  /** What is queued, registered and armed stays. */
  predicate SameStores(s: State, t: State) {
    && t.slots == s.slots && t.queue == s.queue && t.place == s.place && t.pending == s.pending
    && t.counted == s.counted && t.timers == s.timers && t.stopping == s.stopping && t.tokens == s.tokens
  }

  predicate SamePromises(before: Actor, after: Actor) {
    after.todo == before.todo && after.removed == before.removed
  }

  predicate CallChanges(s: State, t: State, a: nat) {
    Changes(s, t, a) && t.actors[a].pc == s.actors[a].pc
  }

  predicate QueueKept(s: State, t: State) {
    t.queue == s.queue && t.tokens == s.tokens
  }

  lemma PostShape(s: State, a: nat, task: Task)
    requires a < |s.actors|
    ensures CallChanges(s, Post(s, a, task), a) && QueueKept(s, Post(s, a, task))
  {
  }

  lemma PostBatchShape(s: State, a: nat, tasks: seq<Task>)
    requires a < |s.actors| && tasks != []
    ensures CallChanges(s, PostBatch(s, a, tasks), a)
  {
  }

  lemma AddEventShape(s: State, a: nat, slot: Slot, task: Task)
    requires a < |s.actors|
    ensures CallChanges(s, AddEvent(s, a, slot, task), a) && QueueKept(s, AddEvent(s, a, slot, task))
  {
  }

  lemma DelEventShape(s: State, a: nat, keys: seq<Slot>)
    requires a < |s.actors| && forall i :: 0 <= i < |keys| ==> keys[i] in s.slots
    ensures CallChanges(s, DelEvent(s, a, keys), a) && QueueKept(s, DelEvent(s, a, keys))
  {
    hide Handlers, Ids, Without, Moved;
  }

  lemma CancelEventShape(s: State, a: nat, keys: seq<Slot>)
    requires a < |s.actors| && forall i :: 0 <= i < |keys| ==> keys[i] in s.slots
    ensures CallChanges(s, CancelEvent(s, a, keys), a) && QueueKept(s, CancelEvent(s, a, keys))
  {
    hide Handlers, Ids, Without, Moved, Calls;
  }

  lemma SetTimerShape(s: State, a: nat, id: nat, timing: Timing)
    requires a < |s.actors|
    ensures CallChanges(s, SetTimer(s, a, id, timing), a) && QueueKept(s, SetTimer(s, a, id, timing))
  {
    hide Remaining, AtFront;
  }

  lemma CancelTimerShape(s: State, a: nat, id: nat)
    requires a < |s.actors|
    ensures CallChanges(s, CancelTimer(s, a, id), a) && QueueKept(s, CancelTimer(s, a, id))
  {
    hide Remaining;
  }

  lemma StopShape(s: State, a: nat)
    requires a < |s.actors|
    ensures CallChanges(s, Stop(s, a), a) && QueueKept(s, Stop(s, a))
  {
    hide CallInProgress;
  }

  lemma CallShape(s: State, a: nat, call: Call)
    requires CallEnabled(s, a, call)
    ensures CallChanges(s, ApplyCall(s, a, call), a)
    ensures !call.DoPostBatch? ==> QueueKept(s, ApplyCall(s, a, call))
  {
    hide Post, PostBatch, AddEvent, DelEvent, CancelEvent, SetTimer, CancelTimer, Stop, CallChanges, QueueKept, Chosen,
      Clear;
    match call
    case DoPost(task) => PostShape(s, a, task);
    case DoPostBatch(tasks) => PostBatchShape(s, a, tasks);
    case DoAddEvent(slot, task) => AddEventShape(s, a, slot, task);
    case DoDelEvent(fd, read, write) => DelEventShape(s, a, Chosen(s.slots, fd, read, write));
    case DoCancelEvent(fd, read, write) => CancelEventShape(s, a, Chosen(s.slots, fd, read, write));
    case DoSetTimer(id, timing) => SetTimerShape(s, a, id, timing);
    case DoCancelTimer(id) => CancelTimerShape(s, a, id);
    case DoStop => StopShape(s, a);
    case DoForceStop => ForceShape(s, a);
    case DoClear => ClearShape(s, a);
  }

  lemma ForceShape(s: State, a: nat)
    requires a < |s.actors|
    ensures CallChanges(s, s.(force := true), a) && QueueKept(s, s.(force := true))
  {
  }

  lemma ClearShape(s: State, a: nat)
    requires a < |s.actors|
    ensures CallChanges(s, Clear(s), a) && QueueKept(s, Clear(s))
  {
  }

  // ----- what a call still owes

  lemma SubtractShape(s: State, a: nat)
    requires a < |s.actors|
    ensures CallChanges(s, Subtract(s, a), a)
  {
  }

  lemma PushShape(s: State, a: nat)
    requires a < |s.actors| && s.actors[a].todo != [] && s.actors[a].todo[0].Schedule?
    ensures CallChanges(s, Push(s, a), a)
  {
    hide Moved;
  }

  lemma WriteTokenShape(s: State, a: nat)
    requires a < |s.actors| && s.actors[a].todo != []
    ensures CallChanges(s, WriteToken(s, a), a)
  {
  }

  lemma ContinueShape(s: State, a: nat)
    requires ContinueEnabled(s, a)
    ensures CallChanges(s, ApplyContinue(s, a), a)
  {
    hide Push, WriteToken, Subtract, CallChanges;
    if s.actors[a].removed != {} {
      SubtractShape(s, a);
    } else if s.actors[a].todo[0].Schedule? {
      PushShape(s, a);
    } else {
      WriteTokenShape(s, a);
    }
  }

  // ----- the worker loop

  /** Where a move takes its worker. */
  predicate PcStep(s: State, before: Pc, move: Move, after: Pc) {
    match move
    case DoTake(i, fiber) => before.Fetch? && i < |s.queue| && after == Taken(fiber, s.queue[i].pin.Some?)
    case DoStart => before.Taken? && after == Running(before.fiber, before.pinned)
    case DoFindNothing => before.Fetch? && after.Sample?
    case DoFinish(_) => before.Running? && after.Fetch?
    case DoBlock(_) => before.Sample? && after.Waiting?
    case DoWake(batch) => before.Waiting? && after == Handle(batch, false)
    case DoInterrupt => before.Waiting? && after.Sample?
    case DoEpollFailure => before.Waiting? && after.Left?
    case DoHandle =>
      && before.Handle? && before.batch != [] && after.Handle? && after.batch == before.batch[1..]
      && (before.ready || before.batch[0].Tickled? ==> after.ready)
    case DoExpire(_, _) => before.Handle? && after.Inspect? && after.stage == Flag && (before.ready ==> after.ready)
    case DoInspect =>
      && before.Inspect?
      && match after
         case Left => s.force || (before.stage == Queue && s.queue == [])
         case Inspect(_, ready) => ready == before.ready
         case Fetch => before.ready
         case Sample => !before.ready
         case _ => false
  }

  predicate MoveChanges(s: State, t: State, a: nat, move: Move) {
    Changes(s, t, a) && PcStep(s, s.actors[a].pc, move, t.actors[a].pc) && (move.DoEpollFailure? ==> t.failed)
  }

  lemma TakeShape(s: State, a: nat, i: nat, fiber: nat)
    requires MoveEnabled(s, a, DoTake(i, fiber))
    ensures MoveChanges(s, Take(s, a, i, fiber), a, DoTake(i, fiber))
  {
    hide Moved, Eligible, Executing, Held;
  }

  lemma FinishShape(s: State, a: nat, again: Option<Task>)
    requires MoveEnabled(s, a, DoFinish(again))
    ensures MoveChanges(s, Finish(s, a, again), a, DoFinish(again))
  {
  }

  lemma BlockShape(s: State, a: nat, first: Option<nat>)
    requires MoveEnabled(s, a, DoBlock(first))
    ensures MoveChanges(s, Block(s, a, first), a, DoBlock(first))
  {
    hide Deadline, IsEarliest;
  }

  lemma InspectShape(s: State, a: nat)
    requires MoveEnabled(s, a, DoInspect)
    ensures MoveChanges(s, InspectNext(s, a), a, DoInspect)
  {
  }

  lemma ExpireShape(s: State, a: nat, now: nat, order: seq<nat>)
    requires MoveEnabled(s, a, DoExpire(now, order))
    ensures MoveChanges(s, Expire(s, a, now, |order|), a, DoExpire(now, order))
  {
    hide Advanced, Due, Elements, NewCallbacks, Calls;
  }

  /** What processEvent leaves alone. */
  predicate OnlyThread(s: State, t: State, a: nat) {
    && Changes(s, t, a) && t.queue == s.queue && t.tokens == s.tokens && t.timers == s.timers
    && t.force == s.force && t.failed == s.failed
  }

  lemma ProcessShape(s: State, a: nat, keys: seq<Slot>, rest: seq<Report>, ready: bool)
    requires a < |s.actors| && forall i :: 0 <= i < |keys| ==> keys[i] in s.slots
    ensures OnlyThread(s, ProcessEvent(s, a, keys, rest, ready), a)
    ensures var actor := ProcessEvent(s, a, keys, rest, ready).actors[a];
            actor.pc.Handle? && actor.pc.batch == rest && (ready ==> actor.pc.ready)
  {
    hide Handlers, Ids, Without, Moved, Calls;
  }

  lemma HandleTickledShape(s: State, a: nat)
    requires a < |s.actors| && s.actors[a].pc.Handle? && s.actors[a].pc.batch != [] && s.actors[a].pc.batch[0].Tickled?
    ensures HandleOne(s, a).actors == s.actors[a := s.actors[a].(pc := Handle(s.actors[a].pc.batch[1..], true))]
    ensures Changes(s, HandleOne(s, a), a)
  {
    hide ProcessEvent, Chosen;
  }

  lemma HandleFdShape(s: State, a: nat)
    requires a < |s.actors| && s.actors[a].pc.Handle? && s.actors[a].pc.batch != [] && s.actors[a].pc.batch[0].Fd?
    ensures OnlyThread(s, HandleOne(s, a), a)
    ensures var actor := HandleOne(s, a).actors[a];
            && actor.pc.Handle? && actor.pc.batch == s.actors[a].pc.batch[1..]
            && (s.actors[a].pc.ready ==> actor.pc.ready)
  {
    hide Chosen, ProcessEvent, OnlyThread;
    var Handle(batch, ready) := s.actors[a].pc;
    ProcessShape(s, a, Chosen(s.slots, batch[0].fd, batch[0].read, batch[0].write), batch[1..], ready);
  }

  lemma HandleShape(s: State, a: nat)
    requires MoveEnabled(s, a, DoHandle)
    ensures MoveChanges(s, HandleOne(s, a), a, DoHandle)
  {
    hide HandleOne;
    if s.actors[a].pc.batch[0].Tickled? {
      HandleTickledShape(s, a);
    } else {
      HandleFdShape(s, a);
    }
  }

  /** Moves that change the worker's place only. */
  lemma PlainShape(s: State, a: nat, pc: Pc)
    requires a < |s.actors|
    ensures var t := With(s, a, s.actors[a].(pc := pc));
            Changes(s, t, a) && t.actors[a].pc == pc && SameStores(s, t) && SamePromises(s.actors[a], t.actors[a])
  {
  }

  lemma FailShape(s: State, a: nat)
    requires MoveEnabled(s, a, DoEpollFailure)
    ensures MoveChanges(s, EpollFails(s, a), a, DoEpollFailure)
  {
  }

  lemma MoveShape(s: State, a: nat, move: Move)
    requires MoveEnabled(s, a, move)
    ensures MoveChanges(s, ApplyMove(s, a, move), a, move)
  {
    hide Take, Finish, Block, InspectNext, Expire, HandleOne, EpollFails, With, Changes, Eligible, Executing, Held, Due,
      Elements, OneTickle, IsEarliest;
    match move
    case DoTake(i, fiber) => TakeShape(s, a, i, fiber);
    case DoFinish(again) => FinishShape(s, a, again);
    case DoBlock(first) => BlockShape(s, a, first);
    case DoInspect => InspectShape(s, a);
    case DoExpire(now, order) => ExpireShape(s, a, now, order);
    case DoHandle => HandleShape(s, a);
    case DoEpollFailure => FailShape(s, a);
    case DoStart => PlainShape(s, a, Running(s.actors[a].pc.fiber, s.actors[a].pc.pinned));
    case DoFindNothing => PlainShape(s, a, Sample);
    case DoWake(batch) => PlainShape(s, a, Handle(batch, false));
    case DoInterrupt => PlainShape(s, a, Sample);
  }

  /** A move that neither takes, ends nor creates a task. */
  predicate QuietMove(move: Move) {
    !move.DoTake? && !move.DoFinish? && !move.DoExpire? && !move.DoHandle?
  }

  predicate QuietChanges(s: State, t: State, a: nat) {
    a < |s.actors| == |t.actors| && SameStores(s, t) && SamePromises(s.actors[a], t.actors[a])
  }

  lemma BlockQuiet(s: State, a: nat, first: Option<nat>)
    requires a < |s.actors| && (first.Some? ==> first.value in s.timers)
    ensures QuietChanges(s, Block(s, a, first), a)
  {
    hide Deadline;
  }

  lemma InspectQuiet(s: State, a: nat)
    requires a < |s.actors| && s.actors[a].pc.Inspect?
    ensures QuietChanges(s, InspectNext(s, a), a)
  {
  }

  lemma FailQuiet(s: State, a: nat)
    requires a < |s.actors|
    ensures QuietChanges(s, EpollFails(s, a), a)
  {
  }

  lemma PlainQuiet(s: State, a: nat, pc: Pc)
    requires a < |s.actors|
    ensures QuietChanges(s, With(s, a, s.actors[a].(pc := pc)), a)
  {
  }

  lemma QuietShape(s: State, a: nat, move: Move)
    requires MoveEnabled(s, a, move) && QuietMove(move)
    ensures QuietChanges(s, ApplyMove(s, a, move), a)
  {
    hide Block, InspectNext, EpollFails, With, Eligible, Executing, Held, Due, Elements, OneTickle, QuietChanges;
    match move
    case DoBlock(first) => BlockQuiet(s, a, first);
    case DoInspect => InspectQuiet(s, a);
    case DoEpollFailure => FailQuiet(s, a);
    case DoStart => PlainQuiet(s, a, Running(s.actors[a].pc.fiber, s.actors[a].pc.pinned));
    case DoFindNothing => PlainQuiet(s, a, Sample);
    case DoWake(batch) => PlainQuiet(s, a, Handle(batch, false));
    case DoInterrupt => PlainQuiet(s, a, Sample);
  }

  lemma HandleIs(s: State, a: nat)
    requires a < |s.actors| && s.actors[a].pc.Handle? && s.actors[a].pc.batch != []
    ensures var Handle(batch, ready) := s.actors[a].pc;
            HandleOne(s, a) ==
              if batch[0].Tickled? then Drain(s, a, batch[1..])
              else ProcessEvent(s, a, Chosen(s.slots, batch[0].fd, batch[0].read, batch[0].write), batch[1..], ready)
  {
    hide Drain, ProcessEvent, Chosen;
  }
}
