/** Over whole runs: what becomes of every accepted entry, of every handler whose event is reported,
    and of every timer. */
module IoOutcomes {
  import opened Wrappers
  import opened IoMachine
  import opened IoShapes
  import opened IoPlaces
  import opened IoDrain
  import opened IoRuns
  import opened IoDelivery

  /** Every worker has left, in peace. */
  predicate Drained(s: State) {
    Peaceful(s) && forall a :: 0 <= a < |s.actors| && IsWorker(s.actors[a]) ==> s.actors[a].pc.Left?
  }

  // ----- entries

  lemma PlacedAt(states: seq<State>, steps: seq<Step>, i: nat)
    requires IsRun(states, steps) && i < |states|
    ensures Placed(states[i])
  {
    hide Invariant, Extras, Initial, Enabled, Apply, Placed;
    RunKeepsInvariant(states, steps, i);
    InvariantPlaced(states[i], Extras(states, steps, 0, i));
  }

  predicate OnItsWay(s: State, task: Task) {
    Carries(s, task) && !Final(s.place[task.id])
  }

  predicate EndsAt(s: State, step: Step, t: State, task: Task) {
    Ends(s, step, t, task) && task.id < |t.place| && Final(t.place[task.id])
  }

  /** Between a moment at which an entry is on its way and one at which it has ended is the step that
      ended it. */
  lemma {:induction false} EndFound(states: seq<State>, steps: seq<Step>, i: nat, j: nat, task: Task) returns (m: nat)
    requires IsRun(states, steps) && i <= j < |states| && OnItsWay(states[i], task)
    requires task.id < |states[j].place| && Final(states[j].place[task.id])
    ensures i <= m < j && EndsAt(states[m], steps[m], states[m + 1], task)
    ensures states[m + 1].place[task.id] == states[j].place[task.id]
    decreases j - i
  {
    hide Initial, Enabled, Apply, Placed, Carries, Ends;
    PlacedAt(states, steps, i);
    StepHeld(states[i], steps[i], task);
    StepEnds(states[i], steps[i], task);
    CarriedNumber(states[i + 1], task);
    if Final(states[i + 1].place[task.id]) {
      m := i;
      PlacesOverRun(states, steps, i + 1, j, task.id);
    } else {
      m := EndFound(states, steps, i + 1, j, task);
    }
  }

  /** An entry that is in no slot is neither deleted nor cleared. */
  lemma {:induction false} NotDeleted(states: seq<State>, steps: seq<Step>, i: nat, j: nat, id: nat)
    requires IsRun(states, steps) && i <= j < |states| && id < |states[i].place|
    requires states[i].place[id].Owed? || states[i].place[id].Queued?
    ensures id < |states[j].place|
    ensures states[j].place[id].Owed? || states[j].place[id].Queued? || states[j].place[id].Started?
    decreases j
  {
    hide Initial, Enabled, Apply, Placed;
    if i < j {
      NotDeleted(states, steps, i, j - 1, id);
      PlacedAt(states, steps, j - 1);
      StepMovesOn(states[j - 1], steps[j - 1]);
    }
  }

  lemma DrainedEnds(states: seq<State>, steps: seq<Step>, j: nat, id: nat)
    requires IsRun(states, steps) && j < |states| && Drained(states[j]) && id < |states[j].place|
    ensures states[j].place[id].Started? || states[j].place[id].Deleted?
  {
    hide IsRun;
    DrainedOnStop(states, steps, j);
  }

  /** An entry that has been scheduled is taken by a worker that may run it, if all workers leave. */
  lemma ScheduledStarted(states: seq<State>, steps: seq<Step>, i: nat, j: nat, task: Task) returns (m: nat)
    requires IsRun(states, steps) && i <= j < |states| && Drained(states[j]) && Carries(states[i], task)
    requires states[i].place[task.id].Owed? || states[i].place[task.id].Queued?
    ensures i <= m < j && Takes(states[m], steps[m], task)
  {
    hide IsRun, Drained, Carries, Takes, Deletes;
    CarriedNumber(states[i], task);
    NotDeleted(states, steps, i, j, task.id);
    DrainedEnds(states, steps, j, task.id);
    m := EndFound(states, steps, i, j, task);
  }

  /** So is every entry that a step of the run has accepted, but for handlers that the user deletes
      before their event. */
  lemma AcceptedStarted(states: seq<State>, steps: seq<Step>, i: nat, j: nat, k: nat) returns (m: nat)
    requires IsRun(states, steps) && i < j < |states| && Drained(states[j]) && k < |Accepted(states[i], steps[i])|
    ensures var task := Accepted(states[i], steps[i])[k];
            && i < m < j
            && (Takes(states[m], steps[m], task) ||
                (steps[i].Begin? && steps[i].call.DoAddEvent? && Deletes(states[m], steps[m], task)))
  {
    hide Initial, Enabled, Apply, Drained, Carries, Takes, Deletes, Accepted;
    var task := Accepted(states[i], steps[i])[k];
    StepAccepts(states[i], steps[i]);
    CarriedNumber(states[i + 1], task);
    if states[i + 1].place[task.id].InSlot? {
      PlacesOverRun(states, steps, i + 1, j, task.id);
      DrainedEnds(states, steps, j, task.id);
      m := EndFound(states, steps, i + 1, j, task);
    } else {
      m := ScheduledStarted(states, steps, i + 1, j, task);
    }
  }

  // ----- handlers

  /** The step reports an event for the slot, or cancels it: its handler is to run. */
  predicate Fires(s: State, step: Step, slot: Slot) {
    match step
    case Begin(_, DoCancelEvent(fd, read, write)) => Names(slot, fd, read, write)
    case Loop(a, DoHandle) =>
      && a < |s.actors| && s.actors[a].pc.Handle? && s.actors[a].pc.batch != [] && s.actors[a].pc.batch[0].Fd?
      && var report := s.actors[a].pc.batch[0]; Names(slot, report.fd, report.read, report.write)
    case _ => false
  }

  predicate Drops(step: Step, slot: Slot) {
    step.Begin? && (step.call.DoClear? ||
      (step.call.DoDelEvent? && Names(slot, step.call.fd, step.call.read, step.call.write)))
  }

  /** What a step does to a filled slot. */
  predicate SlotAfter(s: State, step: Step, t: State, slot: Slot)
    requires slot in s.slots
  {
    var task := s.slots[slot];
    if Fires(s, step, slot) then
      slot !in t.slots && (step.Begin? || step.Loop?) && task.id < |t.place| && t.place[task.id] == Owed(step.a)
    else if Drops(step, slot) then
      slot !in t.slots && task.id < |t.place| &&
      t.place[task.id] == if step.Begin? && step.call.DoDelEvent? then Deleted else Cleared
    else
      slot in t.slots && t.slots[slot] == task
  }

  /** The slots that are named lose their handlers, and no others. */
  predicate Withdrawn(s: State, t: State, fd: nat, read: bool, write: bool, to: Place) {
    var keys := Chosen(s.slots, fd, read, write);
    t.slots == Without(s.slots, keys) && t.place == Moved(s.place, Ids(Handlers(s, keys)), to)
  }

  lemma WithdrawnSlot(s: State, t: State, fd: nat, read: bool, write: bool, to: Place, slot: Slot)
    requires SlotsRecorded(s) && slot in s.slots && Withdrawn(s, t, fd, read, write, to)
    ensures if Names(slot, fd, read, write)
            then slot !in t.slots && s.slots[slot].id < |t.place| && t.place[s.slots[slot].id] == to
            else slot in t.slots && t.slots[slot] == s.slots[slot]
  {
    hide Chosen;
    ChosenNamed(s.slots, fd, read, write);
    var keys := Chosen(s.slots, fd, read, write);
    if Names(slot, fd, read, write) {
      var i :| 0 <= i < |keys| && keys[i] == slot;
      assert Handlers(s, keys)[i] == s.slots[slot];
    }
  }

  lemma DelEventWithdraws(s: State, a: nat, fd: nat, read: bool, write: bool)
    requires a < |s.actors|
    ensures Withdrawn(s, DelEvent(s, a, Chosen(s.slots, fd, read, write)), fd, read, write, Deleted)
  {
    hide Chosen, Handlers, Ids, Without, Moved;
  }

  lemma CancelEventWithdraws(s: State, a: nat, fd: nat, read: bool, write: bool)
    requires a < |s.actors|
    ensures Withdrawn(s, CancelEvent(s, a, Chosen(s.slots, fd, read, write)), fd, read, write, Owed(a))
  {
    hide Chosen, Handlers, Ids, Without, Moved, Calls;
  }

  lemma ProcessWithdraws(s: State, a: nat, fd: nat, read: bool, write: bool, rest: seq<Report>, ready: bool)
    requires a < |s.actors|
    ensures Withdrawn(s, ProcessEvent(s, a, Chosen(s.slots, fd, read, write), rest, ready), fd, read, write, Owed(a))
  {
    hide Chosen, Calls;
    if Chosen(s.slots, fd, read, write) == [] {
      NothingWithdrawn(s, a);
    }
  }

  lemma NothingWithdrawn(s: State, a: nat)
    ensures Without(s.slots, []) == s.slots && Moved(s.place, Ids(Handlers(s, [])), Owed(a)) == s.place
  {
  }

  lemma DelEventSlots(s: State, a: nat, fd: nat, read: bool, write: bool, slot: Slot)
    requires SlotsRecorded(s) && a < |s.actors| && slot in s.slots
    ensures SlotAfter(s, Begin(a, DoDelEvent(fd, read, write)), DelEvent(s, a, Chosen(s.slots, fd, read, write)), slot)
  {
    hide SlotsRecorded, Withdrawn, DelEvent, Chosen;
    DelEventWithdraws(s, a, fd, read, write);
    WithdrawnSlot(s, DelEvent(s, a, Chosen(s.slots, fd, read, write)), fd, read, write, Deleted, slot);
  }

  lemma CancelEventSlots(s: State, a: nat, fd: nat, read: bool, write: bool, slot: Slot)
    requires SlotsRecorded(s) && a < |s.actors| && slot in s.slots
    ensures SlotAfter(s, Begin(a, DoCancelEvent(fd, read, write)),
                      CancelEvent(s, a, Chosen(s.slots, fd, read, write)), slot)
  {
    hide SlotsRecorded, Withdrawn, CancelEvent, Chosen;
    CancelEventWithdraws(s, a, fd, read, write);
    WithdrawnSlot(s, CancelEvent(s, a, Chosen(s.slots, fd, read, write)), fd, read, write, Owed(a), slot);
  }

  lemma CallSlots(s: State, a: nat, call: Call, slot: Slot)
    requires SlotsRecorded(s) && CallEnabled(s, a, call) && slot in s.slots
    ensures SlotAfter(s, Begin(a, call), ApplyCall(s, a, call), slot)
  {
    hide SlotsRecorded, Chosen, DelEvent, CancelEvent, Clear, AtFront, CallInProgress, Remaining, SlotAfter;
    match call
    case DoDelEvent(fd, read, write) => DelEventSlots(s, a, fd, read, write, slot);
    case DoCancelEvent(fd, read, write) => CancelEventSlots(s, a, fd, read, write, slot);
    case DoClear => ClearedSlot(s, a, slot);
    case _ => OtherSlot(s, a, call, slot);
  }

  lemma OtherSlot(s: State, a: nat, call: Call, slot: Slot)
    requires CallEnabled(s, a, call) && slot in s.slots
    requires !call.DoDelEvent? && !call.DoCancelEvent? && !call.DoClear?
    ensures SlotAfter(s, Begin(a, call), ApplyCall(s, a, call), slot)
  {
    hide Chosen, AtFront, CallInProgress, Remaining;
  }

  lemma ClearedSlot(s: State, a: nat, slot: Slot)
    requires SlotsRecorded(s) && slot in s.slots
    ensures SlotAfter(s, Begin(a, DoClear), Clear(s), slot)
  {
  }

  lemma HandleSlots(s: State, a: nat, slot: Slot)
    requires SlotsRecorded(s) && MoveEnabled(s, a, DoHandle) && slot in s.slots
    ensures SlotAfter(s, Loop(a, DoHandle), HandleOne(s, a), slot)
  {
    hide SlotsRecorded, Chosen, HandleOne, ProcessEvent, Withdrawn;
    HandleIs(s, a);
    match s.actors[a].pc.batch[0]
    case Tickled =>
    case Fd(fd, read, write) =>
      var rest, ready := s.actors[a].pc.batch[1..], s.actors[a].pc.ready;
      ProcessWithdraws(s, a, fd, read, write, rest, ready);
      WithdrawnSlot(s, HandleOne(s, a), fd, read, write, Owed(a), slot);
  }

  lemma SameSlots(s: State, step: Step, t: State, slot: Slot)
    requires slot in s.slots && t.slots == s.slots && !Fires(s, step, slot) && !Drops(step, slot)
    ensures SlotAfter(s, step, t, slot)
  {
  }

  lemma MoveSlots(s: State, a: nat, move: Move, slot: Slot)
    requires SlotsRecorded(s) && MoveEnabled(s, a, move) && slot in s.slots
    ensures SlotAfter(s, Loop(a, move), ApplyMove(s, a, move), slot)
  {
    hide SlotsRecorded, HandleOne, Take, Finish, Expire, SlotAfter, Eligible, Executing, Held, Due, Elements;
    match move
    case DoHandle => HandleSlots(s, a, slot);
    case DoTake(i, fiber) =>
      TakeKeeps(s, a, i, fiber);
      SameSlots(s, Loop(a, move), ApplyMove(s, a, move), slot);
    case DoFinish(again) =>
      FinishKeeps(s, a, again);
      SameSlots(s, Loop(a, move), ApplyMove(s, a, move), slot);
    case DoExpire(now, order) =>
      ExpireKeepsSlots(s, a, now, |order|);
      SameSlots(s, Loop(a, move), ApplyMove(s, a, move), slot);
    case _ =>
      QuietShape(s, a, move);
      SameSlots(s, Loop(a, move), ApplyMove(s, a, move), slot);
  }

  lemma TakeKeeps(s: State, a: nat, i: nat, fiber: nat)
    requires a < |s.actors| && i < |s.queue|
    ensures SlotsAndTimersKept(s, Take(s, a, i, fiber))
  {
    hide Moved;
  }

  lemma FinishKeeps(s: State, a: nat, again: Option<Task>)
    requires a < |s.actors|
    ensures SlotsAndTimersKept(s, Finish(s, a, again))
  {
  }

  lemma ExpireKeepsSlots(s: State, a: nat, now: nat, count: nat)
    requires a < |s.actors| && s.actors[a].pc.Handle?
    ensures Expire(s, a, now, count).slots == s.slots
  {
    hide Advanced, NewCallbacks, Calls;
  }

  predicate SlotsAndTimersKept(s: State, t: State) {
    t.slots == s.slots && t.timers == s.timers
  }

  lemma SubtractKeeps(s: State, a: nat)
    requires a < |s.actors|
    ensures SlotsAndTimersKept(s, Subtract(s, a))
  {
  }

  lemma PushKeeps(s: State, a: nat)
    requires a < |s.actors| && s.actors[a].todo != [] && s.actors[a].todo[0].Schedule?
    ensures SlotsAndTimersKept(s, Push(s, a))
  {
    hide Moved;
  }

  lemma WriteTokenKeeps(s: State, a: nat)
    requires a < |s.actors| && s.actors[a].todo != []
    ensures SlotsAndTimersKept(s, WriteToken(s, a))
  {
  }

  lemma ContinueKeeps(s: State, a: nat)
    requires ContinueEnabled(s, a)
    ensures SlotsAndTimersKept(s, ApplyContinue(s, a))
  {
    hide Subtract, Push, WriteToken, SlotsAndTimersKept;
    if s.actors[a].removed != {} {
      SubtractKeeps(s, a);
    } else if s.actors[a].todo[0].Schedule? {
      PushKeeps(s, a);
    } else {
      WriteTokenKeeps(s, a);
    }
  }

  /** A reported or cancelled handler leaves its slot to be scheduled, a deleted one leaves it for
      good, and every other one stays. */
  lemma StepSlots(s: State, step: Step, slot: Slot)
    requires SlotsRecorded(s) && Enabled(s, step) && slot in s.slots
    ensures SlotAfter(s, step, Apply(s, step), slot)
  {
    hide SlotsRecorded, CallEnabled, MoveEnabled, ContinueEnabled, ApplyCall, ApplyMove, ApplyContinue, SlotAfter;
    match step
    case Begin(a, call) => CallSlots(s, a, call, slot);
    case Continue(a) =>
      ContinueKeeps(s, a);
      SameSlots(s, step, Apply(s, step), slot);
    case Loop(a, move) => MoveSlots(s, a, move, slot);
    case Tick(ms) => SameSlots(s, step, Apply(s, step), slot);
  }

  lemma SlotCarries(s: State, slot: Slot)
    requires Placed(s) && slot in s.slots
    ensures SlotsRecorded(s) && Carries(s, s.slots[slot])
  {
  }

  /** The handler of a reported or cancelled event runs. */
  lemma FiredStarted(states: seq<State>, steps: seq<Step>, i: nat, j: nat, slot: Slot) returns (m: nat)
    requires IsRun(states, steps) && i < j < |states| && Drained(states[j])
    requires slot in states[i].slots && Fires(states[i], steps[i], slot)
    ensures i < m < j && Takes(states[m], steps[m], states[i].slots[slot])
  {
    hide Initial, Enabled, Apply, Drained, Carries, Takes, Fires, Placed;
    var task := states[i].slots[slot];
    PlacedAt(states, steps, i);
    SlotCarries(states[i], slot);
    StepSlots(states[i], steps[i], slot);
    StepHeld(states[i], steps[i], task);
    m := ScheduledStarted(states, steps, i + 1, j, task);
  }

  // ----- timers

  /** What a step does to the timers: those that are due when their expiry is looked for leave, or
      move past that moment if they are recurring. */
  predicate TimersAfter(s: State, step: Step, t: State) {
    match step
    case Begin(_, DoSetTimer(id, timing)) => t.timers == s.timers[id := timing]
    case Begin(_, DoCancelTimer(id)) => t.timers == s.timers - {id}
    case Begin(_, DoClear) => t.timers == map[]
    case Loop(_, DoExpire(now, _)) =>
      && t.timers.Keys <= s.timers.Keys
      && forall id :: id in s.timers ==>
           var timer := s.timers[id];
           if timer.due > now then id in t.timers && t.timers[id] == timer
           else if timer.recurring then
             id in t.timers && t.timers[id] == timer.(due := now + if timer.ms > 1 then timer.ms else 1)
           else id !in t.timers
    case _ => t.timers == s.timers
  }

  lemma CallTimers(s: State, a: nat, call: Call)
    requires CallEnabled(s, a, call)
    ensures TimersAfter(s, Begin(a, call), ApplyCall(s, a, call))
  {
    hide Chosen, Handlers, Ids, Moved, Calls, AtFront, CallInProgress, Without;
  }

  lemma ExpireTimers(s: State, a: nat, now: nat, order: seq<nat>)
    requires MoveEnabled(s, a, DoExpire(now, order))
    ensures TimersAfter(s, Loop(a, DoExpire(now, order)), Expire(s, a, now, |order|))
  {
    hide Due, Elements, NewCallbacks, Calls;
  }

  lemma HandleTimers(s: State, a: nat)
    requires MoveEnabled(s, a, DoHandle)
    ensures HandleOne(s, a).timers == s.timers
  {
    hide HandleOne, Handlers, Ids, Without, Moved, Chosen, Calls;
    HandleIs(s, a);
  }

  lemma MoveTimers(s: State, a: nat, move: Move)
    requires MoveEnabled(s, a, move)
    ensures TimersAfter(s, Loop(a, move), ApplyMove(s, a, move))
  {
    hide Eligible, Executing, Held, Due, Elements, HandleOne, Expire, Take, Finish;
    match move
    case DoExpire(now, order) => ExpireTimers(s, a, now, order);
    case DoHandle => HandleTimers(s, a);
    case DoTake(i, fiber) => TakeKeeps(s, a, i, fiber);
    case DoFinish(again) => FinishKeeps(s, a, again);
    case _ => QuietShape(s, a, move);
  }

  lemma StepTimers(s: State, step: Step)
    requires Enabled(s, step)
    ensures TimersAfter(s, step, Apply(s, step))
  {
    hide CallEnabled, MoveEnabled, ContinueEnabled, ApplyCall, ApplyMove, ApplyContinue, TimersAfter;
    match step
    case Begin(a, call) => CallTimers(s, a, call);
    case Continue(a) =>
      ContinueKeeps(s, a);
      SameTimers(s, step, Apply(s, step));
    case Loop(a, move) => MoveTimers(s, a, move);
    case Tick(ms) => SameTimers(s, step, Apply(s, step));
  }

  lemma SameTimers(s: State, step: Step, t: State)
    requires t.timers == s.timers && (step.Continue? || step.Tick?)
    ensures TimersAfter(s, step, t)
  {
  }

  /** A worker blocks exactly until the earliest deadline, or for the longest time epoll_wait takes. */
  lemma BlocksUntilDue(s: State, a: nat, first: Option<nat>)
    requires MoveEnabled(s, a, DoBlock(first))
    ensures var pc := ApplyMove(s, a, DoBlock(first)).actors[a].pc;
            && pc.Waiting?
            && (pc.deadline.None? <==> s.timers == map[])
            && (pc.deadline.Some? ==>
                  var d := pc.deadline.value;
                  || ((forall id :: id in s.timers ==> d <= s.timers[id].due) &&
                      exists id :: id in s.timers && d == s.timers[id].due)
                  || (d == s.clock + INT_MAX && forall id :: id in s.timers ==> d < s.timers[id].due))
  {
  }

  predicate Expires(s: State, step: Step, id: nat) {
    step.Loop? && step.move.DoExpire? && id in s.timers && s.timers[id].due <= step.move.now && !s.timers[id].recurring
  }

  /** An active timer stays active until it fires, as a one-shot timer, or is cancelled, unless
      everything is cleared. */
  lemma {:induction false} TimerEnds(states: seq<State>, steps: seq<Step>, i: nat, j: nat, id: nat) returns (m: nat)
    requires IsRun(states, steps) && i <= j < |states| && id in states[i].timers && id !in states[j].timers
    ensures i <= m < j && id in states[m].timers
    ensures || Expires(states[m], steps[m], id)
            || (steps[m].Begin? && (steps[m].call == DoCancelTimer(id) || steps[m].call.DoClear?))
    decreases j - i
  {
    hide Initial, Enabled, Apply;
    StepTimers(states[i], steps[i]);
    if id in states[i + 1].timers {
      m := TimerEnds(states, steps, i + 1, j, id);
    } else {
      m := i;
    }
  }

  /** Some worker takes the entry between two moments. */
  ghost predicate TakenBetween(states: seq<State>, steps: seq<Step>, i: int, j: int, task: Task)
    requires 0 <= i < j < |states| == |steps| + 1
  {
    exists m :: i < m < j && Takes(states[m], steps[m], task)
  }

  /** At `i` thread `a` owes a callback that anybody may run, and which is run if all workers leave. */
  ghost predicate CallbackRuns(states: seq<State>, steps: seq<Step>, i: nat, a: nat, id: nat)
    requires i < |steps| && |states| == |steps| + 1
  {
    && id < |states[i + 1].place| && states[i + 1].place[id] == Owed(a) && Carries(states[i + 1], Callback(id, None))
    && forall j :: i < j < |states| && Drained(states[j]) ==> TakenBetween(states, steps, i, j, Callback(id, None))
  }

  /** The round of the idle coroutine that finds timers due: a callback for each of them. */
  lemma ExpiredRun(states: seq<State>, steps: seq<Step>, i: nat, a: nat, now: nat, order: seq<nat>)
    requires IsRun(states, steps) && i < |steps| && steps[i] == Loop(a, DoExpire(now, order))
    ensures var first, due := |states[i].place|, |Due(states[i].timers, now)|;
            && due == |order| && |states[i + 1].place| == first + due
            && forall id :: first <= id < first + due ==> CallbackRuns(states, steps, i, a, id)
  {
    hide Initial, Enabled, Apply, Due, CallbackRuns, AllNew;
    var s, first, due := states[i], |states[i].place|, |Due(states[i].timers, now)|;
    DueCount(s, a, now, order);
    forall id | first <= id < first + due ensures CallbackRuns(states, steps, i, a, id) {
      OneExpired(states, steps, i, a, now, order, id);
    }
    StepAccepts(s, steps[i]);
    assert |states[i + 1].place| == first + due by { AcceptedCount(s, states[i + 1], a, now, order); }
  }

  lemma AcceptedCount(s: State, t: State, a: nat, now: nat, order: seq<nat>)
    requires AllNew(s, t, Loop(a, DoExpire(now, order)))
    ensures |t.place| == |s.place| + |Due(s.timers, now)|
  {
    hide Due;
  }

  lemma OneExpired(states: seq<State>, steps: seq<Step>, i: nat, a: nat, now: nat, order: seq<nat>, id: nat)
    requires IsRun(states, steps) && i < |steps| && steps[i] == Loop(a, DoExpire(now, order))
    requires |states[i].place| <= id < |states[i].place| + |Due(states[i].timers, now)|
    ensures CallbackRuns(states, steps, i, a, id)
  {
    hide Initial, Enabled, Apply, Drained, Carries, Takes, Due;
    var s, k := states[i], id - |states[i].place|;
    StepAccepts(s, steps[i]);
    assert Accepted(s, steps[i])[k] == Callback(id, None);
    forall j | i < j < |states| && Drained(states[j])
      ensures TakenBetween(states, steps, i, j, Callback(id, None))
    {
      var m := AcceptedStarted(states, steps, i, j, k);
    }
  }

  lemma DueCount(s: State, a: nat, now: nat, order: seq<nat>)
    requires Enabled(s, Loop(a, DoExpire(now, order)))
    ensures |Due(s.timers, now)| == |order|
  {
    hide Due, Elements;
    ElementsCount(order);
  }
}
