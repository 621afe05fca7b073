/** The steps of the event loop: any number of worker threads running the scheduler loop and the
    idle coroutine, and any number of other threads that call in from outside.  Every atomic
    section of the program (one lock held, one atomic operation, one system call) is one step,
    so a run is an arbitrary interleaving of them. */
module IoMachine {
  import opened Wrappers

  const INT_MAX := 0x7FFF_FFFF

  /** A queue entry; `pin` is the thread it must run on, or None for any thread.  The identity
      number is bookkeeping that tells two entries for the same callback apart. */
  datatype Task =
    | Callback(id: nat, pin: Option<nat>)
    | Resume(id: nat, fiber: nat, pin: Option<nat>)

  /** One direction of one descriptor. */
  datatype Slot = Slot(fd: nat, write: bool)

  datatype Timing = Timing(due: nat, ms: nat, recurring: bool)

  /** What epoll_wait reports. */
  datatype Report = Tickled | Fd(fd: nat, read: bool, write: bool)

  /** The separate moments at which the idle coroutine decides whether to leave. */
  datatype Stage = Flag | Force | Pending | Timers | Queue

  datatype Pc =
    | Outside
    | Fetch
    | Taken(fiber: nat, pinned: bool)
    | Running(fiber: nat, pinned: bool)
    | Sample
    | Waiting(deadline: Option<nat>)
    | Handle(batch: seq<Report>, ready: bool)
    | Inspect(stage: Stage, ready: bool)
    | Left

  /** What a thread still has to do before the call it is in returns.  `Schedule` is a whole
      call of schedule(): once it has pushed, only its `Tickle` remains. */
  datatype Micro = Schedule(task: Task) | Tickle

  /** `removed` holds the registrations taken out of their slots but not yet subtracted from
      the pending counter. */
  datatype Actor = Actor(pc: Pc, removed: set<nat>, todo: seq<Micro>)

  /** Where a task is, from the call that accepted it to its end. */
  datatype Place = InSlot(slot: Slot) | Owed(actor: nat) | Queued | Started | Deleted | Cleared

  /** `place`, `counted`, `failed` and `late` are history: no step reads them to
      decide what to do. */
  datatype State = State(
    actors: seq<Actor>,
    queue: seq<Task>,
    tokens: nat,
    wakeCount: nat,
    stopping: bool,
    force: bool,
    slots: map<Slot, Task>,
    pending: int,
    timers: map<nat, Timing>,
    nextTimer: nat,
    clock: nat,
    place: seq<Place>,
    counted: set<nat>,
    failed: bool,
    late: bool)

  predicate IsWorker(actor: Actor) {
    !actor.pc.Outside?
  }

  /** The call the thread was in has returned. */
  predicate Settled(actor: Actor) {
    actor.removed == {} && actor.todo == []
  }

  /** The thread runs code of the user, which may call any operation next. */
  predicate Free(s: State, a: nat) {
    a < |s.actors| && Settled(s.actors[a]) && (s.actors[a].pc.Outside? || s.actors[a].pc.Running?)
  }

  /** A worker about to take the next step of its own loop. */
  predicate AtLoop(s: State, a: nat) {
    a < |s.actors| && Settled(s.actors[a])
  }

  ghost predicate Executing(s: State, fiber: nat) {
    exists a :: 0 <= a < |s.actors| && s.actors[a].pc.Running? && s.actors[a].pc.fiber == fiber
  }

  /** Taken from the queue and not yet put back or ended: running, or about to be resumed. */
  predicate HasFiber(actor: Actor, fiber: nat) {
    (actor.pc.Taken? || actor.pc.Running?) && actor.pc.fiber == fiber
  }

  ghost predicate Held(s: State, fiber: nat) {
    exists a :: 0 <= a < |s.actors| && HasFiber(s.actors[a], fiber)
  }

  /** getNextTask passes over tasks of other threads and coroutines that are running. */
  ghost predicate Eligible(s: State, a: nat, task: Task) {
    (task.pin.None? || task.pin.value == a) && (task.Resume? ==> !Executing(s, task.fiber))
  }

  function With(s: State, a: nat, actor: Actor): State
    requires a < |s.actors|
  {
    s.(actors := s.actors[a := actor])
  }

  /** A call from outside once stop() has been called. */
  function LateCall(s: State, a: nat): bool
    requires a < |s.actors|
  {
    s.late || (s.stopping && s.actors[a].pc.Outside?)
  }

  // ----- calls of the user

  /** schedule(): the push itself is a later step. */
  function Post(s: State, a: nat, task: Task): State
    requires a < |s.actors|
  {
    With(s, a, s.actors[a].(todo := [Schedule(task)]))
      .(place := s.place + [Owed(a)], late := LateCall(s, a))
  }

  predicate FreshRange(s: State, tasks: seq<Task>) {
    forall i :: 0 <= i < |tasks| ==> tasks[i].id == |s.place| + i
  }

  /** schedule(begin, end): all pushed under one lock, one tickle. */
  function PostBatch(s: State, a: nat, tasks: seq<Task>): State
    requires a < |s.actors| && tasks != []
  {
    With(s, a, s.actors[a].(todo := [Tickle])).(
      queue := s.queue + tasks,
      place := s.place + seq(|tasks|, i => Queued),
      late := LateCall(s, a))
  }

  /** addEvent, when the slot was empty and the kernel took the registration. */
  function AddEvent(s: State, a: nat, slot: Slot, task: Task): State
    requires a < |s.actors|
  {
    With(s, a, s.actors[a].(todo := [Tickle])).(
      slots := s.slots[slot := task],
      pending := s.pending + 1,
      counted := s.counted + {task.id},
      place := s.place + [InSlot(slot)],
      late := LateCall(s, a))
  }

  /** The filled slots among those named, reading before writing. */
  function Chosen(slots: map<Slot, Task>, fd: nat, read: bool, write: bool): (r: seq<Slot>)
    ensures forall i :: 0 <= i < |r| ==> r[i] in slots
    ensures forall i, j :: 0 <= i < j < |r| ==> r[i] != r[j]
  {
    (if read && Slot(fd, false) in slots then [Slot(fd, false)] else []) +
    (if write && Slot(fd, true) in slots then [Slot(fd, true)] else [])
  }

  function Handlers(s: State, keys: seq<Slot>): (r: seq<Task>)
    requires forall i :: 0 <= i < |keys| ==> keys[i] in s.slots
    ensures |r| == |keys|
  {
    seq(|keys|, i requires 0 <= i < |keys| => s.slots[keys[i]])
  }

  function Calls(tasks: seq<Task>): (r: seq<Micro>)
    ensures |r| == |tasks|
  {
    seq(|tasks|, i requires 0 <= i < |tasks| => Schedule(tasks[i]))
  }

  function Ids(tasks: seq<Task>): set<nat> {
    set i | 0 <= i < |tasks| :: tasks[i].id
  }

  function Without(slots: map<Slot, Task>, keys: seq<Slot>): map<Slot, Task> {
    map k | k in slots && k !in keys :: slots[k]
  }

  function Moved(place: seq<Place>, ids: set<nat>, to: Place): (r: seq<Place>)
    ensures |r| == |place|
  {
    seq(|place|, i requires 0 <= i < |place| => if i in ids then to else place[i])
  }

  /** delEvent. */
  function DelEvent(s: State, a: nat, keys: seq<Slot>): State
    requires a < |s.actors| && forall i :: 0 <= i < |keys| ==> keys[i] in s.slots
  {
    var tasks := Handlers(s, keys);
    With(s, a, s.actors[a].(removed := Ids(tasks), todo := [Tickle])).(
      slots := Without(s.slots, keys),
      place := Moved(s.place, Ids(tasks), Deleted),
      late := LateCall(s, a))
  }

  /** The locked section shared by cancelEvent and processEvent: the handlers leave their slots
      and are to be scheduled by the thread that took them. */
  function Detach(s: State, a: nat, pc: Pc, keys: seq<Slot>, after: seq<Micro>): State
    requires a < |s.actors| && forall i :: 0 <= i < |keys| ==> keys[i] in s.slots
  {
    var tasks := Handlers(s, keys);
    With(s, a, Actor(pc, Ids(tasks), Calls(tasks) + after)).(
      slots := Without(s.slots, keys),
      place := Moved(s.place, Ids(tasks), Owed(a)))
  }

  function CancelEvent(s: State, a: nat, keys: seq<Slot>): State
    requires a < |s.actors| && forall i :: 0 <= i < |keys| ==> keys[i] in s.slots
  {
    Detach(s, a, s.actors[a].pc, keys, [Tickle]).(late := LateCall(s, a))
  }

  /** Before every other timer in the order by deadline, then by age. */
  ghost predicate AtFront(timers: map<nat, Timing>, id: nat, due: nat) {
    forall t :: t in timers ==> due < timers[t].due || (due == timers[t].due && id < t)
  }

  function Remaining(timers: map<nat, Timing>, id: nat): map<nat, Timing> {
    map t | t in timers && t != id :: timers[t]
  }

  /** addTimer, refresh and reset: the timer goes in under its new deadline, and only a new
      earliest deadline is announced. */
  ghost function SetTimer(s: State, a: nat, id: nat, timing: Timing): State
    requires a < |s.actors|
  {
    var others := Remaining(s.timers, id);
    With(s, a, s.actors[a].(todo := if AtFront(others, id, timing.due) then [Tickle] else [])).(
      timers := others[id := timing],
      nextTimer := if id < s.nextTimer then s.nextTimer else id + 1,
      late := LateCall(s, a))
  }

  function CancelTimer(s: State, a: nat, id: nat): State
    requires a < |s.actors|
  {
    s.(timers := Remaining(s.timers, id), late := LateCall(s, a))
  }

  /** A thread outside the workers that is still inside a call which will push or subtract. */
  ghost predicate CallInProgress(s: State) {
    exists b :: 0 <= b < |s.actors| && s.actors[b].pc.Outside? &&
      (s.actors[b].removed != {} || exists i :: 0 <= i < |s.actors[b].todo| && s.actors[b].todo[i].Schedule?)
  }

  ghost function Stop(s: State, a: nat): State
    requires a < |s.actors|
  {
    With(s, a, s.actors[a].(todo := [Tickle])).(stopping := true, late := s.late || CallInProgress(s))
  }

  /** The destructor, once every worker has been joined: clearAllEventsWithoutResume, clearTimers. */
  function Clear(s: State): State {
    s.(slots := map[],
       pending := 0,
       counted := {},
       timers := map[],
       place := seq(|s.place|, i requires 0 <= i < |s.place| =>
         if s.place[i].InSlot? then Cleared else s.place[i]))
  }

  // ----- what a call still owes

  function Subtract(s: State, a: nat): State
    requires a < |s.actors|
  {
    With(s, a, s.actors[a].(removed := {})).(
      pending := s.pending - |s.actors[a].removed|,
      counted := s.counted - s.actors[a].removed)
  }

  function Push(s: State, a: nat): State
    requires a < |s.actors| && s.actors[a].todo != [] && s.actors[a].todo[0].Schedule?
  {
    var task := s.actors[a].todo[0].task;
    With(s, a, s.actors[a].(todo := s.actors[a].todo[0 := Tickle])).(
      queue := s.queue + [task],
      place := Moved(s.place, {task.id}, Queued))
  }

  /** The eventfd is a semaphore: one token normally, one for each worker once stopping. */
  function WriteToken(s: State, a: nat): State
    requires a < |s.actors| && s.actors[a].todo != []
  {
    With(s, a, s.actors[a].(todo := s.actors[a].todo[1..]))
      .(tokens := s.tokens + (if s.stopping then s.wakeCount else 1))
  }

  // ----- the worker loop

  function Take(s: State, a: nat, i: nat, fiber: nat): State
    requires a < |s.actors| && i < |s.queue|
  {
    With(s, a, s.actors[a].(pc := Taken(fiber, s.queue[i].pin.Some?))).(
      queue := s.queue[..i] + s.queue[i + 1..],
      place := Moved(s.place, {s.queue[i].id}, Started))
  }

  /** resume(), which marks the coroutine as running.  Between getNextTask and this the scheduler's
      lock is free, and nothing shows that the coroutine has been taken. */
  function Start(s: State, a: nat): State
    requires a < |s.actors| && s.actors[a].pc.Taken?
  {
    With(s, a, s.actors[a].(pc := Running(s.actors[a].pc.fiber, s.actors[a].pc.pinned)))
  }

  function FindNothing(s: State, a: nat): State
    requires a < |s.actors|
  {
    With(s, a, s.actors[a].(pc := Sample))
  }

  /** The coroutine came back.  One that asked to run again is scheduled at once. */
  function Finish(s: State, a: nat, again: Option<Task>): State
    requires a < |s.actors|
  {
    if again.None? then With(s, a, s.actors[a].(pc := Fetch))
    else With(s, a, s.actors[a].(pc := Fetch, todo := [Schedule(again.value)])).(place := s.place + [Owed(a)])
  }

  /** getNextTimer and the clipped timeout: a deadline already past is waited for with timeout 0. */
  function Deadline(due: nat, clock: nat): nat {
    if due <= clock then due
    else if due - clock > INT_MAX then clock + INT_MAX
    else due
  }

  ghost predicate IsEarliest(timers: map<nat, Timing>, id: nat) {
    id in timers && forall t :: t in timers ==> timers[id].due <= timers[t].due
  }

  /** `first` is a timer with the earliest deadline, if there is any timer. */
  function Block(s: State, a: nat, first: Option<nat>): State
    requires a < |s.actors| && (first.Some? ==> first.value in s.timers)
  {
    With(s, a, s.actors[a].(pc := Waiting(
      if first.None? then None else Some(Deadline(s.timers[first.value].due, s.clock)))))
  }

  function Wake(s: State, a: nat, batch: seq<Report>): State
    requires a < |s.actors|
  {
    With(s, a, s.actors[a].(pc := Handle(batch, false)))
  }

  function Interrupted(s: State, a: nat): State
    requires a < |s.actors|
  {
    With(s, a, s.actors[a].(pc := Sample))
  }

  function EpollFails(s: State, a: nat): State
    requires a < |s.actors|
  {
    With(s, a, s.actors[a].(pc := Left)).(failed := true)
  }

  /** drainTickle. */
  function Drain(s: State, a: nat, rest: seq<Report>): State
    requires a < |s.actors|
  {
    With(s, a, s.actors[a].(pc := Handle(rest, true))).(tokens := if s.tokens > 0 then s.tokens - 1 else 0)
  }

  /** processEvent; bits that no longer have a handler are ignored. */
  function ProcessEvent(s: State, a: nat, keys: seq<Slot>, rest: seq<Report>, ready: bool): State
    requires a < |s.actors| && forall i :: 0 <= i < |keys| ==> keys[i] in s.slots
  {
    if keys == [] then With(s, a, s.actors[a].(pc := Handle(rest, ready)))
    else Detach(s, a, Handle(rest, true), keys, [])
  }

  function HandleOne(s: State, a: nat): State
    requires a < |s.actors| && s.actors[a].pc.Handle? && s.actors[a].pc.batch != []
  {
    var Handle(batch, ready) := s.actors[a].pc;
    if batch[0].Tickled? then Drain(s, a, batch[1..])
    else ProcessEvent(s, a, Chosen(s.slots, batch[0].fd, batch[0].read, batch[0].write), batch[1..], ready)
  }

  function Due(timers: map<nat, Timing>, now: nat): set<nat> {
    set t | t in timers && timers[t].due <= now
  }

  /** One-shot timers leave; recurring ones move strictly past `now`. */
  function Advanced(timers: map<nat, Timing>, now: nat): map<nat, Timing> {
    map t | t in timers && (timers[t].due <= now ==> timers[t].recurring) ::
      if timers[t].due <= now
      then timers[t].(due := now + if timers[t].ms > 1 then timers[t].ms else 1)
      else timers[t]
  }

  function Elements(order: seq<nat>): set<nat> {
    set i | 0 <= i < |order| :: order[i]
  }

  function NewCallbacks(first: nat, count: nat): (r: seq<Task>)
    ensures |r| == count
  {
    seq(count, i requires 0 <= i < count => Callback(first + i, None))
  }

  /** listExpiredCallbacks, then one schedule() for each expired timer. */
  function Expire(s: State, a: nat, now: nat, count: nat): State
    requires a < |s.actors| && s.actors[a].pc.Handle?
  {
    With(s, a, s.actors[a].(
      pc := Inspect(Flag, s.actors[a].pc.ready || count > 0),
      todo := Calls(NewCallbacks(|s.place|, count)))).(
      timers := Advanced(s.timers, now),
      place := s.place + seq(count, i => Owed(a)))
  }

  /** One of the reads of IOManager::stopping(), and what idle does with the answer. */
  function InspectNext(s: State, a: nat): State
    requires a < |s.actors| && s.actors[a].pc.Inspect?
  {
    var ready := s.actors[a].pc.ready;
    var back := if ready then Fetch else Sample;
    var next := match s.actors[a].pc.stage
      case Flag => if s.stopping then Inspect(Force, ready) else back
      case Force => if s.force then Left else Inspect(Pending, ready)
      case Pending => if s.pending != 0 then back else Inspect(Timers, ready)
      case Timers => if s.timers != map[] then back else Inspect(Queue, ready)
      case Queue => if s.queue != [] then back else Left;
    With(s, a, s.actors[a].(pc := next))
  }

  // ----- the transition relation

  /** Calls that code of the user makes, on a worker or on a thread of its own. */
  datatype Call =
    | DoPost(task: Task)
    | DoPostBatch(tasks: seq<Task>)
    | DoAddEvent(slot: Slot, task: Task)
    | DoDelEvent(fd: nat, read: bool, write: bool)
    | DoCancelEvent(fd: nat, read: bool, write: bool)
    | DoSetTimer(id: nat, timing: Timing)
    | DoCancelTimer(id: nat)
    | DoStop
    | DoForceStop
    | DoClear

  /** Moves of the worker loop and its idle coroutine. */
  datatype Move =
    | DoTake(i: nat, fiber: nat)
    | DoStart
    | DoFindNothing
    | DoFinish(again: Option<Task>)
    | DoBlock(first: Option<nat>)
    | DoWake(batch: seq<Report>)
    | DoInterrupt
    | DoEpollFailure
    | DoHandle
    | DoExpire(now: nat, order: seq<nat>)
    | DoInspect

  datatype Step =
    | Begin(a: nat, call: Call)
    | Continue(a: nat)
    | Loop(a: nat, move: Move)
    | Tick(ms: nat)

  ghost predicate CallEnabled(s: State, a: nat, call: Call) {
    && Free(s, a)
    && match call
       case DoPost(task) => task.id == |s.place|
       case DoPostBatch(tasks) =>
         tasks != [] && FreshRange(s, tasks) && forall i :: 0 <= i < |tasks| ==> tasks[i].pin.None?
       case DoAddEvent(slot, task) => slot !in s.slots && task.id == |s.place| && task.pin.None?
       case DoDelEvent(fd, read, write) => Chosen(s.slots, fd, read, write) != []
       case DoCancelEvent(fd, read, write) => Chosen(s.slots, fd, read, write) != []
       case DoSetTimer(id, timing) => id in s.timers || id == s.nextTimer
       case DoCancelTimer(id) => id in s.timers
       case DoStop => !s.stopping
       case DoForceStop => true
       case DoClear =>
         && s.force && s.stopping
         && forall b :: 0 <= b < |s.actors| ==>
              Settled(s.actors[b]) && (s.actors[b].pc.Outside? || s.actors[b].pc.Left?)
  }

  ghost function ApplyCall(s: State, a: nat, call: Call): State
    requires CallEnabled(s, a, call)
  {
    match call
    case DoPost(task) => Post(s, a, task)
    case DoPostBatch(tasks) => PostBatch(s, a, tasks)
    case DoAddEvent(slot, task) => AddEvent(s, a, slot, task)
    case DoDelEvent(fd, read, write) => DelEvent(s, a, Chosen(s.slots, fd, read, write))
    case DoCancelEvent(fd, read, write) => CancelEvent(s, a, Chosen(s.slots, fd, read, write))
    case DoSetTimer(id, timing) => SetTimer(s, a, id, timing)
    case DoCancelTimer(id) => CancelTimer(s, a, id)
    case DoStop => Stop(s, a)
    case DoForceStop => s.(force := true)
    case DoClear => Clear(s)
  }

  /** The thread is inside a call that still has something to do. */
  predicate ContinueEnabled(s: State, a: nat) {
    a < |s.actors| && !Settled(s.actors[a])
  }

  function ApplyContinue(s: State, a: nat): State
    requires ContinueEnabled(s, a)
  {
    if s.actors[a].removed != {} then Subtract(s, a)
    else if s.actors[a].todo[0].Schedule? then Push(s, a)
    else WriteToken(s, a)
  }

  /** The eventfd is registered once, so a batch reports it at most once. */
  predicate OneTickle(batch: seq<Report>) {
    forall i, j :: 0 <= i < j < |batch| ==> !(batch[i].Tickled? && batch[j].Tickled?)
  }

  ghost predicate MoveEnabled(s: State, a: nat, move: Move) {
    && AtLoop(s, a)
    && var pc := s.actors[a].pc;
       match move
       case DoTake(i, fiber) =>
         && pc.Fetch? && i < |s.queue| && Eligible(s, a, s.queue[i])
         && (forall j :: 0 <= j < i ==> !Eligible(s, a, s.queue[j]))
         && (if s.queue[i].Resume? then fiber == s.queue[i].fiber else !Held(s, fiber))
       case DoStart => pc.Taken? && !Executing(s, pc.fiber)
       case DoFindNothing => pc.Fetch? && forall j :: 0 <= j < |s.queue| ==> !Eligible(s, a, s.queue[j])
       case DoFinish(again) =>
         && pc.Running?
         && (again.Some? ==> again.value.id == |s.place| && again.value.Resume? && again.value.fiber == pc.fiber)
       case DoBlock(first) =>
         pc.Sample? && (if first.None? then s.timers == map[] else IsEarliest(s.timers, first.value))
       case DoWake(batch) => pc.Waiting? && OneTickle(batch)
       case DoInterrupt => pc.Waiting?
       case DoEpollFailure => pc.Waiting?
       case DoHandle => pc.Handle? && pc.batch != []
       case DoExpire(now, order) =>
         && pc.Handle? && pc.batch == [] && now <= s.clock && Elements(order) == Due(s.timers, now)
         && forall i, j :: 0 <= i < j < |order| ==> order[i] != order[j]
       case DoInspect => pc.Inspect?
  }

  ghost function ApplyMove(s: State, a: nat, move: Move): State
    requires MoveEnabled(s, a, move)
  {
    match move
    case DoTake(i, fiber) => Take(s, a, i, fiber)
    case DoStart => Start(s, a)
    case DoFindNothing => FindNothing(s, a)
    case DoFinish(again) => Finish(s, a, again)
    case DoBlock(first) => Block(s, a, first)
    case DoWake(batch) => Wake(s, a, batch)
    case DoInterrupt => Interrupted(s, a)
    case DoEpollFailure => EpollFails(s, a)
    case DoHandle => HandleOne(s, a)
    case DoExpire(now, order) => Expire(s, a, now, |order|)
    case DoInspect => InspectNext(s, a)
  }

  ghost predicate Enabled(s: State, step: Step) {
    match step
    case Begin(a, call) => CallEnabled(s, a, call)
    case Continue(a) => ContinueEnabled(s, a)
    case Loop(a, move) => MoveEnabled(s, a, move)
    case Tick(ms) => true
  }

  ghost function Apply(s: State, step: Step): State
    requires Enabled(s, step)
  {
    match step
    case Begin(a, call) => ApplyCall(s, a, call)
    case Continue(a) => ApplyContinue(s, a)
    case Loop(a, move) => ApplyMove(s, a, move)
    case Tick(ms) => s.(clock := s.clock + ms)
  }

  /** Nothing registered or queued, workers at the top of their loop, other threads idle. */
  predicate Initial(s: State) {
    && (forall a :: 0 <= a < |s.actors| ==>
          Settled(s.actors[a]) && (s.actors[a].pc.Outside? || s.actors[a].pc.Fetch?))
    && (exists a :: 0 <= a < |s.actors| && s.actors[a].pc.Fetch?)
    && s.queue == [] && s.tokens == 0 && s.wakeCount > 0 && !s.stopping && !s.force
    && s.slots == map[] && s.pending == 0 && s.timers == map[] && s.place == [] && s.counted == {}
    && !s.failed && !s.late
  }
}
