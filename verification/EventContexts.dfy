/** The locked sections of addEvent, delEvent, cancelEvent and processEvent: one descriptor's
    bit mask, its two handler slots and the kernel's interest in it. */
module EventContexts {
  import opened Wrappers
  import opened IoMachine

  type EventMask = bv32

  const NONE: EventMask := 0
  const READ: EventMask := 1
  const WRITE: EventMask := 4
  const ALL_EVENTS: EventMask := READ | WRITE

  datatype Control = Add(events: EventMask) | Modify(events: EventMask) | Delete

  datatype Outcome = Done | Invalid | Exists | Missing | KernelRefused

  /** What epoll_ctl does to a registration; the kernel refuses an operation that does not fit. */
  function KernelAfter(interest: Option<EventMask>, op: Control): Result<Option<EventMask>, ()> {
    match op
    case Add(events) => if interest.None? then Ok(Some(events)) else Err(())
    case Modify(events) => if interest.Some? then Ok(Some(events)) else Err(())
    case Delete => if interest.Some? then Ok(None) else Err(())
  }

  predicate Has(mask: EventMask, event: EventMask) {
    mask & event != 0
  }

  lemma CommonBits(events: EventMask, event: EventMask)
    ensures events & event & READ != 0 <==> Has(events, READ) && Has(event, READ)
    ensures events & event & WRITE != 0 <==> Has(events, WRITE) && Has(event, WRITE)
    ensures Has(events & !event, READ) <==> Has(events, READ) && !Has(event, READ)
    ensures Has(events & !event, WRITE) <==> Has(events, WRITE) && !Has(event, WRITE)
    ensures events & !ALL_EVENTS == 0 ==>
              events & !event & !ALL_EVENTS == 0 && (events & !event == events <==> events & event == NONE)
    ensures events & !ALL_EVENTS == 0 ==>
              (events & event == NONE <==>
                 !(Has(events, READ) && Has(event, READ)) && !(Has(events, WRITE) && Has(event, WRITE)))
  {
  }

  lemma BothBits(events: EventMask, event: EventMask)
    ensures Has(event & events, READ) <==> Has(events, READ) && Has(event, READ)
    ensures Has(event & events, WRITE) <==> Has(events, WRITE) && Has(event, WRITE)
    ensures events & !(event & events) == events <==> event & events == NONE
    ensures events & !ALL_EVENTS == 0 ==>
              (event & events == NONE <==>
                 !(Has(events, READ) && Has(event, READ)) && !(Has(events, WRITE) && Has(event, WRITE)))
  {
  }

  function FilledBy(fd: nat, read: Option<Task>, write: Option<Task>): map<Slot, Task> {
    (if read.Some? then map[Slot(fd, false) := read.value] else map[]) +
    (if write.Some? then map[Slot(fd, true) := write.value] else map[])
  }

  /** Emptying slots, seen on the map of the filled ones. */
  lemma Emptied(fd: nat, read: Option<Task>, write: Option<Task>, r: bool, w: bool)
    ensures var before, left, right := FilledBy(fd, read, write), r && read.Some?, w && write.Some?;
            var keys := Chosen(before, fd, r, w);
            && Without(before, keys) == FilledBy(fd, if left then None else read, if right then None else write)
            && |keys| == (if left then 1 else 0) + (if right then 1 else 0)
            && (Slot(fd, false) in keys <==> left) && (Slot(fd, true) in keys <==> right)
            && (left ==> before[Slot(fd, false)] == read.value) && (right ==> before[Slot(fd, true)] == write.value)
  {
    var before := FilledBy(fd, read, write);
    assert Without(before, Chosen(before, fd, r, w)) ==
           FilledBy(fd, if r && read.Some? then None else read, if w && write.Some? then None else write);
  }

  class FdContext {
    const fd: nat
    var events: EventMask
    var read: Option<Task>
    var write: Option<Task>
    /** The kernel's entry for this descriptor. */
    var interest: Option<EventMask>

    /** A bit is set exactly when its handler slot is filled. */
    ghost predicate Valid()
      reads this
    {
      && (Has(events, READ) <==> read.Some?)
      && (Has(events, WRITE) <==> write.Some?)
      && events & !ALL_EVENTS == 0
    }

    /** The kernel watches exactly the set bits. */
    ghost predicate Watched()
      reads this
    {
      interest == if events == NONE then None else Some(events)
    }

    /** The filled slots. */
    ghost function Filled(): map<Slot, Task>
      reads this
    {
      FilledBy(fd, read, write)
    }

    constructor (fd: nat)
      ensures Valid() && Watched() && Filled() == map[] && this.fd == fd
    {
      this.fd := fd;
      events, read, write, interest := NONE, None, None, None;
    }

    /** epoll_ctl for the change to `updated`.  `fails` is a failure of the kernel's own, such as
        a descriptor closed meanwhile. */
    method UpdateEpoll(updated: EventMask, fails: bool) returns (ok: bool)
      requires updated != events
      modifies this`interest
      ensures old(Watched()) ==> (ok <==> !fails)
      ensures old(Watched()) && ok ==> interest == if updated == NONE then None else Some(updated)
      ensures !ok ==> interest == old(interest)
    {
      var op := if updated == NONE then Delete else if events == NONE then Add(updated) else Modify(updated);
      var after := KernelAfter(interest, op);
      if fails || after.Err? {
        return false;
      }
      interest := after.value;
      return true;
    }

    method AddEvent(event: EventMask, handler: Task, fails: bool) returns (outcome: Outcome)
      requires Valid()
      modifies this`events, this`read, this`write, this`interest
      ensures Valid()
      ensures outcome == Invalid <==> event != READ && event != WRITE
      ensures outcome == Exists <==> (event == READ || event == WRITE) && Slot(fd, event == WRITE) in old(Filled())
      ensures outcome == Done ==> Filled() == old(Filled())[Slot(fd, event == WRITE) := handler]
      ensures outcome != Done ==> Filled() == old(Filled()) && events == old(events)
      ensures outcome != Missing
      ensures old(Watched()) ==> Watched() && (outcome == KernelRefused ==> fails)
    {
      if !(event == READ || event == WRITE) {
        return Invalid;
      }
      if events & event != 0 {
        return Exists;
      }
      var updated := events | event;
      var ok := UpdateEpoll(updated, fails);
      if !ok {
        return KernelRefused;
      }
      if event == READ {
        read := Some(handler);
      } else {
        write := Some(handler);
      }
      events := updated;
      return Done;
    }

    /** delEvent, and the locked part of cancelEvent: the handlers of the bits that are set leave
        their slots, reading first. */
    method RemoveEvents(event: EventMask, fails: bool)
      returns (outcome: Outcome, readHandler: Option<Task>, writeHandler: Option<Task>, removed: nat)
      requires Valid()
      modifies this`events, this`read, this`write, this`interest
      ensures Valid()
      ensures outcome == Invalid <==> event == NONE || event & !ALL_EVENTS != 0
      ensures outcome == Missing <==> !(event == NONE || event & !ALL_EVENTS != 0) &&
                                      Chosen(old(Filled()), fd, Has(event, READ), Has(event, WRITE)) == []
      ensures outcome == Done ==> Taken(old(Filled()), Filled(), event, readHandler, writeHandler, removed)
      ensures outcome != Done ==> Filled() == old(Filled()) && removed == 0 && readHandler.None? && writeHandler.None?
      ensures outcome != Exists
      ensures old(Watched()) ==> Watched() && (outcome == KernelRefused ==> fails)
    {
      readHandler, writeHandler, removed := None, None, 0;
      if event == NONE || event & !ALL_EVENTS != 0 {
        return Invalid, None, None, 0;
      }
      CommonBits(events, event);
      ChosenByBits(event);
      hide Has, Filled, Chosen;
      var actual := events & event;
      if actual == NONE {
        return Missing, None, None, 0;
      }
      var updated := events & !event;
      var ok := UpdateEpoll(updated, fails);
      if !ok {
        return KernelRefused, None, None, 0;
      }
      readHandler, writeHandler, removed := TakeOut(event);
      return Done, readHandler, writeHandler, removed;
    }

    /** The handlers of the bits that are set leave their slots, and the bits are cleared. */
    method TakeOut(event: EventMask)
      returns (readHandler: Option<Task>, writeHandler: Option<Task>, removed: nat)
      requires Valid()
      modifies this`events, this`read, this`write
      ensures Valid() && events == old(events) & !event
      ensures Taken(old(Filled()), Filled(), event, readHandler, writeHandler, removed)
    {
      CommonBits(events, event);
      Emptied(fd, read, write, Has(event, READ), Has(event, WRITE));
      hide Has, FilledBy, Chosen, Without;
      readHandler, writeHandler, removed := None, None, 0;
      if events & event & READ != 0 {
        readHandler, read := read, None;
        removed := removed + 1;
      }
      if events & event & WRITE != 0 {
        writeHandler, write := write, None;
        removed := removed + 1;
      }
      events := events & !event;
    }

    lemma ReportedBits(input: bool, output: bool)
      ensures Has(Reported(input, output), READ) <==> input
      ensures Has(Reported(input, output), WRITE) <==> output
    {
    }

    lemma ReadyIsReported(reported: EventMask)
      requires Valid()
      ensures var ready := reported & events;
              && Chosen(Filled(), fd, Has(ready, READ), Has(ready, WRITE)) ==
                   Chosen(Filled(), fd, Has(reported, READ), Has(reported, WRITE))
              && (ready == NONE <==>
                    !(Has(events, READ) && Has(reported, READ)) && !(Has(events, WRITE) && Has(reported, WRITE)))
              && (events & !ready == events <==> ready == NONE)
    {
      BothBits(events, reported);
      hide Has;
    }

    lemma ChosenByBits(event: EventMask)
      requires Valid()
      ensures Chosen(Filled(), fd, Has(event, READ), Has(event, WRITE)) == [] <==>
                !(Has(events, READ) && Has(event, READ)) && !(Has(events, WRITE) && Has(event, WRITE))
    {
      hide Has;
    }

    /** The locked part of processEvent, for what epoll reported: an error or a hang-up reports
        both directions, and the kernel's answer is ignored. */
    method ProcessEvent(input: bool, output: bool, broken: bool, fails: bool)
      returns (handled: bool, readHandler: Option<Task>, writeHandler: Option<Task>, removed: nat)
      requires Valid()
      modifies this`events, this`read, this`write, this`interest
      ensures Valid()
      ensures handled <==> Chosen(old(Filled()), fd, input || broken, output || broken) != []
      ensures handled ==> Taken(old(Filled()), Filled(), Reported(input || broken, output || broken),
                                readHandler, writeHandler, removed)
      ensures !handled ==> Filled() == old(Filled()) && removed == 0 && readHandler.None? && writeHandler.None?
      ensures old(Watched()) && !fails ==> Watched()
    {
      readHandler, writeHandler, removed := None, None, 0;
      var ready := NONE;
      if input || broken {
        ready := ready | READ;
      }
      if output || broken {
        ready := ready | WRITE;
      }
      assert ready == Reported(input || broken, output || broken);
      ReportedBits(input || broken, output || broken);
      ChosenByBits(ready);
      ReadyIsReported(ready);
      hide Has, Filled, Chosen, Reported;
      ready := ready & events;
      if ready == NONE {
        return false, None, None, 0;
      }
      var updated := events & !ready;
      var _ := UpdateEpoll(updated, fails);
      readHandler, writeHandler, removed := TakeOut(ready);
      return true, readHandler, writeHandler, removed;
    }

    function Reported(input: bool, output: bool): EventMask {
      (if input then READ else NONE) | (if output then WRITE else NONE)
    }

    /** The chosen slots are emptied, and each handler is handed out once. */
    ghost predicate Taken(before: map<Slot, Task>, after: map<Slot, Task>, event: EventMask,
                          readHandler: Option<Task>, writeHandler: Option<Task>, removed: nat)
    {
      var keys := Chosen(before, fd, Has(event, READ), Has(event, WRITE));
      && after == Without(before, keys)
      && removed == |keys|
      && readHandler == (if Slot(fd, false) in keys then Some(before[Slot(fd, false)]) else None)
      && writeHandler == (if Slot(fd, true) in keys then Some(before[Slot(fd, true)]) else None)
    }
  }
}
