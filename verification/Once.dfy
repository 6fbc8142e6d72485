/**
  ev_once (libev-master/ev.c): an I/O watcher and a timer that share one callback, and that
  callback's running at most once, over any run of the loop.
 */
module Once {
  import opened Wrappers
  import opened EventLoop
  import opened TimerHeap
  import opened PendingQueues
  import opened FdInterest
  import opened Timers

  // The fds and the timers of one loop.
  ghost predicate LoopOk(fds: Fds, timers: TimerLoop)
    reads fds, timers, timers.timers, timers.queues
    reads fds.all`active, fds.all`fd, fds.all`events, fds.all`priority
    reads timers.all`active, timers.all`priority, timers.all`repeat, timers.all`at
    reads fds.queues, fds.queues.watchers`pending, fds.queues.watchers`priority
    reads timers.queues.watchers`pending, timers.queues.watchers`priority
  {
    && fds.queues == timers.queues && fds.all !! timers.all
    && fds.Valid() && fds.MasksOk() && fds.reified == 0
    && timers.Valid() && fds.queues.rfeeds == []
  }

  class EvOnce {
    const fds: Fds
    const timers: TimerLoop
    const io: Watcher
    const to: Watcher
    var freed: bool
    var calls: seq<Mask>  // the bits that the user's callback has been called with

    ghost predicate Valid()
      reads this, fds, timers, timers.timers, timers.queues
      reads fds.all`active, fds.all`fd, fds.all`events, fds.all`priority
      reads timers.all`active, timers.all`priority, timers.all`repeat, timers.all`at
      reads fds.queues, fds.queues.watchers`pending, fds.queues.watchers`priority
      reads timers.queues.watchers`pending, timers.queues.watchers`priority
      reads io`active, to`active
    {
      && LoopOk(fds, timers)
      && io in fds.all && to in timers.all
      && |calls| == (if freed then 1 else 0)
      && (freed ==> Gone())
    }

    /** Neither watcher is active or pending. */
    ghost predicate Gone()
      reads io`active, to`active, fds, fds.queues`trace
    {
      && io.active == 0 && to.active == 0
      && Expected(fds.queues.trace, io) == None && Expected(fds.queues.trace, to) == None
    }

    /** ev_once, after the allocation: io and `to` are new, and neither active nor pending. */
    constructor (fds: Fds, timers: TimerLoop, io: Watcher, to: Watcher, fd: int, events: Mask, timeout: real)
      requires LoopOk(fds, timers) && io in fds.all && to in timers.all
      requires io.active == 0 && to.active == 0 && PriorityInRange(io) && PriorityInRange(to)
      requires events <= IO
      modifies fds`anfds, fds`fdchanges, fds`activecnt
      modifies io`active, io`fd, io`events, io`priority
      modifies timers`timers, timers`timercnt, timers`activecnt, timers.timers, timers.all`active, to`at, to`repeat, to`priority
      ensures Valid() && !freed && this.fds == fds && this.timers == timers && this.io == io && this.to == to
      ensures (io.active != 0) == (fd >= 0) && (to.active != 0) == (timeout >= 0.0)
      ensures fd >= 0 ==> io.fd == fd && io.events == events
      ensures timeout >= 0.0 ==> to.at == timeout + timers.mnNow && to.repeat == 0.0
    {
      this.fds, this.timers, this.io, this.to, freed, calls := fds, timers, io, to, false, [];
      new;
      if fd >= 0 {
        SetIo(fd, events);
      }
      if timeout >= 0.0 {
        SetTo(timeout);
      }
    }

    method SetIo(fd: nat, events: Mask)
      requires LoopOk(fds, timers) && io in fds.all && io.active == 0 && events <= IO
      requires PriorityInRange(io)
      modifies fds`anfds, fds`fdchanges, fds`activecnt
      modifies io`active, io`fd, io`events, io`priority
      ensures LoopOk(fds, timers) && io.active != 0 && io.fd == fd && io.events == events
    {
      hide Fds.TableOk, Queues.Valid, IsHeap, Watchers;
      io.fd := fd;
      io.events := events + {IoFdSet};
      fds.IdleSet(io);
      fds.IoStart(io);
    }

    method SetTo(timeout: real)
      requires LoopOk(fds, timers) && to in timers.all && to.active == 0 && timeout >= 0.0
      requires PriorityInRange(to)
      modifies timers`timers, timers`timercnt, timers`activecnt, timers.timers, timers.all`active, to`at, to`repeat, to`priority
      ensures LoopOk(fds, timers) && to.active != 0 && to.at == timeout + timers.mnNow && to.repeat == 0.0
    {
      hide Fds.TableOk, Fds.ChangesOk, Queues.Valid, TimerLoop.HeapOk;
      to.at := timeout;
      to.repeat := 0.0;
      timers.IdleSet(to);
      timers.TimerStart(to);
    }

    /** once_cb */
    method OnceCb(revents: Mask)
      requires Valid() && !freed
      modifies this`freed, this`calls
      modifies fds`anfds, fds`fdchanges, fds`activecnt, io`active
      modifies timers`timercnt, timers`activecnt, timers.timers, timers.all`active, to`at
      modifies fds.queues`pendings, fds.queues`trace, io`pending, to`pending
      ensures Valid() && freed && calls == old(calls) + [revents]
    {
      hide Fds.Valid, TimerLoop.Valid;
      StopBoth();
      freed := true;
      calls := calls + [revents];
    }

    method StopBoth()
      requires LoopOk(fds, timers) && io in fds.all && to in timers.all
      modifies fds`anfds, fds`fdchanges, fds`activecnt, io`active
      modifies timers`timercnt, timers`activecnt, timers.timers, timers.all`active, to`at
      modifies fds.queues`pendings, fds.queues`trace, io`pending, to`pending
      ensures LoopOk(fds, timers) && Gone()
    {
      hide Fds.TableOk, Fds.ChangesOk, Queues.Valid, TimerLoop.HeapOk, Expected, PriorityInRange,
        Fds.MasksOk, Watchers, Fits, Fds.Unlisted;
      fds.IoStop(io);
      timers.TimerStop(to);
      fds.queues.NotDue();
    }

    // once_cb_io and once_cb_to: the other watcher's pending bits are added.
    method OnceCbOf(other: Watcher, revents: Mask)
      requires Valid() && !freed && (other == io || other == to)
      modifies this`freed, this`calls
      modifies fds`anfds, fds`fdchanges, fds`activecnt, io`active
      modifies timers`timercnt, timers`activecnt, timers.timers, timers.all`active, to`at
      modifies fds.queues`pendings, fds.queues`trace, io`pending, to`pending
      ensures Valid() && freed
      ensures calls == old(calls) + [revents + Bits(old(Expected(fds.queues.trace, other)))]
    {
      hide Fds.TableOk, Fds.ChangesOk, TimerLoop.HeapOk, Queues.Valid, Expected, PriorityInRange;
      fds.queues.DueBits(other);
      var bits := fds.queues.ClearPending(other);
      OnceCb(revents + bits);
    }

    // ---------- Runs ----------

    /** An fd becomes ready. */
    method Ready(fd: nat, revents: Mask)
      requires Valid()
      modifies fds.queues`pendings, fds.queues`pendingpri, fds.queues`trace, fds.all`pending
      ensures Valid() && calls == old(calls)
    {
      hide Fds.ChangesOk, TimerLoop.HeapOk, Queues.Valid, Expected, PriorityInRange, Wanted;
      if fd < |fds.anfds| {
        fds.TellHead(fd);
        ghost var (trace, ws) := (fds.queues.trace, fds.anfds[fd].head);
        assert trace + [] == trace;
        FeedsExpected(trace, ws, revents, io);
        FeedsExpected(trace, ws, revents, to);
        fds.FdEvent(fd, revents);
      }
    }

    // Time passes, and timers_reify runs.
    method Clock(now: real)
      requires LoopOk(fds, timers) && io in fds.all && to in timers.all
      modifies timers`mnNow, timers`timercnt, timers`activecnt, timers.timers, timers.all`active, timers.all`at
      modifies fds.queues`pendings, fds.queues`pendingpri, fds.queues`trace, fds.queues`rfeeds, fds.queues.watchers`pending
      ensures LoopOk(fds, timers)
      ensures io.active == old(io.active) && Expected(fds.queues.trace, io) == old(Expected(fds.queues.trace, io))
      ensures old(to.active) == 0 ==>
                to.active == 0 && Expected(fds.queues.trace, to) == old(Expected(fds.queues.trace, to))
    {
      hide Fds.TableOk, Fds.ChangesOk, TimerLoop.HeapOk, Queues.Valid, Expected, Watchers, TimerLoop.Outcome,
        Fds.MasksOk, TimerLoop.Clears, AreOverdue, SortedBy, ReversedSlots;
      ghost var trace := fds.queues.trace;
      timers.TellTimer(to);
      timers.mnNow := now;
      ghost var due := timers.Deadlines();
      ghost var fired := timers.TimersReify();
      timers.TellOutcome(due, fired);
      timers.TellTimer(to);
      TimerLoop.OnlyTheFired(trace, fired, {TimerBit}, io);
      if to !in fired {
        TimerLoop.OnlyTheFired(trace, fired, {TimerBit}, to);
      }
    }

    // The callback that comes next at this priority is that of one of the two watchers.
    ghost predicate NextIsOurs(pri: nat)
      reads fds.queues
    {
      pri < NUMPRI && pri < |fds.queues.pendings| && fds.queues.pendings[pri] != []
      && var queue := fds.queues.pendings[pri];
         queue[|queue| - 1].w == Some(io) || queue[|queue| - 1].w == Some(to)
    }

    /** A callback runs: that of the newest slot of some queue.  The user is called back if and only
        if it is the slot of one of the two watchers, with the bits that both are due. */
    method Invoke(pri: nat)
      requires Valid()
      modifies this`freed, this`calls
      modifies fds`anfds, fds`fdchanges, fds`activecnt, io`active
      modifies timers`timercnt, timers`activecnt, timers.timers, timers.all`active, to`at
      modifies fds.queues`pendings, fds.queues`pendingpri, fds.queues`trace, fds.queues.watchers`pending
      ensures Valid()
      ensures calls == old(calls) +
                if old(NextIsOurs(pri))
                then [Bits(old(Expected(fds.queues.trace, io))) + Bits(old(Expected(fds.queues.trace, to)))] else []
    {
      hide Fds.TableOk, Fds.ChangesOk, TimerLoop.HeapOk, Queues.Valid, Expected, PriorityInRange;
      var queues := fds.queues;
      if pri >= NUMPRI || queues.pendings[pri] == [] {
        return;
      }
      queues.DueBits(io);
      queues.DueBits(to);
      queues.pendingpri := pri;
      ghost var trace := queues.trace;
      assert trace + [] == trace;
      var slot := queues.Pop();
      if slot.w.Some? {
        ExpectedAppend(trace, Delivered(slot.w.value, slot.events), io);
        ExpectedAppend(trace, Delivered(slot.w.value, slot.events), to);
        if slot.w == Some(io) {
          OnceCbOf(to, slot.events);
        } else if slot.w == Some(to) {
          OnceCbOf(io, slot.events);
          assert slot.events + Bits(old(Expected(queues.trace, io))) == Bits(old(Expected(queues.trace, io))) + slot.events;
        }
      }
    }

    // Whoever takes the step has no access to the two watchers.
    ghost predicate StepOk(step: Step)
      reads timers.all`repeat, fds.queues`watchers, fds.queues.watchers`priority
    {
      match step
      case Ready(_, _) => true
      case Io(io') => fds.StepOk(io') && (io'.Kill? || io'.w != io)
      case Reify => true
      case Timer(timer) => timers.StepOk(timer) && (timer.Clock? || timer.w != to)
      case Feed(w, _) => w in fds.queues.watchers && w != io && w != to && PriorityInRange(w)
      case Clear(w) => w in fds.queues.watchers && w != io && w != to
      case Invoke(_) => true
    }

    // The rest of the program works on other I/O watchers, or an fd is found to be bad.
    method Others(step: FdStep)
      requires Valid() && fds.StepOk(step) && (step.Kill? || step.w != io)
      modifies fds`anfds, fds`fdchanges, fds`activecnt
      modifies fds.all`active, fds.all`fd, fds.all`events, fds.all`priority, fds.all`pending
      modifies fds.queues`pendings, fds.queues`pendingpri, fds.queues`trace
      ensures Valid() && calls == old(calls)
      ensures forall w :: w in fds.all && old(PriorityInRange(w)) ==> PriorityInRange(w)
    {
      hide Fds.TableOk, Fds.ChangesOk, TimerLoop.HeapOk, Queues.Valid, Expected, PriorityInRange, Fds.StepTrace;
      if freed {
        fds.SparedExpected(fds.queues.trace, step, io);
        fds.SparedExpected(fds.queues.trace, step, to);
        fds.Apply(step, {io, to});
      } else {
        fds.Apply(step, {});
      }
    }

    lemma OtherHappens(trace: seq<Happening>, h: Happening)
      requires h.w != io && h.w != to
      ensures Expected(trace + [h], io) == Expected(trace, io) && Expected(trace + [h], to) == Expected(trace, to)
    {
      ExpectedAppend(trace, h, io);
      ExpectedAppend(trace, h, to);
    }

    // The rest of the program works on other timers, or time passes.
    method TimerOp(step: TimerStep)
      requires Valid() && timers.StepOk(step) && (step.Clock? || step.w != to)
      modifies timers`timers, timers`mnNow, timers`timercnt, timers`activecnt, timers.timers
      modifies timers.all`active, timers.all`at, timers.all`priority
      modifies fds.queues`pendings, fds.queues`pendingpri, fds.queues`trace, fds.queues`rfeeds, fds.queues.watchers`pending
      ensures Valid() && calls == old(calls)
      ensures timers.timers == old(timers.timers) || fresh(timers.timers)
      ensures forall w :: w in timers.all && old(PriorityInRange(w)) ==> PriorityInRange(w)
    {
      hide Fds.TableOk, Fds.ChangesOk, TimerLoop.HeapOk, Queues.Valid, Expected, PriorityInRange;
      match step
      case Start(w) => StartOther(w);
      case Stop(w) => StopOther(w);
      case Again(w) => AgainOther(w);
      case Clock(now) => Clock(now);
    }

    method StartOther(w: Watcher)
      requires Valid() && w in timers.all && w != to && w.repeat >= 0.0
      modifies timers`timers, timers`timercnt, timers`activecnt, timers.timers
      modifies timers.all`active, w`at, w`priority
      ensures Valid() && (timers.timers == old(timers.timers) || fresh(timers.timers))
      ensures old(PriorityInRange(w)) ==> PriorityInRange(w)
    {
      hide Fds.TableOk, Fds.ChangesOk, TimerLoop.HeapOk, Queues.Valid, Expected, PriorityInRange, Watchers;
      timers.TellTimer(to);
      timers.TimerStart(w);
      timers.TellTimer(to);
    }

    method StopOther(w: Watcher)
      requires Valid() && w in timers.all && w != to
      modifies timers`timercnt, timers`activecnt, timers.timers, timers.all`active, w`at
      modifies fds.queues`pendings, fds.queues`trace, w`pending
      ensures Valid()
    {
      hide Fds.TableOk, Fds.ChangesOk, TimerLoop.HeapOk, Queues.Valid, Expected, PriorityInRange, Watchers;
      timers.TellTimer(to);
      OtherHappens(fds.queues.trace, Cleared(w));
      timers.TimerStop(w);
      timers.TellTimer(to);
    }

    method AgainOther(w: Watcher)
      requires Valid() && w in timers.all && w != to && w.repeat >= 0.0
      modifies timers`timers, timers`timercnt, timers`activecnt, timers.timers
      modifies timers.all`active, w`at, w`priority
      modifies fds.queues`pendings, fds.queues`trace, w`pending
      ensures Valid() && (timers.timers == old(timers.timers) || fresh(timers.timers))
      ensures old(PriorityInRange(w)) ==> PriorityInRange(w)
    {
      hide Fds.TableOk, Fds.ChangesOk, TimerLoop.HeapOk, Queues.Valid, Expected, PriorityInRange, Watchers;
      timers.TellTimer(to);
      ghost var once := fds.queues.trace + [Cleared(w)];
      assert once + [] == once;
      OtherHappens(fds.queues.trace, Cleared(w));
      OtherHappens(once, Cleared(w));
      timers.TimerAgain(w);
      timers.TellTimer(to);
    }

    method FeedOther(w: Watcher, bits: Mask)
      requires Valid() && w in fds.queues.watchers && w != io && w != to && PriorityInRange(w)
      modifies fds.queues`pendings, fds.queues`pendingpri, fds.queues`trace, w`pending
      ensures Valid() && calls == old(calls)
    {
      hide Fds.TableOk, Fds.ChangesOk, TimerLoop.HeapOk, Queues.Valid, Expected, PriorityInRange;
      OtherHappens(fds.queues.trace, Fed(w, bits));
      fds.queues.FeedEvent(w, bits);
    }

    method ClearOther(w: Watcher)
      requires Valid() && w in fds.queues.watchers && w != io && w != to
      modifies fds.queues`pendings, fds.queues`trace, w`pending
      ensures Valid() && calls == old(calls)
    {
      hide Fds.TableOk, Fds.ChangesOk, TimerLoop.HeapOk, Queues.Valid, Expected, PriorityInRange;
      OtherHappens(fds.queues.trace, Cleared(w));
      var _ := fds.queues.ClearPending(w);
    }

    // fd_reify runs.
    method ReifyFds()
      requires Valid()
      modifies fds`anfds, fds`fdchanges, fds`reified
      ensures Valid() && calls == old(calls)
    {
      hide Fds.TableOk, Fds.ChangesOk, TimerLoop.HeapOk, Queues.Valid, Expected, PriorityInRange;
      fds.ReifyAll();
    }

    /** Over any run, the user's callback is called at most once, and when it has been, neither
        watcher is active or pending. */
    method Run(steps: seq<Step>)
      requires Valid() && forall i :: 0 <= i < |steps| ==> StepOk(steps[i])
      modifies this`freed, this`calls
      modifies fds`anfds, fds`fdchanges, fds`reified, fds`activecnt
      modifies fds.all`active, fds.all`fd, fds.all`events, fds.all`priority
      modifies timers`timers, timers`mnNow, timers`timercnt, timers`activecnt, timers.timers
      modifies timers.all`active, timers.all`at, timers.all`priority
      modifies fds.queues`pendings, fds.queues`pendingpri, fds.queues`trace, fds.queues`rfeeds, fds.queues.watchers`pending
      ensures Valid() && old(calls) <= calls && |calls| <= 1
      ensures |calls| == 1 ==> Gone()
    {
      hide LoopOk, PriorityInRange;
      TellSets();
      for i := 0 to |steps|
        invariant Valid() && old(calls) <= calls && (timers.timers == old(timers.timers) || fresh(timers.timers))
        invariant forall k :: 0 <= k < |steps| ==> StepOk(steps[k])
      {
        match steps[i]
        case Ready(fd, revents) => Ready(fd, revents);
        case Io(step) => Others(step);
        case Reify => ReifyFds();
        case Timer(step) => TimerOp(step);
        case Feed(w, bits) => FeedOther(w, bits);
        case Clear(w) => ClearOther(w);
        case Invoke(pri) => Invoke(pri);
      }
    }

    /** Once the callback has been called, nothing refers to the freed watchers: not the heap, not
        the list of any fd, not any pending slot. */
    lemma Unreferenced()
      requires Valid() && freed
      ensures to !in timers.Armed()
      ensures forall fd :: 0 <= fd < |fds.anfds| ==> io !in fds.anfds[fd].head
      ensures forall p, k :: 0 <= p < NUMPRI && 0 <= k < |fds.queues.pendings[p]| ==>
                fds.queues.pendings[p][k].w != Some(io) && fds.queues.pendings[p][k].w != Some(to)
    {
      hide Fds.ChangesOk, IsHeap, Expected, Wanted, PriorityInRange;
      assert timers.WatcherOk(to);
      fds.queues.NotDue();
      forall fd | 0 <= fd < |fds.anfds| ensures io !in fds.anfds[fd].head {
        assert fds.HeadOk(fd);
      }
      forall p, k | 0 <= p < NUMPRI && 0 <= k < |fds.queues.pendings[p]|
        ensures fds.queues.pendings[p][k].w != Some(io) && fds.queues.pendings[p][k].w != Some(to)
      {
        assert fds.queues.SlotOk(p, k);
      }
    }

    lemma TellSets()
      requires LoopOk(fds, timers)
      ensures fds.all <= fds.queues.watchers && timers.queues == fds.queues
    {}
  }

  // What else happens in the loop.  Invoke runs the callback of the newest slot of a queue; what
  // the callbacks of other watchers do is the Io, Timer, Feed and Clear steps that come next.
  datatype Step =
    | Ready(fd: nat, revents: Mask)
    | Io(step: FdStep)
    | Reify
    | Timer(timer: TimerStep)
    | Feed(w: Watcher, bits: Mask)
    | Clear(w: Watcher)
    | Invoke(pri: nat)

  function Bits(due: Option<Mask>): Mask {
    if due.Some? then due.value else {}
  }
}
