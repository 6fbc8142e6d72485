/**
  The parts of libev's watcher and loop structures (libev-master/ev.h, ev_vars.h, ev.c) that
  the pending queues, the timers, the periodics and the file descriptor table share.
 */
module EventLoop {
  import opened Wrappers

  // The bits of event masks.  A mask is the set of its one-bits, so `|` is union and `&` is
  // intersection.
  datatype Bit = Read | Write | IoFdSet | TimerBit | PeriodicBit | ErrorBit | Reify | Eperm

  type Mask = set<Bit>

  const MINPRI := -2
  const MAXPRI := 2
  const NUMPRI := 5

  /** Any watcher: the union of the fields of ev_watcher, ev_io, ev_timer and ev_periodic. */
  class Watcher {
    var active: nat
    var pending: nat
    var priority: int
    var at: real
    var repeat: real
    var offset: real
    var interval: real
    var fd: nat
    var events: Mask

    constructor (priority: int)
      ensures active == 0 && pending == 0 && this.priority == priority
    {
      active, pending, this.priority := 0, 0, priority;
      at, repeat, offset, interval := 0.0, 0.0, 0.0, 0.0;
      fd, events := 0, {};
    }
  }

  // ANPENDING; None stands for the loop's dummy pending_w.
  datatype Slot = Slot(w: Option<Watcher>, events: Mask)

  // ANHE: a heap element with its cached deadline.
  datatype Entry = Entry(at: real, w: Watcher)

  // What has happened to pending watchers, oldest first.
  datatype Happening =
    | Fed(w: Watcher, bits: Mask)
    | Cleared(w: Watcher)
    | Delivered(w: Watcher, bits: Mask)

  predicate PriorityInRange(w: Watcher)
    reads w`priority
  {
    MINPRI <= w.priority <= MAXPRI
  }

  // ABSPRI: the index of the queue for a watcher's priority.
  function Abspri(w: Watcher): int
    reads w`priority
  {
    w.priority - MINPRI
  }

  /** ev_start, with pri_adjust; the count of active watchers is the caller's. */
  method StartWatcher(w: Watcher, active: nat)
    modifies w`active, w`priority
    ensures w.active == active && PriorityInRange(w)
    ensures old(PriorityInRange(w)) ==> w.priority == old(w.priority)
    ensures old(w.priority) < MINPRI ==> w.priority == MINPRI
    ensures old(w.priority) > MAXPRI ==> w.priority == MAXPRI
  {
    var pri := w.priority;
    pri := if pri < MINPRI then MINPRI else pri;
    pri := if pri > MAXPRI then MAXPRI else pri;
    w.priority := pri;
    w.active := active;
  }
}
