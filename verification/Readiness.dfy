/**
  What a backend's poll reports, for any backend: the kernel is a function that says of every
  fd what it is ready for.
 */
module Readiness {
  import opened Wrappers
  import opened EventLoop
  import opened PendingQueues
  import opened FdInterest

  /** `err` stands for errors and hang-ups, which make an fd readable and writable; `closed`
      fds are not open any more. */
  datatype Ready = Ready(inp: bool, outp: bool, err: bool, closed: bool)

  function Report(r: Ready): Mask {
    (if r.inp || r.err then {Read} else {}) + (if r.outp || r.err then {Write} else {})
  }

  /** What is due to an active watcher after a poll: what its fd is ready for, if it asks for
      it and the fd is not waiting for fd_reify, or an error if the fd is closed. */
  function AfterPoll(before: Option<Mask>, r: Ready, reify: Mask, events: Mask): Option<Mask> {
    if r.closed then Some(KILL_BITS)
    else if reify != {} then before
    else Merged(before, events * Report(r))
  }

  // The fds that a backend is told of: those with events.
  ghost function Polled(anfds: seq<Anfd>): set<nat> {
    set fd: nat | fd < |anfds| && anfds[fd].events != {}
  }

  // What happens to the fds of a loop between its fd_reify and its polls.
  datatype LoopStep = Io(step: FdStep) | Reify | Poll(ready: nat -> Ready)

  /** Exactly the readiness of the fds in `told` has been reported, starting from this table
      and this trace.  The masks that only epoll keeps may have changed. */
  ghost predicate Told(fds: Fds, ready: nat -> Ready, told: set<nat>, anfds: seq<Anfd>, trace: seq<Happening>)
    reads fds`anfds, fds.queues`trace, fds.all`fd, fds.all`events
  {
    && |fds.anfds| == |anfds|
    && (forall fd :: 0 <= fd < |anfds| && fd !in told ==>
          fds.anfds[fd] == anfds[fd].(emask := fds.anfds[fd].emask))
    && (forall fd :: 0 <= fd < |anfds| ==> fds.anfds[fd].events == anfds[fd].events)
    && (forall w :: w in fds.all ==>
          Expected(fds.queues.trace, w) ==
            if w.fd in told && w.fd < |anfds| && w in anfds[w.fd].head
            then AfterPoll(Expected(trace, w), ready(w.fd), anfds[w.fd].reify, w.events)
            else Expected(trace, w))
  }

  // The report about one fd.
  method Tell(fds: Fds, fd: nat, r: Ready, revents: Mask)
    requires fds.Valid() && fd < |fds.anfds|
    requires !r.closed ==> fds.anfds[fd].events * revents == fds.anfds[fd].events * Report(r)
    modifies fds`anfds, fds`fdchanges, fds`activecnt, fds.all`active
    modifies fds.queues`pendings, fds.queues`pendingpri, fds.queues`trace, fds.all`pending
    ensures fds.Valid() && |fds.anfds| == |old(fds.anfds)|
    ensures forall u :: 0 <= u < |fds.anfds| && u != fd ==> fds.anfds[u] == old(fds.anfds)[u]
    ensures fds.anfds[fd].events == old(fds.anfds)[fd].events
    ensures forall w :: w in fds.all ==>
              Expected(fds.queues.trace, w) ==
                if w in old(fds.anfds)[fd].head
                then AfterPoll(old(Expected(fds.queues.trace, w)), r, old(fds.anfds)[fd].reify, w.events)
                else old(Expected(fds.queues.trace, w))
  {
    fds.TellHead(fd);
    ghost var (trace, ws) := (fds.queues.trace, fds.anfds[fd].head);
    hide Fds.Valid, Expected, Wanted;
    if r.closed {
      fds.FdKill(fd);
      forall w ensures Expected(fds.queues.trace, w) == if w in ws then Some(KILL_BITS) else Expected(trace, w) {
        KillExpected(trace, ws, w);
      }
    } else {
      Bits(fds, fd, r, revents);
      fds.FdEvent(fd, revents);
      forall w
        ensures Expected(trace + Feeds(ws, revents), w) ==
                if w in ws then Merged(Expected(trace, w), w.events * revents) else Expected(trace, w)
      {
        FeedsExpected(trace, ws, revents, w);
      }
      assert trace + [] == trace;
    }
  }

  // What matters of the report is the bits that the fd's watchers ask for.
  lemma Bits(fds: Fds, fd: nat, r: Ready, revents: Mask)
    requires fds.Valid() && fd < |fds.anfds| && fds.anfds[fd].events * revents == fds.anfds[fd].events * Report(r)
    ensures fds.anfds[fd].reify == {} ==>
              forall w :: w in fds.anfds[fd].head ==> w.events * revents == w.events * Report(r)
  {
    if fds.anfds[fd].reify == {} {
      assert fds.Lazy(fd);
      forall w | w in fds.anfds[fd].head ensures w.events * revents == w.events * Report(r) {
        var m := fds.anfds[fd].events;
        assert w.events <= m;
        assert w.events * revents == w.events * (m * revents);
        assert w.events * Report(r) == w.events * (m * Report(r));
      }
    }
  }

  /** Reporting one more fd.  A closed fd is killed; of any other, the bits that the fd's mask
      asks for are fed. */
  method TellMore(fds: Fds, fd: nat, ready: nat -> Ready, revents: Mask,
                  ghost told: set<nat>, ghost anfds: seq<Anfd>, ghost trace: seq<Happening>)
    requires fds.Valid() && fd < |anfds| && fd !in told && Told(fds, ready, told, anfds, trace)
    requires !ready(fd).closed ==> anfds[fd].events * revents == anfds[fd].events * Report(ready(fd))
    modifies fds`anfds, fds`fdchanges, fds`activecnt, fds.all`active
    modifies fds.queues`pendings, fds.queues`pendingpri, fds.queues`trace, fds.all`pending
    ensures fds.Valid() && Told(fds, ready, told + {fd}, anfds, trace)
  {
    hide Fds.Valid, Expected, AfterPoll;
    fds.TellHead(fd);
    Tell(fds, fd, ready(fd), revents);
  }

  // An fd with nothing to report makes no difference.
  lemma NothingMore(fds: Fds, fd: nat, ready: nat -> Ready, told: set<nat>, anfds: seq<Anfd>, trace: seq<Happening>)
    requires fds.Valid() && fd < |anfds| && fd !in told && Told(fds, ready, told, anfds, trace)
    requires !ready(fd).closed && anfds[fd].events * Report(ready(fd)) == {}
    ensures Told(fds, ready, told + {fd}, anfds, trace)
  {
    hide Fds.Valid, Expected, Report, Merged;
    fds.TellHead(fd);
    Bits(fds, fd, ready(fd), {});
    assert forall w :: w in anfds[fd].head && anfds[fd].reify == {} ==> w.events * Report(ready(fd)) == {};
    forall w | w in anfds[fd].head
      ensures AfterPoll(Expected(trace, w), ready(fd), anfds[fd].reify, w.events) == Expected(trace, w)
    {
      MergeNothing(Expected(trace, w));
    }
  }

  lemma MergeNothing(before: Option<Mask>)
    ensures Merged(before, {}) == before
  {}

  lemma NothingTold(fds: Fds, ready: nat -> Ready)
    ensures Told(fds, ready, {}, fds.anfds, fds.queues.trace)
  {}

  // The polled fds below `n` that are closed.
  ghost function ClosedBelow(anfds: seq<Anfd>, ready: nat -> Ready, n: nat): set<nat> {
    set fd | fd in Polled(anfds) && fd < n && ready(fd).closed
  }

  /** fd_ebadf: the closed fds, and no others, are killed. */
  method FdEbadf(fds: Fds, ready: nat -> Ready)
    requires fds.Valid()
    modifies fds`anfds, fds`fdchanges, fds`activecnt, fds.all`active
    modifies fds.queues`pendings, fds.queues`pendingpri, fds.queues`trace, fds.all`pending
    ensures fds.Valid()
    ensures Told(fds, ready, ClosedBelow(old(fds.anfds), ready, |old(fds.anfds)|), old(fds.anfds), old(fds.queues.trace))
  {
    hide Fds.Valid, Report;
    ghost var (anfds, trace) := (fds.anfds, fds.queues.trace);
    NothingTold(fds, ready);
    assert ClosedBelow(anfds, ready, 0) == {};
    for fd := 0 to |fds.anfds|
      invariant |fds.anfds| == |anfds| && fds.Valid()
      invariant Told(fds, ready, ClosedBelow(anfds, ready, fd), anfds, trace)
    {
      ClosedNext(anfds, ready, fd);
      if fds.anfds[fd].events != {} && ready(fd).closed {
        TellMore(fds, fd, ready, {}, ClosedBelow(anfds, ready, fd), anfds, trace);
      }
    }
  }

  lemma ClosedNext(anfds: seq<Anfd>, ready: nat -> Ready, n: nat)
    requires n < |anfds|
    ensures n !in ClosedBelow(anfds, ready, n)
    ensures ClosedBelow(anfds, ready, n + 1) ==
            ClosedBelow(anfds, ready, n) + if anfds[n].events != {} && ready(n).closed then {n} else {}
  {}

  // The events in w's slot, if it is pending.
  ghost function PendingBits(queues: Queues, w: Watcher): Option<Mask>
    requires queues.Valid() && w in queues.watchers
    reads queues, queues.watchers`pending, queues.watchers`priority
  {
    queues.DueBits(w);
    if w.pending == 0 then None else Some(queues.pendings[Abspri(w)][w.pending - 1].events)
  }

  // The fds with events that are open.
  ghost function OpenPolled(anfds: seq<Anfd>, ready: nat -> Ready): set<nat> {
    set fd | fd in Polled(anfds) && !ready(fd).closed
  }

  /** The same for every backend: from a loop with no pending I/O watchers, the watchers that a
      poll leaves pending, and the events in their slots, are given by the table of fds, by which
      fds the backend reports, and by their readiness. */
  lemma PendingAfterPoll(fds: Fds, ready: nat -> Ready, told: set<nat>, anfds: seq<Anfd>, trace: seq<Happening>, w: Watcher)
    requires fds.Valid() && w in fds.all && Told(fds, ready, told, anfds, trace)
    requires Expected(trace, w) == None
    ensures var (watching, r) := (w.fd in told && w.fd < |anfds| && w in anfds[w.fd].head, ready(w.fd));
            var bits := set b | b in w.events && ((b == Read && (r.inp || r.err)) || (b == Write && (r.outp || r.err)));
            PendingBits(fds.queues, w) ==
              if watching && r.closed then Some({ErrorBit, Read, Write})
              else if watching && anfds[w.fd].reify == {} && bits != {} then Some(bits)
              else None
  {
    fds.queues.DueBits(w);
    var r := ready(w.fd);
    assert w.events * Report(r) ==
      set b | b in w.events && ((b == Read && (r.inp || r.err)) || (b == Write && (r.outp || r.err)));
  }
}
