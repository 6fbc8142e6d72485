/**
  The table of file descriptors of libev's loop (anfds and fdchanges in libev-master/ev.c):
  which watchers watch an fd, which events the backend has been told of, and which fds have
  to be looked at again before the next poll.
 */
module FdInterest {
  import opened Wrappers
  import opened EventLoop
  import opened PendingQueues
  import opened Growth

  const IO: Mask := {Read, Write}
  const ANFD_SIZE := 16  // sizeof (ANFD)

  // Generation counters are 32 bits wide and wrap around.
  const GENERATIONS := 0x1_0000_0000

  type Generation = n: nat | n < GENERATIONS

  function Next(g: Generation): Generation {
    (g + 1) % GENERATIONS
  }

  function Previous(g: Generation): (p: Generation)
    ensures Next(p) == g
  {
    if g == 0 then GENERATIONS - 1 else g - 1
  }

  // ANFD.  The list of watchers is in the order of the `next` pointers.
  datatype Anfd = Anfd(head: seq<Watcher>, events: Mask, reify: Mask, emask: Mask, egen: Generation)

  const NEW_ANFD := Anfd([], {}, {}, {}, 0)

  /** The OR of what these watchers ask for. */
  function Wanted(ws: seq<Watcher>): (m: Mask)
    reads (set w | w in ws)`events
    ensures forall i :: 0 <= i < |ws| ==> ws[i].events <= m
  {
    if ws == [] then {} else Wanted(ws[..|ws| - 1]) + ws[|ws| - 1].events
  }

  lemma WantedNothing()
    ensures Wanted([]) == {}
  {}

  // Nothing but what some watcher asks for.
  lemma {:induction false} WantedBySome(ws: seq<Watcher>, b: Bit)
    ensures b in Wanted(ws) ==> exists i :: 0 <= i < |ws| && b in ws[i].events
  {
    if ws != [] && b in Wanted(ws) && b !in ws[|ws| - 1].events {
      WantedBySome(ws[..|ws| - 1], b);
    }
  }

  /** The feeds that an fd's readiness causes, in list order: to each watcher the bits it asks
      for, if any. */
  function Feeds(ws: seq<Watcher>, revents: Mask): seq<Happening>
    reads (set w | w in ws)`events
  {
    if ws == [] then []
    else
      var w := ws[|ws| - 1];
      Feeds(ws[..|ws| - 1], revents) + if w.events * revents != {} then [Fed(w, w.events * revents)] else []
  }

  // What is due after a feed of these bits, if they are any.
  function Merged(before: Option<Mask>, bits: Mask): Option<Mask> {
    if bits == {} then before else Some(if before.Some? then before.value + bits else bits)
  }

  lemma {:induction false} FeedsExpected(trace: seq<Happening>, ws: seq<Watcher>, revents: Mask, w: Watcher)
    requires forall i, j :: 0 <= i < j < |ws| ==> ws[i] != ws[j]
    ensures Expected(trace + Feeds(ws, revents), w) ==
            if w in ws then Merged(Expected(trace, w), w.events * revents) else Expected(trace, w)
  {
    if ws == [] {
      assert trace + Feeds(ws, revents) == trace;
    } else {
      var (front, u) := (ws[..|ws| - 1], ws[|ws| - 1]);
      FeedsExpected(trace, front, revents, w);
      assert w in ws <==> w in front || w == u;
      var before := trace + Feeds(front, revents);
      if u.events * revents == {} {
        assert trace + Feeds(ws, revents) == before;
      } else {
        ExpectedAppend(before, Fed(u, u.events * revents), w);
        assert trace + Feeds(ws, revents) == before + [Fed(u, u.events * revents)];
      }
    }
  }

  const KILL_BITS: Mask := {ErrorBit, Read, Write}

  // What fd_kill does to the queues, watcher by watcher.
  function KillTrace(ws: seq<Watcher>): seq<Happening> {
    if ws == [] then [] else [Cleared(ws[0]), Fed(ws[0], KILL_BITS)] + KillTrace(ws[1..])
  }

  lemma KillFirstExpected(trace: seq<Happening>, u: Watcher, w: Watcher)
    ensures Expected(trace + [Cleared(u), Fed(u, KILL_BITS)], w) == if w == u then Some(KILL_BITS) else Expected(trace, w)
  {
    var (h1, h2) := (Cleared(u), Fed(u, KILL_BITS));
    ExpectedAppend(trace, h1, w);
    ExpectedAppend(trace + [h1], h2, w);
    assert trace + [h1, h2] == trace + [h1] + [h2];
  }

  lemma {:induction false} KillExpected(trace: seq<Happening>, ws: seq<Watcher>, w: Watcher)
    requires forall i, j :: 0 <= i < j < |ws| ==> ws[i] != ws[j]
    ensures Expected(trace + KillTrace(ws), w) == if w in ws then Some({ErrorBit, Read, Write}) else Expected(trace, w)
    decreases |ws|
  {
    hide Expected;
    if ws == [] {
      assert trace + KillTrace(ws) == trace;
    } else {
      var (u, rest) := (ws[0], ws[1..]);
      var first := [Cleared(u), Fed(u, KILL_BITS)];
      KillFirstExpected(trace, u, w);
      KillExpected(trace + first, rest, w);
      assert trace + (first + KillTrace(rest)) == (trace + first) + KillTrace(rest);
    }
  }

  class Fds {
    var anfds: seq<Anfd>
    var fdchanges: seq<nat>
    var activecnt: int
    ghost var reified: nat  // how many of fdchanges fd_reify has looked at; 0 outside it
    const queues: Queues
    ghost const all: set<Watcher>  // every I/O watcher there is

    // The watchers on an fd's list watch that fd.
    ghost predicate HeadOk(fd: nat)
      requires fd < |anfds|
      reads `anfds, all`active, all`fd, all`events, all`priority
    {
      var ws := anfds[fd].head;
      && (forall i :: 0 <= i < |ws| ==>
            && ws[i] in all && ws[i].active != 0 && ws[i].fd == fd
            && ws[i].events <= IO && PriorityInRange(ws[i]))
      && (forall i, j :: 0 <= i < j < |ws| ==> ws[i] != ws[j])
    }

    // An active watcher is on the list of its fd.
    ghost predicate ListedOk(w: Watcher)
      reads `anfds, w`active, w`fd
    {
      w.active != 0 ==> w.fd < |anfds| && w in anfds[w.fd].head
    }

    /** fdchanges holds the fds whose reify is not zero, once each, after those that fd_reify
        has looked at already. */
    ghost predicate ChangesOk()
      reads `anfds, `fdchanges, `reified
    {
      && reified <= |fdchanges|
      && (forall i :: reified <= i < |fdchanges| ==> fdchanges[i] < |anfds| && anfds[fdchanges[i]].reify != {})
      && (forall i, j :: reified <= i < j < |fdchanges| ==> fdchanges[i] != fdchanges[j])
      && (forall fd :: 0 <= fd < |anfds| && anfds[fd].reify != {} ==> ToReify(fd))
    }

    ghost predicate ToReify(fd: nat)
      reads `fdchanges, `reified
    {
      exists i :: reified <= i < |fdchanges| && fdchanges[i] == fd
    }

    /** The events of all other fds are what their watchers ask for. */
    ghost predicate Lazy(fd: nat)
      requires fd < |anfds|
      reads `anfds, all`events
    {
      && anfds[fd].events <= IO
      && (forall w :: w in anfds[fd].head ==> w in all)
      && (anfds[fd].reify == {} ==> anfds[fd].events == Wanted(anfds[fd].head))
    }

    ghost predicate Valid()
      reads `anfds, `fdchanges, `reified, all`active, all`fd, all`events, all`priority
      reads queues, queues.watchers`pending, queues.watchers`priority
    {
      && queues.Valid() && all <= queues.watchers
      && TableOk() && ChangesOk()
    }

    ghost predicate TableOk()
      reads `anfds, all`active, all`fd, all`events, all`priority
    {
      && (forall fd :: 0 <= fd < |anfds| ==> HeadOk(fd) && Lazy(fd))
      && (forall w :: w in all ==> ListedOk(w))
    }

    constructor (queues: Queues, ghost all: set<Watcher>)
      requires queues.Valid() && all <= queues.watchers
      requires forall w :: w in all ==> w.active == 0
      ensures Valid() && anfds == [] && fdchanges == [] && reified == 0
      ensures this.queues == queues && this.all == all
    {
      anfds, fdchanges, activecnt, reified := [], [], 0, 0;
      this.queues, this.all := queues, all;
    }

    /** fd_change */
    method FdChange(fd: nat, flags: Mask)
      requires fd < |anfds| && flags != {}
      requires ChangesOk()
      modifies `anfds, `fdchanges
      ensures ChangesOk()
      ensures anfds == old(anfds)[fd := old(anfds[fd]).(reify := old(anfds[fd].reify) + flags)]
      ensures fdchanges == if old(anfds[fd].reify) == {} then old(fdchanges) + [fd] else old(fdchanges)
    {
      var reify := anfds[fd].reify;
      anfds := anfds[fd := anfds[fd].(reify := reify + flags)];
      if reify == {} {
        fdchanges := fdchanges + [fd];
        assert fdchanges[|fdchanges| - 1] == fd;
      }
      forall u | 0 <= u < |anfds| && anfds[u].reify != {} ensures ToReify(u) {
        if u != fd || reify != {} {
          assert old(ToReify(u));
          var i :| reified <= i < |old(fdchanges)| && old(fdchanges)[i] == u;
          assert fdchanges[i] == u;
        }
      }
    }

    // array_needsize for anfds: the new entries are all zero.
    method NeedAnfds(cnt: nat)
      modifies `anfds
      ensures |anfds| >= cnt && |anfds| >= |old(anfds)|
      ensures cnt <= |old(anfds)| ==> anfds == old(anfds)
      ensures forall fd :: 0 <= fd < |anfds| ==> anfds[fd] == if fd < |old(anfds)| then old(anfds)[fd] else NEW_ANFD
    {
      if cnt > |anfds| {
        var cur, _ := NextSize(ANFD_SIZE, |anfds|, cnt);
        anfds := anfds + seq(cur - |anfds|, i => NEW_ANFD);
      }
    }

    /** ev_io_start.  The event mask is checked by the source's assertion. */
    method IoStart(w: Watcher)
      requires Valid() && w in all && w.events <= IO + {IoFdSet}
      modifies `anfds, `fdchanges, `activecnt, w`active, w`priority, w`events
      ensures Valid() && activecnt == old(activecnt) + if old(w.active) != 0 then 0 else 1
      ensures old(w.active) != 0 ==>
                anfds == old(anfds) && fdchanges == old(fdchanges) && w.active == old(w.active)
                && w.priority == old(w.priority) && w.events == old(w.events)
      ensures old(w.active) == 0 ==>
                && w.active == 1 && w.events == old(w.events) - {IoFdSet}
                && w.fd < |anfds| && |anfds| >= |old(anfds)|
                && (forall fd :: 0 <= fd < |anfds| ==>
                      var was := if fd < |old(anfds)| then old(anfds)[fd] else NEW_ANFD;
                      anfds[fd] == if fd != w.fd then was
                                   else was.(head := [w] + was.head, reify := was.reify + old(w.events) * {IoFdSet} + {Reify}))
      ensures old(PriorityInRange(w)) ==> w.priority == old(w.priority)
    {
      hide Queues.Valid, TableOk, PriorityInRange;
      queues.PendingInRange();
      if w.active != 0 {
        return;
      }
      Link(w);
      queues.IdlePriority(w);
    }

    // ev_io_start on an inactive watcher.
    method Link(w: Watcher)
      requires TableOk() && ChangesOk() && w in all && w.active == 0 && w.events <= IO + {IoFdSet}
      modifies `anfds, `fdchanges, `activecnt, w`active, w`priority, w`events
      ensures TableOk() && ChangesOk()
      ensures w.active == 1 && w.events == old(w.events) - {IoFdSet} && activecnt == old(activecnt) + 1
      ensures w.fd < |anfds| && |anfds| >= |old(anfds)|
      ensures forall fd :: 0 <= fd < |anfds| ==>
                var was := if fd < |old(anfds)| then old(anfds)[fd] else NEW_ANFD;
                anfds[fd] == if fd != w.fd then was
                             else was.(head := [w] + was.head, reify := was.reify + old(w.events) * {IoFdSet} + {Reify})
      ensures PriorityInRange(w) && (old(PriorityInRange(w)) ==> w.priority == old(w.priority))
    {
      hide TableOk, PriorityInRange, ToReify;
      var fd := w.fd;
      StartWatcher(w, 1);
      activecnt := activecnt + 1;
      NeedAnfds(fd + 1);
      anfds := anfds[fd := anfds[fd].(head := [w] + anfds[fd].head)];
      FdChange(fd, w.events * {IoFdSet} + {Reify});
      w.events := w.events - {IoFdSet};
      Linked(w);
    }

    twostate lemma Linked(w: Watcher)
      requires old(TableOk()) && w in all && old(w.active) == 0 && w.active == 1
      requires w.events <= IO && PriorityInRange(w) && w.fd == old(w.fd)
      requires forall u :: u in all && u != w ==>
                 u.active == old(u.active) && u.fd == old(u.fd) && u.events == old(u.events) && u.priority == old(u.priority)
      requires w.fd < |anfds| && |anfds| >= |old(anfds)|
      requires forall fd :: 0 <= fd < |anfds| ==>
                 var was := if fd < |old(anfds)| then old(anfds)[fd] else NEW_ANFD;
                 && (fd != w.fd ==> anfds[fd] == was)
                 && (fd == w.fd ==> anfds[fd].head == [w] + was.head && anfds[fd].events == was.events && anfds[fd].reify != {})
      ensures TableOk()
    {
      WantedNothing();
      hide Wanted, PriorityInRange;
      forall fd | 0 <= fd < |anfds| ensures HeadOk(fd) {
        if fd < |old(anfds)| {
          assert old(HeadOk(fd));
        }
      }
      forall fd | 0 <= fd < |anfds| ensures Lazy(fd) {
        if fd < |old(anfds)| {
          assert old(HeadOk(fd) && Lazy(fd));
        }
      }
      forall u | u in all ensures ListedOk(u) {
        assert old(ListedOk(u));
      }
    }

    // The fd and the events of a watcher that is not active may change (ev_io_set).
    twostate lemma IdleSet(w: Watcher)
      requires old(Valid()) && w in all && old(w.active) == 0
      requires unchanged(this, queues) && queues.Valid()
      requires forall u :: u in all ==> u.active == old(u.active) && u.priority == old(u.priority)
      requires forall u :: u in all && u != w ==> u.fd == old(u.fd) && u.events == old(u.events)
      ensures Valid()
    {
      hide Wanted, PriorityInRange, Queues.Valid;
      forall fd | 0 <= fd < |anfds| ensures HeadOk(fd) && Lazy(fd) {
        assert old(HeadOk(fd) && Lazy(fd));
      }
      forall u | u in all ensures ListedOk(u) {
        assert old(ListedOk(u));
      }
    }

    /** ev_io_stop */
    method IoStop(w: Watcher)
      requires Valid() && w in all
      modifies `anfds, `fdchanges, `activecnt, w`active
      modifies queues`pendings, queues`trace, w`pending
      ensures Valid() && w.active == 0 && w.pending == 0
      ensures activecnt == old(activecnt) - if old(w.active) != 0 then 1 else 0
      ensures queues.trace == old(queues.trace) + [Cleared(w)]
      ensures old(w.active) == 0 ==> anfds == old(anfds) && fdchanges == old(fdchanges)
      ensures old(w.active) != 0 ==> w.fd < |old(anfds)| && Unlisted(old(anfds), w, w.fd)
      ensures |fdchanges| <= |old(fdchanges)| + 1
    {
      hide Queues.Valid, TableOk, PriorityInRange;
      var _ := queues.ClearPending(w);
      if w.active == 0 {
        return;
      }
      Unlink(w);
    }

    // The table is `before`, but for w taken off the list of its fd, which has to be looked at.
    ghost predicate Unlisted(before: seq<Anfd>, w: Watcher, fd: nat)
      requires fd < |before|
      reads `anfds
    {
      exists i :: 0 <= i < |before[fd].head| && before[fd].head[i] == w
        && anfds == before[fd := before[fd].(head := before[fd].head[..i] + before[fd].head[i + 1..],
                                             reify := before[fd].reify + {Reify})]
    }

    // ev_io_stop on an active watcher.
    method Unlink(w: Watcher)
      requires TableOk() && ChangesOk() && w in all && w.active != 0
      modifies `anfds, `fdchanges, `activecnt, w`active
      ensures TableOk() && ChangesOk()
      ensures w.active == 0 && activecnt == old(activecnt) - 1
      ensures w.fd < |old(anfds)| && Unlisted(old(anfds), w, w.fd)
      ensures |fdchanges| <= |old(fdchanges)| + 1
    {
      hide TableOk, ToReify;
      TellListed(w);
      ghost var i;
      var head;
      head, i := WlistDel(anfds[w.fd].head, w);
      anfds := anfds[w.fd := anfds[w.fd].(head := head)];
      activecnt := activecnt - 1;
      w.active := 0;
      FdChange(w.fd, {Reify});
      Unlinked(w);
    }

    lemma TellListed(w: Watcher)
      requires TableOk() && w in all
      ensures ListedOk(w)
    {}

    twostate lemma Unlinked(w: Watcher)
      requires old(TableOk()) && w in all && old(w.active) != 0 && w.active == 0
      requires forall u :: u in all ==>
                 (u != w ==> u.active == old(u.active)) && u.fd == old(u.fd) && u.events == old(u.events) && u.priority == old(u.priority)
      requires w.fd < |old(anfds)| && Unlisted(old(anfds), w, w.fd)
      ensures TableOk()
    {
      hide Wanted, PriorityInRange;
      forall fd | 0 <= fd < |anfds| ensures HeadOk(fd) {
        assert old(HeadOk(fd));
      }
      forall fd | 0 <= fd < |anfds| ensures Lazy(fd) {
        assert old(HeadOk(fd) && Lazy(fd));
      }
      forall u | u in all ensures ListedOk(u) {
        assert old(ListedOk(u));
      }
    }

    /** fd_kill: every watcher of fd is stopped and told of an error. */
    method FdKill(fd: nat)
      requires Valid() && fd < |anfds|
      modifies `anfds, `fdchanges, `activecnt, all`active
      modifies queues`pendings, queues`pendingpri, queues`trace, all`pending
      ensures Valid() && Killed(old(anfds), fd) && activecnt == old(activecnt) - |old(anfds)[fd].head|
      ensures queues.trace == old(queues.trace) + KillTrace(old(anfds)[fd].head)
      ensures forall w :: w in all && w !in old(anfds)[fd].head ==> w.active == old(w.active) && w.pending == old(w.pending)
      ensures forall w :: w in old(anfds)[fd].head ==> w.active == 0
      ensures if old(anfds)[fd].head == [] then fdchanges == old(fdchanges) else |fdchanges| <= |old(fdchanges)| + |old(anfds)[fd].head|
    {
      hide Valid, Queues.Valid, PriorityInRange;
      ghost var (before, ws) := (anfds, anfds[fd].head);
      ghost var done := 0;
      assert ws == ws[0..] && before[fd].reify == before[fd].reify + {};
      while anfds[fd].head != []
        invariant Valid() && done <= |ws| && fd < |anfds|
        invariant anfds[fd].head == ws[done..] && activecnt == old(activecnt) - done
        invariant anfds == before[fd := before[fd].(head := ws[done..], reify := before[fd].reify + if done == 0 then {} else {Reify})]
        invariant queues.trace + KillTrace(ws[done..]) == old(queues.trace) + KillTrace(ws)
        invariant forall w :: w in all && w !in ws ==> w.active == old(w.active) && w.pending == old(w.pending)
        invariant forall i :: 0 <= i < done ==> ws[i].active == 0
        invariant if done == 0 then fdchanges == old(fdchanges) else |fdchanges| <= |old(fdchanges)| + done
        decreases |anfds[fd].head|
      {
        TellHead(fd);
        KillFirst(fd, anfds[fd].head[0]);
        done := done + 1;
      }
    }

    // The body of the loop of fd_kill.
    method KillFirst(fd: nat, w: Watcher)
      requires Valid() && fd < |anfds| && anfds[fd].head != [] && w == anfds[fd].head[0]
      modifies `anfds, `fdchanges, `activecnt, w`active
      modifies queues`pendings, queues`pendingpri, queues`trace, w`pending
      ensures Valid() && w.active == 0 && w in all && activecnt == old(activecnt) - 1
      ensures anfds == old(anfds)[fd := old(anfds)[fd].(head := old(anfds)[fd].head[1..], reify := old(anfds)[fd].reify + {Reify})]
      ensures queues.trace == old(queues.trace) + [Cleared(w), Fed(w, KILL_BITS)]
      ensures |fdchanges| <= |old(fdchanges)| + 1
    {
      hide Queues.Valid, Wanted, TableOk;
      TellHead(fd);
      ghost var ws := anfds[fd].head;
      IoStop(w);
      assert ws[..0] + ws[1..] == ws[1..];
      assert forall i :: 0 < i < |ws| ==> ws[i] != ws[0];
      queues.FeedEvent(w, KILL_BITS);
    }

    lemma TellHead(fd: nat)
      requires Valid() && fd < |anfds|
      ensures HeadOk(fd)
    {}

    // The table is `before`, but for fd, which has no watchers any more.
    ghost predicate Killed(before: seq<Anfd>, fd: nat)
      requires fd < |before|
      reads `anfds
    {
      anfds == before[fd := before[fd].(head := [], reify := before[fd].reify + if before[fd].head == [] then {} else {Reify})]
    }

    /** fd_event_nocheck: each watcher of fd is fed the events it asks for. */
    method FdEventNocheck(fd: nat, revents: Mask)
      requires Valid() && fd < |anfds|
      modifies queues`pendings, queues`pendingpri, queues`trace, all`pending
      ensures Valid()
      ensures queues.trace == old(queues.trace) + Feeds(anfds[fd].head, revents)
    {
      hide TableOk, Queues.Valid, Wanted, Expected;
      TellHead(fd);
      ghost var ws := anfds[fd].head;
      var i := 0;
      while i < |anfds[fd].head|
        invariant 0 <= i <= |ws| && Valid()
        invariant queues.trace == old(queues.trace) + Feeds(ws[..i], revents)
      {
        var w := anfds[fd].head[i];
        var ev := w.events * revents;
        if ev != {} {
          queues.FeedEvent(w, ev);
        }
        assert ws[..i + 1][..i] == ws[..i];
        i := i + 1;
      }
      assert ws[..i] == ws;
    }

    /** fd_event: fds that have reify set are passed over. */
    method FdEvent(fd: nat, revents: Mask)
      requires Valid() && fd < |anfds|
      modifies queues`pendings, queues`pendingpri, queues`trace, all`pending
      ensures Valid()
      ensures queues.trace == old(queues.trace) +
                if anfds[fd].reify == {} then Feeds(anfds[fd].head, revents) else []
    {
      if anfds[fd].reify == {} {
        FdEventNocheck(fd, revents);
      }
    }

    lemma TellEvents(fd: nat)
      requires Valid() && fd < |anfds|
      ensures anfds[fd].events <= IO
    {
      assert Lazy(fd);
    }

    // What the lists of watchers say.
    lemma TellWatches()
      requires Valid()
      ensures forall fd :: 0 <= fd < |anfds| ==> anfds[fd].events <= IO
      ensures forall fd, w :: 0 <= fd < |anfds| && w in anfds[fd].head ==>
                w in all && w.fd == fd && (anfds[fd].reify == {} ==> w.events <= anfds[fd].events)
    {
      forall fd, w | 0 <= fd < |anfds| && w in anfds[fd].head
        ensures w in all && w.fd == fd && (anfds[fd].reify == {} ==> w.events <= anfds[fd].events)
      {
        assert HeadOk(fd) && Lazy(fd);
      }
      forall fd | 0 <= fd < |anfds| ensures anfds[fd].events <= IO {
        assert Lazy(fd);
      }
    }

    lemma TellLists()
      requires Valid()
      ensures forall w :: w in all && w.active != 0 ==> w.fd < |anfds| && w in anfds[w.fd].head
    {
      assert forall w :: w in all ==> ListedOk(w);
    }

    lemma TellReified()
      requires Valid()
      ensures reified <= |fdchanges|
    {}

    lemma TellMarked(i: nat)
      requires Valid() && reified <= i < |fdchanges|
      ensures fdchanges[i] < |anfds| && anfds[fdchanges[i]].reify != {}
    {}

    lemma NextInRange(i: nat)
      requires Valid() && reified == i < |fdchanges|
      ensures fdchanges[i] < |anfds|
    {}

    /** One iteration of fd_reify up to the call of backend_modify: the fd that has changed,
        whether the backend has to be told, and the masks to tell it. */
    method ReifyNext(i: nat) returns (fd: nat, tell: bool, oev: Mask, nev: Mask)
      requires Valid() && i == reified < |fdchanges|
      modifies `anfds, `reified
      ensures Valid() && reified == old(reified) + 1
      ensures fd == fdchanges[i] && fd < |anfds|
      ensures oev == old(anfds)[fd].events <= IO && nev == Wanted(anfds[fd].head) <= IO
      ensures anfds == old(anfds)[fd := old(anfds)[fd].(reify := {}, events := nev)]
      ensures tell <==> oev != nev || IoFdSet in old(anfds)[fd].reify
    {
      hide Queues.Valid;
      fd := fdchanges[i];
      TellHead(fd);
      oev := anfds[fd].events;
      var reify := anfds[fd].reify;
      nev := OrOfEvents(anfds[fd].head);
      WantedIsIo(fd);
      anfds := anfds[fd := anfds[fd].(reify := {}, events := nev)];
      reified := reified + 1;
      if oev != nev {
        reify := {IoFdSet};
      }
      tell := IoFdSet in reify;
      Reified(fd);
    }

    // fd_reify, as far as the table of fds is concerned.
    method ReifyAll()
      requires Valid() && reified == 0
      modifies `anfds, `fdchanges, `reified
      ensures Valid() && reified == 0 && fdchanges == [] && |anfds| == |old(anfds)|
      ensures forall fd :: 0 <= fd < |anfds| ==> anfds[fd].reify == {} && anfds[fd].events == Wanted(anfds[fd].head)
    {
      hide Valid, Wanted;
      var i := 0;
      TellReified();
      while i < |fdchanges|
        invariant Valid() && reified == i <= |fdchanges| && |anfds| == |old(anfds)|
      {
        NextInRange(i);
        var _, _, _, _ := ReifyNext(i);
        i := i + 1;
      }
      EndReify(i);
    }

    lemma {:induction false} WantedIsIo(fd: nat)
      requires fd < |anfds| && HeadOk(fd)
      ensures Wanted(anfds[fd].head) <= IO
    {
      forall b | b in Wanted(anfds[fd].head) ensures b in IO {
        WantedBySome(anfds[fd].head, b);
      }
    }

    twostate lemma Reified(fd: nat)
      requires old(Valid()) && old(reified) < |fdchanges| && fdchanges == old(fdchanges)
      requires reified == old(reified) + 1 && fd == fdchanges[old(reified)] && fd < |old(anfds)|
      requires queues.Valid() && all <= queues.watchers
      requires unchanged(all)
      requires Wanted(old(anfds)[fd].head) <= IO
      requires anfds == old(anfds)[fd := old(anfds)[fd].(reify := {}, events := Wanted(old(anfds)[fd].head))]
      ensures Valid()
    {
      hide Wanted, PriorityInRange, Queues.Valid;
      forall u | 0 <= u < |anfds| ensures HeadOk(u) && Lazy(u) {
        assert old(HeadOk(u) && Lazy(u));
      }
      forall w | w in all ensures ListedOk(w) {
        assert old(ListedOk(w));
      }
      forall u | 0 <= u < |anfds| && anfds[u].reify != {} ensures ToReify(u) {
        assert old(ToReify(u));
      }
    }

    /** The end of fd_reify: no fd has to be looked at any more, and the events of every fd are
        what its watchers ask for. */
    method EndReify(i: nat)
      requires Valid() && i == reified == |fdchanges|
      modifies `fdchanges, `reified
      ensures Valid() && fdchanges == [] && reified == 0
      ensures forall fd :: 0 <= fd < |anfds| ==> anfds[fd].reify == {} && anfds[fd].events == Wanted(anfds[fd].head)
    {
      hide Queues.Valid, Wanted, HeadOk;
      assert forall fd :: 0 <= fd < |anfds| ==> anfds[fd].reify == {} && Lazy(fd);
      fdchanges := [];
      reified := 0;
    }

    /** fd_rearm_all */
    method FdRearmAll()
      requires Valid()
      modifies `anfds, `fdchanges
      ensures Valid() && |anfds| == |old(anfds)|
      ensures forall fd :: 0 <= fd < |anfds| ==>
                anfds[fd] == if old(anfds)[fd].events == {} then old(anfds)[fd]
                             else old(anfds)[fd].(events := {}, emask := {}, reify := old(anfds)[fd].reify + {IoFdSet, Reify})
    {
      hide Queues.Valid, Wanted, HeadOk, ToReify;
      for fd := 0 to |anfds|
        invariant Valid() && |anfds| == |old(anfds)|
        invariant forall u :: fd <= u < |anfds| ==> anfds[u] == old(anfds)[u]
        invariant forall u :: 0 <= u < fd ==>
                    anfds[u] == if old(anfds)[u].events == {} then old(anfds)[u]
                                else old(anfds)[u].(events := {}, emask := {}, reify := old(anfds)[u].reify + {IoFdSet, Reify})
      {
        if anfds[fd].events != {} {
          RearmOne(fd);
        }
      }
    }

    method RearmOne(fd: nat)
      requires Valid() && fd < |anfds|
      modifies `anfds, `fdchanges
      ensures Valid()
      ensures anfds == old(anfds)[fd := old(anfds)[fd].(events := {}, emask := {}, reify := old(anfds)[fd].reify + {IoFdSet, Reify})]
    {
      hide Queues.Valid, Wanted, ToReify;
      anfds := anfds[fd := anfds[fd].(events := {}, emask := {})];
      FdChange(fd, {IoFdSet, Reify});
      forall u | 0 <= u < |anfds| ensures HeadOk(u) && Lazy(u) {
        assert old(HeadOk(u) && Lazy(u));
      }
      forall w | w in all ensures ListedOk(w) {
        assert old(ListedOk(w));
      }
    }

    // ---------- What the rest of the program does to the fds ----------

    // The event masks of all watchers are what ev_io_start accepts.
    ghost predicate MasksOk()
      reads all`events
    {
      forall w :: w in all ==> w.events <= IO + {IoFdSet}
    }

    ghost predicate StepOk(step: FdStep) {
      match step
      case SetIo(w, _, events) => w in all && events <= IO
      case Start(w) => w in all
      case Stop(w) => w in all
      case Reset(w, _, events) => w in all && events <= IO
      case Kill(_) => true
    }

    // What the step does to w, if anything, it does because w is active.
    ghost predicate Spares(step: FdStep, w: Watcher)
      reads w`active
    {
      (step.Kill? || step.w != w) && (w in all ==> w.active == 0)
    }

    // What the step does to the queues.
    ghost function StepTrace(step: FdStep): seq<Happening>
      reads `anfds
    {
      match step
      case SetIo(_, _, _) => []
      case Start(_) => []
      case Stop(w) => [Cleared(w)]
      case Reset(w, _, _) => [Cleared(w)]
      case Kill(fd) => if fd < |anfds| then KillTrace(anfds[fd].head) else []
    }

    lemma SparedExpected(trace: seq<Happening>, step: FdStep, w: Watcher)
      requires Valid() && Spares(step, w)
      ensures Expected(trace + StepTrace(step), w) == Expected(trace, w)
    {
      hide Expected, KillTrace, ChangesOk, Queues.Valid, Lazy;
      assert trace + [] == trace;
      match step
      case SetIo(_, _, _) =>
      case Start(_) =>
      case Stop(u) => ExpectedAppend(trace, Cleared(u), w);
      case Reset(u, _, _) => ExpectedAppend(trace, Cleared(u), w);
      case Kill(fd) =>
        if fd < |anfds| {
          assert HeadOk(fd);
          KillExpected(trace, anfds[fd].head, w);
        }
    }

    /** Starting, stopping and killing watchers leaves alone what the backends look at.  A watcher
        that is set anew has its fd marked as such. */
    method Apply(step: FdStep, ghost spared: set<Watcher>)
      requires Valid() && MasksOk() && StepOk(step) && forall w :: w in spared ==> Spares(step, w)
      modifies `anfds, `fdchanges, `activecnt, all`active, all`fd, all`events, all`priority, all`pending
      modifies queues`pendings, queues`pendingpri, queues`trace
      ensures Valid() && MasksOk() && BackendSame(old(anfds), anfds)
      ensures step.Reset? ==> step.fd < |anfds| && IoFdSet in anfds[step.fd].reify && step.w in anfds[step.fd].head
      ensures queues.trace == old(queues.trace) + old(StepTrace(step))
      ensures forall w :: w in spared ==> Spares(step, w)
      ensures forall w :: w in all && old(PriorityInRange(w)) ==> PriorityInRange(w)
    {
      hide Queues.Valid, TableOk, ChangesOk, KillTrace;
      match step
      case SetIo(w, fd, events) => SetIo(w, fd, events);
      case Start(w) => IoStart(w);
      case Stop(w) => IoStop(w);
      case Reset(w, fd, events) =>
        IoStop(w);
        SetIo(w, fd, events);
        IoStart(w);
      case Kill(fd) =>
        if fd < |anfds| {
          TellHead(fd);
          FdKill(fd);
        }
    }

    /** ev_io_set, which must not be called on an active watcher. */
    method SetIo(w: Watcher, fd: nat, events: Mask)
      requires Valid() && MasksOk() && w in all && events <= IO
      modifies w`fd, w`events
      ensures Valid() && MasksOk()
      ensures w.active == 0 ==> w.fd == fd && w.events == events + {IoFdSet}
      ensures w.active != 0 ==> w.fd == old(w.fd) && w.events == old(w.events)
    {
      hide Queues.Valid, TableOk, ChangesOk;
      if w.active == 0 {
        w.fd := fd;
        w.events := events + {IoFdSet};
        IdleSet(w);
      }
    }
  }

  // Reset is ev_io_stop, ev_io_set and ev_io_start, by which a program says that it has reopened
  // the fd.
  datatype FdStep =
    | SetIo(w: Watcher, fd: nat, events: Mask)
    | Start(w: Watcher)
    | Stop(w: Watcher)
    | Reset(w: Watcher, fd: nat, events: Mask)
    | Kill(fd: nat)

  /** The fields that the backends look at are the same, new fds have none of them set, and no fd
      has lost a mark. */
  ghost predicate BackendSame(before: seq<Anfd>, now: seq<Anfd>) {
    && |before| <= |now|
    && (forall fd :: 0 <= fd < |before| ==>
          && now[fd].events == before[fd].events && now[fd].emask == before[fd].emask
          && now[fd].egen == before[fd].egen && before[fd].reify <= now[fd].reify)
    && (forall fd :: |before| <= fd < |now| ==> now[fd].events == {} && now[fd].emask == {} && now[fd].egen == 0)
  }

  // The loop of fd_reify over an fd's watchers.
  method OrOfEvents(head: seq<Watcher>) returns (events: Mask)
    ensures events == Wanted(head)
  {
    events := {};
    var i := 0;
    while i < |head|
      invariant 0 <= i <= |head| && events == Wanted(head[..i])
    {
      events := events + head[i].events;
      assert head[..i + 1][..i] == head[..i];
      i := i + 1;
    }
    assert head[..i] == head;
  }

  /** wlist_del */
  method WlistDel(head: seq<Watcher>, elem: Watcher) returns (head': seq<Watcher>, ghost i: nat)
    ensures elem !in head ==> head' == head
    ensures elem in head ==>
              i < |head| && head[i] == elem && elem !in head[..i] && head' == head[..i] + head[i + 1..]
  {
    var k := 0;
    while k < |head|
      invariant k <= |head| && elem !in head[..k]
    {
      if head[k] == elem {
        return head[..k] + head[k + 1..], k;
      }
      k := k + 1;
    }
    return head, k;
  }
}
