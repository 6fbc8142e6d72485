/**
  The epoll backend (libev-master/ev_epoll.c) against a model of the kernel's interest table:
  EPOLL_CTL_ADD fails on the entries that are there, EPOLL_CTL_MOD and EPOLL_CTL_DEL on those
  that are not, and between the calls entries vanish when their fds are closed.
 */
module EpollBackend {
  import opened Wrappers
  import opened EventLoop
  import opened PendingQueues
  import opened FdInterest
  import opened Readiness

  // What an fd number stands for at the moment.
  datatype Kind = Closed | Pollable | Unpollable

  // The generation is the upper half of the data that the kernel stores for an entry.
  datatype KernelEntry = KernelEntry(gen: Generation, mask: Mask)

  datatype Op = Add | Mod | Del

  datatype Errno = Ok | Enoent | Eexist | Eperms | Ebadf

  const EPERM_MASK: Mask := {Eperm}

  class Epoll {
    var table: map<nat, KernelEntry>  // in the kernel
    var kind: nat -> Kind             // in the kernel
    var eperms: seq<nat>
    var recreate: bool                // the bit 2 of postfork

    // Only open fds that can be polled are in the kernel's table.
    ghost predicate KernelOk()
      reads this
    {
      forall fd :: fd in table ==> kind(fd) == Pollable
    }

    constructor (kind: nat -> Kind)
      ensures KernelOk() && table == map[] && eperms == [] && !recreate && this.kind == kind
    {
      table, this.kind, eperms, recreate := map[], kind, [], false;
    }

    /** Some fds are closed, and their numbers perhaps used again for other files. */
    method Reopen(changed: set<nat>, kind': nat -> Kind)
      requires KernelOk()
      modifies `table, `kind
      ensures KernelOk()
      ensures forall fd :: kind(fd) == if fd in changed then kind'(fd) else old(kind)(fd)
      ensures table == map fd | fd in old(table) && fd !in changed :: old(table)[fd]
    {
      var kind0 := kind;
      kind := (fd: nat) => if fd in changed then kind'(fd) else kind0(fd);
      table := map fd | fd in table && fd !in changed :: table[fd];
    }

    /** epoll_ctl(2) */
    method EpollCtl(op: Op, fd: nat, entry: KernelEntry) returns (errno: Errno)
      requires KernelOk()
      modifies `table
      ensures KernelOk()
      ensures errno == match kind(fd)
                       case Closed => Ebadf
                       case Unpollable => Eperms
                       case Pollable => if op == Add then (if fd in old(table) then Eexist else Ok)
                                        else (if fd in old(table) then Ok else Enoent)
      ensures table == if errno != Ok then old(table)
                       else if op == Del then old(table) - {fd} else old(table)[fd := entry]
    {
      match kind(fd)
      case Closed => errno := Ebadf;
      case Unpollable => errno := Eperms;
      case Pollable =>
        errno := if op == Add then (if fd in table then Eexist else Ok) else (if fd in table then Ok else Enoent);
        if errno == Ok {
          table := if op == Del then table - {fd} else table[fd := entry];
        }
    }
  }

  /** Every entry of the kernel's table carries the fd's current generation, and emask is the
      entry's mask or zero. */
  ghost predicate Mirror(table: map<nat, KernelEntry>, anfds: seq<Anfd>) {
    forall fd :: fd in table ==>
      && fd < |anfds|
      && table[fd].gen == anfds[fd].egen
      && {} < table[fd].mask <= IO
      && (anfds[fd].emask == table[fd].mask || anfds[fd].emask == {})
  }

  /** The fds that epoll refuses are listed. */
  ghost predicate EpermsListed(eperms: seq<nat>, anfds: seq<Anfd>) {
    && (forall i :: 0 <= i < |eperms| ==> eperms[i] < |anfds|)
    && (forall fd :: 0 <= fd < |anfds| && Eperm in anfds[fd].emask ==> fd in eperms)
  }

  ghost predicate Valid(fds: Fds, ep: Epoll)
    reads fds`anfds, ep
  {
    ep.KernelOk() && Mirror(ep.table, fds.anfds) && EpermsListed(ep.eperms, fds.anfds)
  }

  /** The kernel, or the list of fds that it refuses, has these events for fd. */
  ghost predicate Registered(table: map<nat, KernelEntry>, kind: nat -> Kind, anfds: seq<Anfd>, fd: nat, events: Mask)
    requires fd < |anfds|
  {
    match kind(fd)
    case Pollable => fd in table && table[fd] == KernelEntry(anfds[fd].egen, events)
    case Unpollable => anfds[fd].emask == EPERM_MASK
    case Closed => false
  }

  // Assigning to the epoll fields of an fd's entry.
  method SetEpoll(fds: Fds, fd: nat, emask: Mask, egen: Generation)
    requires fds.Valid() && fd < |fds.anfds|
    modifies fds`anfds
    ensures fds.Valid() && fds.anfds == old(fds.anfds)[fd := old(fds.anfds)[fd].(emask := emask, egen := egen)]
  {
    hide Queues.Valid, Wanted, PriorityInRange;
    fds.anfds := fds.anfds[fd := fds.anfds[fd].(emask := emask, egen := egen)];
    forall u | 0 <= u < |fds.anfds| ensures fds.HeadOk(u) && fds.Lazy(u) {
      assert old(fds.HeadOk(u) && fds.Lazy(u));
    }
    forall w | w in fds.all ensures fds.ListedOk(w) {
      assert old(fds.ListedOk(w));
    }
    forall u | 0 <= u < |fds.anfds| && fds.anfds[u].reify != {} ensures fds.ToReify(u) {
      assert old(fds.ToReify(u));
    }
  }

  // How the system calls of epoll_modify end: with the new entry in the table, with the old one
  // left because it asks for the same, refused, or with an error.
  datatype Outcome = Submitted | AsBefore | Refused | Failed

  /** The system calls of epoll_modify, and how many of them there are: one where the kernel's table
      is as libev last left it and a change is wanted, and two at most. */
  method Submit(ep: Epoll, fd: nat, oev: Mask, oldmask: Mask, ev: KernelEntry) returns (outcome: Outcome, ghost calls: nat)
    requires ep.KernelOk() && ev.mask != {}
    requires fd in ep.table ==> oldmask == ep.table[fd].mask || oldmask == {}
    modifies ep`table
    ensures ep.KernelOk()
    ensures match ep.kind(fd)
            case Pollable =>
              || (outcome == Submitted && ep.table == old(ep.table)[fd := ev])
              || (outcome == AsBefore && ep.table == old(ep.table) && fd in ep.table && ep.table[fd].mask == ev.mask)
            case Unpollable => outcome == Refused && ep.table == old(ep.table)
            case Closed => outcome == Failed && ep.table == old(ep.table)
    ensures 1 <= calls <= 2
    ensures && ep.kind(fd) == Pollable
            && (if oev == {} then fd !in old(ep.table) else fd in old(ep.table) && old(ep.table)[fd].mask == oldmask != ev.mask)
            ==> calls == 1
  {
    calls := 1;
    var errno := ep.EpollCtl(if oev != {} && oldmask != ev.mask then Mod else Add, fd, ev);
    if errno == Ok {
      return Submitted, calls;
    }
    if errno == Enoent {
      // the fd went away
      calls := 2;
      errno := ep.EpollCtl(Add, fd, ev);
      if errno == Ok {
        return Submitted, calls;
      }
    } else if errno == Eexist {
      // a deletion was ignored, but the fd is still active
      if oldmask == ev.mask {
        return AsBefore, calls;
      }
      calls := 2;
      errno := ep.EpollCtl(Mod, fd, ev);
      if errno == Ok {
        return Submitted, calls;
      }
    } else if errno == Eperms {
      return Refused, calls;
    }
    return Failed, calls;
  }

  lemma MirrorKept(table: map<nat, KernelEntry>, anfds: seq<Anfd>, table': map<nat, KernelEntry>, anfds': seq<Anfd>, fd: nat)
    requires Mirror(table, anfds) && |anfds'| == |anfds| && fd < |anfds|
    requires forall u :: 0 <= u < |anfds| && u != fd ==> anfds'[u].emask == anfds[u].emask && anfds'[u].egen == anfds[u].egen
    requires forall u :: u in table' && u != fd ==> u in table && table'[u] == table[u]
    requires fd in table' ==>
               table'[fd].gen == anfds'[fd].egen && {} < table'[fd].mask <= IO && anfds'[fd].emask == table'[fd].mask
    ensures Mirror(table', anfds')
  {}

  lemma EpermsKept(eperms: seq<nat>, anfds: seq<Anfd>, eperms': seq<nat>, anfds': seq<Anfd>, fd: nat)
    requires EpermsListed(eperms, anfds) && |anfds'| == |anfds| && fd < |anfds|
    requires forall u :: 0 <= u < |anfds| && u != fd ==> anfds'[u].emask == anfds[u].emask
    requires eperms' == eperms || eperms' == eperms + [fd]
    requires Eperm in anfds'[fd].emask ==> fd in eperms'
    ensures EpermsListed(eperms', anfds')
  {}

  /** epoll_modify.  An fd without events is left alone.  One that can be polled ends up in the
      kernel's table with exactly the new events, whatever the table held; one that cannot is
      listed; one that is closed is killed. */
  method EpollModify(fds: Fds, ep: Epoll, fd: nat, oev: Mask, nev: Mask)
    requires fds.Valid() && Valid(fds, ep) && fd < |fds.anfds| && nev <= IO
    modifies fds`anfds, fds`fdchanges, fds`activecnt, fds.all`active
    modifies fds.queues`pendings, fds.queues`pendingpri, fds.queues`trace, fds.all`pending
    modifies ep`table, ep`eperms
    ensures fds.Valid() && Valid(fds, ep)
    ensures |fds.anfds| == |old(fds.anfds)|
    ensures forall u :: 0 <= u < |fds.anfds| && u != fd ==> fds.anfds[u] == old(fds.anfds)[u]
    ensures fds.anfds[fd].events == old(fds.anfds)[fd].events
    ensures forall u :: u != fd ==> (u in ep.table <==> u in old(ep.table)) && (u in ep.table ==> ep.table[u] == old(ep.table)[u])
    ensures nev == {} ==> ep.table == old(ep.table) && fds.anfds == old(fds.anfds) && fds.fdchanges == old(fds.fdchanges)
    ensures ep.eperms ==
              if nev != {} && ep.kind(fd) == Unpollable && Eperm !in old(fds.anfds)[fd].emask
              then old(ep.eperms) + [fd] else old(ep.eperms)
    ensures nev != {} && ep.kind(fd) != Unpollable ==> fds.anfds[fd].emask == nev
    ensures nev != {} && ep.kind(fd) != Closed ==>
              && Registered(ep.table, ep.kind, fds.anfds, fd, nev)
              && fds.anfds[fd].head == old(fds.anfds)[fd].head && fds.anfds[fd].reify == old(fds.anfds)[fd].reify
              && fds.fdchanges == old(fds.fdchanges)
    ensures nev != {} && ep.kind(fd) == Closed ==>
              && fds.anfds[fd].head == [] && fds.anfds[fd].egen == old(fds.anfds)[fd].egen
              && (old(fds.anfds)[fd].head != [] ==> fds.anfds[fd].reify != {})
    // a changed entry is told apart from events received under the generation before
    ensures fds.anfds[fd].egen == old(fds.anfds)[fd].egen || fds.anfds[fd].egen == (old(fds.anfds)[fd].egen + 1) % 0x1_0000_0000
    ensures ep.table != old(ep.table) ==> fds.anfds[fd].egen != old(fds.anfds)[fd].egen
    ensures fds.queues.trace == old(fds.queues.trace) +
              if nev != {} && ep.kind(fd) == Closed then KillTrace(old(fds.anfds)[fd].head) else []
  {
    hide Fds.Valid, Mirror, EpermsListed, KillTrace;
    if nev == {} {
      return;
    }
    ghost var (anfds, table, eperms) := (fds.anfds, ep.table, ep.eperms);
    var oldmask, egen := fds.anfds[fd].emask, fds.anfds[fd].egen;
    TellMirror(ep.table, fds.anfds, fd);
    TellEperms(ep.eperms, fds.anfds, fd);
    SetEpoll(fds, fd, nev, Next(egen));
    var outcome, _ := Submit(ep, fd, oev, oldmask, KernelEntry(Next(egen), nev));
    Conclude(fds, ep, fd, outcome, oldmask);
    MirrorKept(table, anfds, ep.table, fds.anfds, fd);
    EpermsKept(eperms, anfds, ep.eperms, fds.anfds, fd);
  }

  // What epoll_modify does after the system calls.
  method Conclude(fds: Fds, ep: Epoll, fd: nat, outcome: Outcome, oldmask: Mask)
    requires fds.Valid() && fd < |fds.anfds|
    modifies fds`anfds, fds`fdchanges, fds`activecnt, fds.all`active
    modifies fds.queues`pendings, fds.queues`pendingpri, fds.queues`trace, fds.all`pending
    modifies ep`eperms
    ensures fds.Valid() && |fds.anfds| == |old(fds.anfds)|
    ensures forall u :: 0 <= u < |fds.anfds| && u != fd ==> fds.anfds[u] == old(fds.anfds)[u]
    ensures fds.anfds[fd].events == old(fds.anfds)[fd].events
    ensures fds.anfds[fd].emask == if outcome == Refused then EPERM_MASK else old(fds.anfds)[fd].emask
    ensures fds.anfds[fd].egen == if outcome == AsBefore || outcome == Failed then Previous(old(fds.anfds)[fd].egen) else old(fds.anfds)[fd].egen
    ensures outcome != Failed ==>
              && fds.anfds[fd].head == old(fds.anfds)[fd].head && fds.anfds[fd].reify == old(fds.anfds)[fd].reify
              && fds.fdchanges == old(fds.fdchanges)
    ensures outcome == Failed ==>
              fds.anfds[fd].head == [] && (old(fds.anfds)[fd].head != [] ==> fds.anfds[fd].reify != {})
    ensures ep.eperms == if outcome == Refused && Eperm !in oldmask then old(ep.eperms) + [fd] else old(ep.eperms)
    ensures fds.queues.trace == old(fds.queues.trace) + if outcome == Failed then KillTrace(old(fds.anfds)[fd].head) else []
  {
    hide Fds.Valid, KillTrace;
    match outcome {
      case Submitted =>
      case AsBefore =>
        SetEpoll(fds, fd, fds.anfds[fd].emask, Previous(fds.anfds[fd].egen));
      case Refused =>
        SetEpoll(fds, fd, EPERM_MASK, fds.anfds[fd].egen);
        if Eperm !in oldmask {
          ep.eperms := ep.eperms + [fd];
        }
      case Failed =>
        Abandon(fds, fd);
    }
  }

  // The kernel would not have the fd: kill it, and take the new generation back.
  method Abandon(fds: Fds, fd: nat)
    requires fds.Valid() && fd < |fds.anfds|
    modifies fds`anfds, fds`fdchanges, fds`activecnt, fds.all`active
    modifies fds.queues`pendings, fds.queues`pendingpri, fds.queues`trace, fds.all`pending
    ensures fds.Valid() && |fds.anfds| == |old(fds.anfds)|
    ensures forall u :: 0 <= u < |fds.anfds| && u != fd ==> fds.anfds[u] == old(fds.anfds)[u]
    ensures fds.anfds[fd].events == old(fds.anfds)[fd].events && fds.anfds[fd].emask == old(fds.anfds)[fd].emask
    ensures fds.anfds[fd].egen == Previous(old(fds.anfds)[fd].egen) && fds.anfds[fd].head == []
    ensures old(fds.anfds)[fd].head != [] ==> fds.anfds[fd].reify != {}
    ensures fds.queues.trace == old(fds.queues.trace) + KillTrace(old(fds.anfds)[fd].head)
  {
    hide Fds.Valid, KillTrace;
    fds.FdKill(fd);
    SetEpoll(fds, fd, fds.anfds[fd].emask, Previous(fds.anfds[fd].egen));
  }

  lemma TellEperms(eperms: seq<nat>, anfds: seq<Anfd>, fd: nat)
    requires EpermsListed(eperms, anfds) && fd < |anfds|
    ensures Eperm in anfds[fd].emask ==> fd in eperms
  {}

  lemma TellMirror(table: map<nat, KernelEntry>, anfds: seq<Anfd>, fd: nat)
    requires Mirror(table, anfds) && fd < |anfds|
    ensures fd in table ==> table[fd].gen == anfds[fd].egen && (anfds[fd].emask == table[fd].mask || anfds[fd].emask == {})
  {}

  // ---------- Agreement with the table of fds ----------

  /** The kernel has the events that the table says it was told of, or the fd has been set anew
      since, so that fd_reify will tell it. */
  ghost predicate Known(table: map<nat, KernelEntry>, kind: nat -> Kind, anfds: seq<Anfd>, fd: nat)
    requires fd < |anfds|
  {
    || anfds[fd].events == {}
    || Registered(table, kind, anfds, fd, anfds[fd].events)
    || IoFdSet in anfds[fd].reify
  }

  /** Everything is known but for the fds in `gone`, which have been closed without the loop's
      being told. */
  ghost predicate Synced(fds: Fds, ep: Epoll, gone: set<nat>)
    reads fds`anfds, ep
  {
    forall fd :: 0 <= fd < |fds.anfds| && fd !in gone ==> Known(ep.table, ep.kind, fds.anfds, fd)
  }

  // Inside fd_reify there are also fds that have been killed and will be looked at again.
  ghost predicate OrKilled(table: map<nat, KernelEntry>, kind: nat -> Kind, anfds: seq<Anfd>, fd: nat)
    requires fd < |anfds|
  {
    Known(table, kind, anfds, fd) || (anfds[fd].head == [] && anfds[fd].reify != {})
  }

  ghost predicate Syncing(fds: Fds, ep: Epoll, gone: set<nat>)
    reads fds`anfds, ep
  {
    forall fd :: 0 <= fd < |fds.anfds| && fd !in gone ==> OrKilled(ep.table, ep.kind, fds.anfds, fd)
  }

  // Only closed fds have lost watchers.
  ghost predicate HeadsKept(anfds: seq<Anfd>, anfds': seq<Anfd>, kind: nat -> Kind) {
    && |anfds'| == |anfds|
    && forall fd :: 0 <= fd < |anfds| ==> anfds'[fd].head == anfds[fd].head || (kind(fd) == Closed && anfds'[fd].head == [])
  }

  // What the rest of the program does to the fds changes nothing that epoll relies on.
  lemma BackendKept(fds: Fds, ep: Epoll, before: seq<Anfd>, gone: set<nat>)
    requires BackendSame(before, fds.anfds) && ep.KernelOk()
    requires Mirror(ep.table, before) && EpermsListed(ep.eperms, before)
    requires forall fd :: 0 <= fd < |before| && fd !in gone ==> Known(ep.table, ep.kind, before, fd)
    ensures Valid(fds, ep) && Synced(fds, ep, gone)
  {
    forall fd | 0 <= fd < |fds.anfds| && fd !in gone ensures Known(ep.table, ep.kind, fds.anfds, fd) {
      if fd < |before| {
        assert Known(ep.table, ep.kind, before, fd);
      }
    }
  }

  // The number of entries on all lists of watchers.
  ghost function Load(anfds: seq<Anfd>): nat {
    if anfds == [] then 0 else Load(anfds[..|anfds| - 1]) + |anfds[|anfds| - 1].head|
  }

  lemma {:induction false} LoadOf(anfds: seq<Anfd>, anfds': seq<Anfd>, fd: nat)
    requires fd < |anfds| == |anfds'| && forall u :: 0 <= u < |anfds| && u != fd ==> anfds'[u].head == anfds[u].head
    ensures Load(anfds') == Load(anfds) - |anfds[fd].head| + |anfds'[fd].head|
  {
    var n := |anfds| - 1;
    if fd == n {
      LoadSame(anfds[..n], anfds'[..n]);
    } else {
      LoadOf(anfds[..n], anfds'[..n], fd);
    }
  }

  lemma {:induction false} LoadSame(anfds: seq<Anfd>, anfds': seq<Anfd>)
    requires |anfds| == |anfds'| && forall u :: 0 <= u < |anfds| ==> anfds'[u].head == anfds[u].head
    ensures Load(anfds') == Load(anfds)
  {
    if anfds != [] {
      LoadSame(anfds[..|anfds| - 1], anfds'[..|anfds| - 1]);
    }
  }

  /** fd_reify will find this fd closed: it has to tell the kernel of wanted events. */
  ghost predicate Doomed(anfds: seq<Anfd>, kind: nat -> Kind, fd: nat)
    requires fd < |anfds|
    reads (set w | w in anfds[fd].head)`events
  {
    var wanted := Wanted(anfds[fd].head);
    && kind(fd) == Closed && anfds[fd].reify != {} && wanted != {}
    && (IoFdSet in anfds[fd].reify || wanted != anfds[fd].events)
  }

  /** The doomed fds, and no others, have lost their watchers, each of which is due an error; all
      other watchers are due what they were due. */
  ghost predicate Killing(fds: Fds, kind: nat -> Kind, anfds: seq<Anfd>, trace: seq<Happening>)
    reads fds`anfds, fds.queues`trace, fds.all`fd, (set fd, w | 0 <= fd < |anfds| && w in anfds[fd].head :: w)`events
  {
    && |fds.anfds| == |anfds|
    && (forall fd :: 0 <= fd < |anfds| ==> fds.anfds[fd].head == if Doomed(anfds, kind, fd) then [] else anfds[fd].head)
    && forall w :: w in fds.all ==>
         Expected(fds.queues.trace, w) ==
           if w.fd < |anfds| && w in anfds[w.fd].head && Doomed(anfds, kind, w.fd) then Some(KILL_BITS)
           else Expected(trace, w)
  }

  // Inside fd_reify, an fd has not been looked at yet, or what is to happen to it has happened.
  ghost predicate Settled(anfds: seq<Anfd>, anfds': seq<Anfd>, kind: nat -> Kind, fd: nat)
    requires fd < |anfds| == |anfds'|
    reads (set w | w in anfds[fd].head)`events
  {
    || anfds'[fd] == anfds[fd]
    || (anfds'[fd].head == (if Doomed(anfds, kind, fd) then [] else anfds[fd].head)
        && (anfds'[fd].reify != {} ==> anfds'[fd].head == []))
  }

  // What has become due to the watchers so far.
  ghost predicate KilledSoFar(fds: Fds, anfds: seq<Anfd>, trace: seq<Happening>)
    reads fds`anfds, fds.queues`trace, fds.all`fd
  {
    && |fds.anfds| == |anfds|
    && forall w :: w in fds.all ==>
         Expected(fds.queues.trace, w) ==
           if w.fd < |anfds| && w in anfds[w.fd].head && fds.anfds[w.fd].head == [] then Some(KILL_BITS)
           else Expected(trace, w)
  }

  /** fd_reify, with epoll_modify for backend_modify, which may kill fds and so change the list
      it runs over.  Afterwards the kernel's table, or the list of refused fds, has for every fd
      that is not gone the OR of what its watchers ask for; and the watchers of the closed fds that
      it has come upon, and no others, have been stopped and are due an error. */
  method FdReify(fds: Fds, ep: Epoll, ghost gone: set<nat>)
    requires fds.Valid() && fds.reified == 0 && Valid(fds, ep) && Synced(fds, ep, gone)
    modifies fds`anfds, fds`fdchanges, fds`activecnt, fds`reified, fds.all`active
    modifies fds.queues`pendings, fds.queues`pendingpri, fds.queues`trace, fds.all`pending
    modifies ep`table, ep`eperms
    ensures fds.Valid() && fds.reified == 0 && fds.fdchanges == [] && Valid(fds, ep) && Synced(fds, ep, gone)
    ensures |fds.anfds| == |old(fds.anfds)| && HeadsKept(old(fds.anfds), fds.anfds, ep.kind)
    ensures WantedIsKnown(fds, ep, gone)
    ensures Killing(fds, ep.kind, old(fds.anfds), old(fds.queues.trace))
  {
    hide Fds.Valid, Valid, Wanted, OrKilled, WantedIsKnown, Settled, KilledSoFar, Killing;
    ghost var (anfds, trace) := (fds.anfds, fds.queues.trace);
    StartReify(fds, ep, gone);
    NothingKilled(fds, ep.kind);
    var i := 0;
    while i < |fds.fdchanges|
      invariant fds.Valid() && fds.reified == i <= |fds.fdchanges| && Valid(fds, ep) && Syncing(fds, ep, gone)
      invariant |fds.anfds| == |old(fds.anfds)| && HeadsKept(old(fds.anfds), fds.anfds, ep.kind)
      invariant forall fd :: 0 <= fd < |anfds| ==> Settled(anfds, fds.anfds, ep.kind, fd)
      invariant KilledSoFar(fds, anfds, trace)
      decreases Load(fds.anfds), |fds.fdchanges| - i
    {
      ReifyNextFd(fds, ep, gone, i, anfds, trace);
      i := i + 1;
    }
    fds.EndReify(i);
    NothingLeft(fds, ep, gone);
    AllKilled(fds, ep.kind, anfds, trace);
  }

  /** No fd awaits fd_reify, the events of every fd are what its watchers ask for, and the kernel,
      or the list of refused fds, has them. */
  ghost predicate WantedIsKnown(fds: Fds, ep: Epoll, gone: set<nat>)
    reads fds`anfds, ep, set fd, w | 0 <= fd < |fds.anfds| && w in fds.anfds[fd].head :: w
  {
    forall fd :: 0 <= fd < |fds.anfds| ==>
      var wanted := Wanted(fds.anfds[fd].head);
      && fds.anfds[fd].reify == {} && fds.anfds[fd].events == wanted
      && (wanted != {} && fd !in gone ==> Registered(ep.table, ep.kind, fds.anfds, fd, wanted))
  }

  lemma StartReify(fds: Fds, ep: Epoll, gone: set<nat>)
    requires Synced(fds, ep, gone)
    ensures Syncing(fds, ep, gone)
  {}

  lemma NothingLeft(fds: Fds, ep: Epoll, gone: set<nat>)
    requires Syncing(fds, ep, gone)
    requires forall fd :: 0 <= fd < |fds.anfds| ==>
               fds.anfds[fd].reify == {} && fds.anfds[fd].events == Wanted(fds.anfds[fd].head)
    ensures Synced(fds, ep, gone) && WantedIsKnown(fds, ep, gone)
  {
    hide Wanted;
    forall fd | 0 <= fd < |fds.anfds| && fd !in gone
      ensures fds.anfds[fd].events != {} ==> Registered(ep.table, ep.kind, fds.anfds, fd, fds.anfds[fd].events)
    {
      assert OrKilled(ep.table, ep.kind, fds.anfds, fd);
    }
  }

  lemma NothingKilled(fds: Fds, kind: nat -> Kind)
    requires fds.Valid()
    ensures forall fd :: 0 <= fd < |fds.anfds| ==> Settled(fds.anfds, fds.anfds, kind, fd)
    ensures KilledSoFar(fds, fds.anfds, fds.queues.trace)
  {}

  lemma AllKilled(fds: Fds, kind: nat -> Kind, anfds: seq<Anfd>, trace: seq<Happening>)
    requires |fds.anfds| == |anfds| && KilledSoFar(fds, anfds, trace)
    requires forall fd :: 0 <= fd < |anfds| ==> Settled(anfds, fds.anfds, kind, fd) && fds.anfds[fd].reify == {}
    ensures Killing(fds, kind, anfds, trace)
  {
    hide Wanted, Expected;
    forall fd | 0 <= fd < |anfds|
      ensures fds.anfds[fd].head == if Doomed(anfds, kind, fd) then [] else anfds[fd].head
    {
      assert Settled(anfds, fds.anfds, kind, fd);
    }
  }

  // ReifyOne, with what it does to the watchers put in terms of the whole of fd_reify.
  method ReifyNextFd(fds: Fds, ep: Epoll, ghost gone: set<nat>, i: nat, ghost anfds: seq<Anfd>, ghost trace: seq<Happening>)
    requires fds.Valid() && fds.reified == i < |fds.fdchanges| && Valid(fds, ep) && Syncing(fds, ep, gone)
    requires |fds.anfds| == |anfds| && HeadsKept(anfds, fds.anfds, ep.kind) && KilledSoFar(fds, anfds, trace)
    requires forall fd :: 0 <= fd < |anfds| ==> Settled(anfds, fds.anfds, ep.kind, fd)
    modifies fds`anfds, fds`fdchanges, fds`activecnt, fds`reified, fds.all`active
    modifies fds.queues`pendings, fds.queues`pendingpri, fds.queues`trace, fds.all`pending
    modifies ep`table, ep`eperms
    ensures fds.Valid() && fds.reified == i + 1 <= |fds.fdchanges| && Valid(fds, ep) && Syncing(fds, ep, gone)
    ensures |fds.anfds| == |anfds| && HeadsKept(anfds, fds.anfds, ep.kind) && KilledSoFar(fds, anfds, trace)
    ensures forall fd :: 0 <= fd < |anfds| ==> Settled(anfds, fds.anfds, ep.kind, fd)
    ensures || Load(fds.anfds) < old(Load(fds.anfds))
            || (Load(fds.anfds) == old(Load(fds.anfds)) && fds.fdchanges == old(fds.fdchanges))
  {
    hide Fds.Valid, Valid, Syncing, Wanted, Expected, KillTrace, Load;
    ghost var (was, before) := (fds.anfds, fds.queues.trace);
    fds.TellWatches();
    WantedNothing();
    assert before + [] == before;
    ghost var fd := ReifyOne(fds, ep, gone, i);
    forall u | 0 <= u < |anfds| ensures Settled(anfds, fds.anfds, ep.kind, u) {
      assert old(Settled(anfds, fds.anfds, ep.kind, u));
      assert Doomed(anfds, ep.kind, u) == old(Doomed(anfds, ep.kind, u));
      if u == fd {
        assert was[u] == anfds[u] || was[u].head == [];
        assert was[u] == anfds[u] ==> old(Doomed(fds.anfds, ep.kind, u)) == old(Doomed(anfds, ep.kind, u));
      }
    }
    forall w | w in fds.all
      ensures Expected(fds.queues.trace, w) ==
              if fds.anfds[fd].head != was[fd].head && w in was[fd].head then Some(KILL_BITS) else Expected(before, w)
    {
      if fds.anfds[fd].head != was[fd].head {
        KillExpected(before, was[fd].head, w);
      }
    }
  }

  // The body of the loop of fd_reify.
  method ReifyOne(fds: Fds, ep: Epoll, ghost gone: set<nat>, i: nat) returns (ghost fd: nat)
    requires fds.Valid() && fds.reified == i < |fds.fdchanges| && Valid(fds, ep) && Syncing(fds, ep, gone)
    modifies fds`anfds, fds`fdchanges, fds`activecnt, fds`reified, fds.all`active
    modifies fds.queues`pendings, fds.queues`pendingpri, fds.queues`trace, fds.all`pending
    modifies ep`table, ep`eperms
    ensures fds.Valid() && fds.reified == i + 1 <= |fds.fdchanges| && Valid(fds, ep) && Syncing(fds, ep, gone)
    ensures |fds.anfds| == |old(fds.anfds)| && HeadsKept(old(fds.anfds), fds.anfds, ep.kind)
    ensures fd < |fds.anfds| && fd == old(fds.fdchanges)[i] && old(fds.anfds)[fd].reify != {}
    ensures forall i, j :: 0 <= i < j < |old(fds.anfds)[fd].head| ==> old(fds.anfds)[fd].head[i] != old(fds.anfds)[fd].head[j]
    ensures forall u :: 0 <= u < |fds.anfds| && u != fd ==> fds.anfds[u] == old(fds.anfds)[u]
    ensures fds.anfds[fd].head == if old(Doomed(fds.anfds, ep.kind, fd)) then [] else old(fds.anfds)[fd].head
    ensures fds.anfds[fd].reify != {} ==> fds.anfds[fd].head == []
    ensures fds.queues.trace == old(fds.queues.trace) +
              if old(Doomed(fds.anfds, ep.kind, fd)) then KillTrace(old(fds.anfds)[fd].head) else []
    ensures || Load(fds.anfds) < old(Load(fds.anfds))
            || (Load(fds.anfds) == old(Load(fds.anfds)) && fds.fdchanges == old(fds.fdchanges))
  {
    hide Fds.Valid, Wanted, Mirror, EpermsListed, Load, KillTrace;
    ghost var anfds0 := fds.anfds;
    WantedNothing();
    fds.NextInRange(i);
    fds.TellHead(fds.fdchanges[i]);
    fds.TellMarked(i);
    var cur, tell, oev, nev := fds.ReifyNext(i);
    fd := cur;
    ghost var anfds1 := fds.anfds;
    EventsOnly(ep.table, anfds0, ep.eperms, anfds1, fd);
    if tell {
      EpollModify(fds, ep, cur, oev, nev);
    }
    LoadOf(anfds0, fds.anfds, fd);
    fds.TellReified();
    forall u | 0 <= u < |fds.anfds| && u !in gone ensures OrKilled(ep.table, ep.kind, fds.anfds, u) {
      assert old(OrKilled(ep.table, ep.kind, fds.anfds, u));
    }
  }

  lemma EventsOnly(table: map<nat, KernelEntry>, anfds: seq<Anfd>, eperms: seq<nat>, anfds': seq<Anfd>, fd: nat)
    requires Mirror(table, anfds) && EpermsListed(eperms, anfds) && fd < |anfds| == |anfds'|
    requires anfds' == anfds[fd := anfds[fd].(reify := {}, events := anfds'[fd].events)]
    ensures Mirror(table, anfds') && EpermsListed(eperms, anfds')
  {}

  /** epoll_fork: a new, empty table in the kernel, and every fd with events to be looked at. */
  method EpollFork(fds: Fds, ep: Epoll)
    requires fds.Valid() && EpermsListed(ep.eperms, fds.anfds)
    modifies fds`anfds, fds`fdchanges, ep`table
    ensures fds.Valid() && Valid(fds, ep) && Synced(fds, ep, {}) && ep.table == map[]
    ensures HeadsKept(old(fds.anfds), fds.anfds, ep.kind)
  {
    hide Fds.Valid;
    ep.table := map[];
    fds.FdRearmAll();
  }

  /** After a fork, epoll_fork and the next fd_reify register the whole wanted set anew: for
      every fd that is not closed, what the same watchers ask for. */
  method Rebuild(fds: Fds, ep: Epoll)
    requires fds.Valid() && fds.reified == 0 && EpermsListed(ep.eperms, fds.anfds)
    modifies fds`anfds, fds`fdchanges, fds`activecnt, fds`reified, fds.all`active
    modifies fds.queues`pendings, fds.queues`pendingpri, fds.queues`trace, fds.all`pending
    modifies ep`table, ep`eperms
    ensures fds.Valid() && fds.fdchanges == [] && Valid(fds, ep) && Synced(fds, ep, {})
    ensures HeadsKept(old(fds.anfds), fds.anfds, ep.kind) && WantedIsKnown(fds, ep, {})
  {
    hide Fds.Valid, Valid, Synced, WantedIsKnown;
    EpollFork(fds, ep);
    FdReify(fds, ep, {});
  }

  // ---------- epoll_poll ----------

  // A received event: the two halves of its data, and what the fd is ready for.
  datatype KernelEvent = KernelEvent(fd: nat, gen: Generation, inp: bool, outp: bool, err: bool)

  function Got(ev: KernelEvent): Mask {
    (if ev.outp || ev.err then {Write} else {}) + (if ev.inp || ev.err then {Read} else {})
  }

  /** An event that was registered under the fd's current generation. */
  predicate Fresh(ev: KernelEvent, anfds: seq<Anfd>) {
    ev.fd < |anfds| && ev.gen == anfds[ev.fd].egen
  }

  // A fresh event with bits that the fd has not asked for.
  predicate Unwanted(ev: KernelEvent, anfds: seq<Anfd>) {
    Fresh(ev, anfds) && !(Got(ev) <= anfds[ev.fd].events)
  }

  /** An event that epoll_poll passes on: a fresh one, unless correcting the kernel's entry for
      an unwanted bit fails because there is none. */
  predicate Reported(ev: KernelEvent, table: map<nat, KernelEntry>, anfds: seq<Anfd>) {
    Fresh(ev, anfds) && (Got(ev) <= anfds[ev.fd].events || ev.fd in table)
  }

  // The kernel's table after this event has been looked at.
  function Corrected(table: map<nat, KernelEntry>, anfds: seq<Anfd>, ev: KernelEvent): map<nat, KernelEntry> {
    if !Unwanted(ev, anfds) || ev.fd !in table then table
    else if anfds[ev.fd].events != {} then table[ev.fd := KernelEntry(ev.gen, anfds[ev.fd].events)]
    else table - {ev.fd}
  }

  function AllCorrected(table: map<nat, KernelEntry>, anfds: seq<Anfd>, events: seq<KernelEvent>): map<nat, KernelEntry> {
    if events == [] then table
    else Corrected(AllCorrected(table, anfds, events[..|events| - 1]), anfds, events[|events| - 1])
  }

  // What is due to w after this event.
  function DueNext(due: Option<Mask>, table: map<nat, KernelEntry>, anfds: seq<Anfd>, ev: KernelEvent, w: Watcher): Option<Mask>
    reads w`events
  {
    if Reported(ev, table, anfds) && anfds[ev.fd].reify == {} && w in anfds[ev.fd].head
    then Merged(due, w.events * Got(ev)) else due
  }

  function DueAfter(due: Option<Mask>, table: map<nat, KernelEntry>, anfds: seq<Anfd>, events: seq<KernelEvent>, w: Watcher)
    : Option<Mask>
    reads w`events
  {
    if events == [] then due
    else
      var (front, ev) := (events[..|events| - 1], events[|events| - 1]);
      DueNext(DueAfter(due, table, anfds, front, w), AllCorrected(table, anfds, front), anfds, ev, w)
  }

  // Some event was not passed on.
  predicate SomeLost(table: map<nat, KernelEntry>, anfds: seq<Anfd>, events: seq<KernelEvent>) {
    events != [] &&
    (var front := events[..|events| - 1];
     SomeLost(table, anfds, front) || !Reported(events[|events| - 1], AllCorrected(table, anfds, front), anfds))
  }

  // What a poll starts from.
  datatype Before = Before(table: map<nat, KernelEntry>, recreate: bool, anfds: seq<Anfd>, trace: seq<Happening>)

  ghost function Now(fds: Fds, ep: Epoll): Before
    reads fds`anfds, fds.queues`trace, ep
  {
    Before(ep.table, ep.recreate, fds.anfds, fds.queues.trace)
  }

  /** Exactly what the first loop of epoll_poll makes of these events: what is due to every
      watcher, the kernel's table, and whether the kernel state is to be recreated. */
  ghost predicate Fed(fds: Fds, b: Before, events: seq<KernelEvent>, now: Before)
    reads fds.all`events
    ensures Fed(fds, b, events, now) ==> |now.anfds| == |b.anfds|
  {
    && |now.anfds| == |b.anfds|
    && (forall fd :: 0 <= fd < |b.anfds| ==> OnlyEmask(b.anfds[fd], now.anfds[fd]))
    && (forall fd :: 0 <= fd < |b.anfds| && now.anfds[fd] != b.anfds[fd] ==>
          exists i :: 0 <= i < |events| && events[i].fd == fd && Unwanted(events[i], b.anfds))
    && now.table == AllCorrected(b.table, b.anfds, events)
    && now.recreate == (b.recreate || SomeLost(b.table, b.anfds, events))
    && (forall w :: w in fds.all ==>
          Expected(now.trace, w) == DueAfter(Expected(b.trace, w), b.table, b.anfds, events, w))
  }

  // An unwanted event sets the mask that epoll keeps to what the fd asks for.
  predicate OnlyEmask(before: Anfd, now: Anfd) {
    now == before || now == before.(emask := before.events)
  }

  lemma NothingFed(fds: Fds, b: Before)
    ensures Fed(fds, b, [], b)
  {}

  // After an event: this is the kernel's table, and the event has been reported or else the kernel
  // state is to be recreated.
  ghost predicate EventDone(fds: Fds, ep: Epoll, ev: KernelEvent, b: Before, table: map<nat, KernelEntry>, reported: bool)
    requires ev.fd < |b.anfds|
    reads fds.queues`trace, ep, (set w | w in b.anfds[ev.fd].head)`events
  {
    && ep.table == table
    && ep.recreate == (b.recreate || !reported)
    && fds.queues.trace == b.trace +
         if reported && b.anfds[ev.fd].reify == {} then Feeds(b.anfds[ev.fd].head, Got(ev)) else []
  }

  /** The body of the first loop of epoll_poll.  A stale event is not reported, and asks for the
      kernel state to be recreated.  One with bits that the fd does not ask for makes the kernel's
      entry ask for what the fd does, or removes it if that is nothing; if there is no entry, it is
      not reported either.  Any other is reported. */
  method EpollOne(fds: Fds, ep: Epoll, ev: KernelEvent)
    requires fds.Valid() && Valid(fds, ep) && ev.fd < |fds.anfds|
    modifies fds`anfds
    modifies fds.queues`pendings, fds.queues`pendingpri, fds.queues`trace, fds.all`pending
    modifies ep`table, ep`recreate
    ensures fds.Valid() && Valid(fds, ep)
    ensures fds.anfds == old(fds.anfds)[ev.fd := old(fds.anfds)[ev.fd].(
                              emask := if Unwanted(ev, old(fds.anfds)) then old(fds.anfds)[ev.fd].events
                                       else old(fds.anfds)[ev.fd].emask)]
    ensures var (want, known) := (old(fds.anfds)[ev.fd].events, ev.fd in old(ep.table));
            if ev.gen != old(fds.anfds)[ev.fd].egen then EventDone(fds, ep, ev, old(Now(fds, ep)), old(ep.table), false)
            else if Got(ev) <= want then EventDone(fds, ep, ev, old(Now(fds, ep)), old(ep.table), true)
            else if !known then EventDone(fds, ep, ev, old(Now(fds, ep)), old(ep.table), false)
            else
              EventDone(fds, ep, ev, old(Now(fds, ep)),
                        if want == {} then old(ep.table) - {ev.fd} else old(ep.table)[ev.fd := KernelEntry(ev.gen, want)], true)
    ensures ep.table == Corrected(old(ep.table), old(fds.anfds), ev)
    ensures ep.recreate == (old(ep.recreate) || !Reported(ev, old(ep.table), old(fds.anfds)))
    ensures fds.queues.trace == old(fds.queues.trace) +
              if Reported(ev, old(ep.table), old(fds.anfds)) && old(fds.anfds)[ev.fd].reify == {}
              then Feeds(old(fds.anfds)[ev.fd].head, Got(ev)) else []
  {
    hide Fds.Valid, Mirror, EpermsListed;
    ghost var (anfds, table) := (fds.anfds, ep.table);
    TellMirror(ep.table, fds.anfds, ev.fd);
    fds.TellEvents(ev.fd);
    var want, got := fds.anfds[ev.fd].events, Got(ev);
    if fds.anfds[ev.fd].egen != ev.gen {
      ep.recreate := true;
      return;
    }
    if !(got <= want) {
      SetEpoll(fds, ev.fd, want, fds.anfds[ev.fd].egen);
      var errno := ep.EpollCtl(if want != {} then Mod else Del, ev.fd, KernelEntry(ev.gen, want));
      MirrorKept(table, anfds, ep.table, fds.anfds, ev.fd);
      EpermsKept(ep.eperms, anfds, ep.eperms, fds.anfds, ev.fd);
      if errno != Ok {
        ep.recreate := true;
        return;
      }
    }
    fds.FdEvent(ev.fd, got);
  }

  // Events of fds that can be polled leave what is known known.
  lemma KnownKept(table: map<nat, KernelEntry>, kind: nat -> Kind, anfds: seq<Anfd>, ev: KernelEvent,
                  anfds': seq<Anfd>, gone: set<nat>)
    requires ev.fd < |anfds| && (Fresh(ev, anfds) && ev.fd !in gone ==> kind(ev.fd) == Pollable)
    requires |anfds'| == |anfds| && anfds' == anfds[ev.fd := anfds[ev.fd].(emask := anfds'[ev.fd].emask)]
    requires !Unwanted(ev, anfds) ==> anfds' == anfds
    ensures forall fd :: 0 <= fd < |anfds| && fd !in gone && Known(table, kind, anfds, fd) ==>
              Known(Corrected(table, anfds, ev), kind, anfds', fd)
  {}

  // What is made of an event does not depend on the masks that epoll keeps.
  lemma SameEvent(ev: KernelEvent, table: map<nat, KernelEntry>, anfds: seq<Anfd>, anfds': seq<Anfd>)
    requires |anfds'| == |anfds| && ev.fd < |anfds| && OnlyEmask(anfds[ev.fd], anfds'[ev.fd])
    ensures Unwanted(ev, anfds') == Unwanted(ev, anfds) && Reported(ev, table, anfds') == Reported(ev, table, anfds)
    ensures Corrected(table, anfds', ev) == Corrected(table, anfds, ev)
  {}

  lemma OneMore(table: map<nat, KernelEntry>, anfds: seq<Anfd>, events: seq<KernelEvent>, ev: KernelEvent)
    ensures AllCorrected(table, anfds, events + [ev]) == Corrected(AllCorrected(table, anfds, events), anfds, ev)
    ensures SomeLost(table, anfds, events + [ev]) ==
            (SomeLost(table, anfds, events) || !Reported(ev, AllCorrected(table, anfds, events), anfds))
  {
    assert (events + [ev])[..|events|] == events;
  }

  lemma OneMoreDue(due: Option<Mask>, table: map<nat, KernelEntry>, anfds: seq<Anfd>, events: seq<KernelEvent>, ev: KernelEvent, w: Watcher)
    ensures DueAfter(due, table, anfds, events + [ev], w) ==
            DueNext(DueAfter(due, table, anfds, events, w), AllCorrected(table, anfds, events), anfds, ev, w)
  {
    assert (events + [ev])[..|events|] == events;
  }

  lemma FedNext(fds: Fds, b: Before, events: seq<KernelEvent>, was: Before, ev: KernelEvent, now: Before)
    requires Fed(fds, b, events, was) && ev.fd < |was.anfds|
    requires var ws := was.anfds[ev.fd].head; forall i, j :: 0 <= i < j < |ws| ==> ws[i] != ws[j]
    requires now.anfds == was.anfds[ev.fd := was.anfds[ev.fd].(
                            emask := if Unwanted(ev, was.anfds) then was.anfds[ev.fd].events else was.anfds[ev.fd].emask)]
    requires now.table == Corrected(was.table, was.anfds, ev)
    requires now.recreate == (was.recreate || !Reported(ev, was.table, was.anfds))
    requires now.trace == was.trace +
               if Reported(ev, was.table, was.anfds) && was.anfds[ev.fd].reify == {}
               then Feeds(was.anfds[ev.fd].head, Got(ev)) else []
    ensures Fed(fds, b, events + [ev], now)
  {
    hide Unwanted, Reported, Corrected, AllCorrected, SomeLost, DueAfter, Expected, Feeds, Merged, Got;
    assert OnlyEmask(b.anfds[ev.fd], was.anfds[ev.fd]);
    SameEvent(ev, was.table, b.anfds, was.anfds);
    OneMore(b.table, b.anfds, events, ev);
    assert was.trace + [] == was.trace;
    forall w | w in fds.all
      ensures Expected(now.trace, w) == DueAfter(Expected(b.trace, w), b.table, b.anfds, events + [ev], w)
    {
      OneMoreDue(Expected(b.trace, w), b.table, b.anfds, events, ev, w);
      FeedsExpected(was.trace, was.anfds[ev.fd].head, Got(ev), w);
    }
    forall fd | 0 <= fd < |b.anfds| && now.anfds[fd] != b.anfds[fd]
      ensures exists i :: 0 <= i < |events + [ev]| && (events + [ev])[i].fd == fd && Unwanted((events + [ev])[i], b.anfds)
    {
      if was.anfds[fd] != b.anfds[fd] {
        var i :| 0 <= i < |events| && events[i].fd == fd && Unwanted(events[i], b.anfds);
        assert (events + [ev])[i] == events[i];
      } else {
        assert (events + [ev])[|events|] == ev;
      }
    }
  }

  lemma SameFresh(fds: Fds, b: Before, events: seq<KernelEvent>, now: Before, ev: KernelEvent)
    requires Fed(fds, b, events, now)
    ensures Fresh(ev, now.anfds) == Fresh(ev, b.anfds)
  {
    if ev.fd < |b.anfds| {
      assert OnlyEmask(b.anfds[ev.fd], now.anfds[ev.fd]);
    }
  }

  // One more event.
  method EpollNext(fds: Fds, ep: Epoll, ev: KernelEvent, ghost b: Before, ghost events: seq<KernelEvent>, ghost gone: set<nat>)
    requires fds.Valid() && Valid(fds, ep) && ev.fd < |fds.anfds| && Fed(fds, b, events, Now(fds, ep))
    modifies fds`anfds
    modifies fds.queues`pendings, fds.queues`pendingpri, fds.queues`trace, fds.all`pending
    modifies ep`table, ep`recreate
    ensures fds.Valid() && Valid(fds, ep) && Fed(fds, b, events + [ev], Now(fds, ep))
    ensures old(Synced(fds, ep, gone)) && (Fresh(ev, b.anfds) && ev.fd !in gone ==> ep.kind(ev.fd) == Pollable) ==>
              Synced(fds, ep, gone)
  {
    hide Fds.Valid, Valid, Fed, Known;
    fds.TellHead(ev.fd);
    ghost var was := Now(fds, ep);
    SameFresh(fds, b, events, was, ev);
    EpollOne(fds, ep, ev);
    FedNext(fds, b, events, was, ev, Now(fds, ep));
    if Fresh(ev, was.anfds) && ev.fd !in gone ==> ep.kind(ev.fd) == Pollable {
      KnownKept(was.table, ep.kind, was.anfds, ev, fds.anfds, gone);
    }
  }

  // ---------- The list of refused fds ----------

  // The fds from place i of the list on.
  ghost function From(eperms: seq<nat>, i: nat): set<nat> {
    set k | i <= k < |eperms| :: eperms[k]
  }

  // An fd that epoll refuses and that somebody is interested in.
  predicate IsRefused(anfds: seq<Anfd>, fd: nat) {
    fd < |anfds| && Eperm in anfds[fd].emask && anfds[fd].events != {}
  }

  // What is due to w after the refused fds among `seen` have been reported.
  ghost function DueRefused(due: Option<Mask>, anfds: seq<Anfd>, seen: set<nat>, w: Watcher): Option<Mask>
    reads w`fd, w`events
  {
    if w.fd in seen && IsRefused(anfds, w.fd) && anfds[w.fd].reify == {} && w in anfds[w.fd].head
    then Merged(due, w.events * anfds[w.fd].events) else due
  }

  /** Exactly what the second loop of epoll_poll has made of the list of refused fds when it has
      come down to place i: all that they are asked for has been fed, and the fds that are not
      refused any more, or not wanted, have been taken off the list. */
  ghost predicate Served(fds: Fds, ep: Epoll, i: nat, eperms: seq<nat>, anfds: seq<Anfd>, trace: seq<Happening>)
    reads fds`anfds, fds.queues`trace, fds.all`fd, fds.all`events, ep
    ensures Served(fds, ep, i, eperms, anfds, trace) ==> |fds.anfds| == |anfds| && i <= |ep.eperms| <= |eperms|
  {
    && |fds.anfds| == |anfds| && i <= |ep.eperms| <= |eperms|
    && (forall fd :: 0 <= fd < |anfds| ==>
          fds.anfds[fd] == anfds[fd].(emask := if fd in From(eperms, i) && !IsRefused(anfds, fd) then {} else anfds[fd].emask))
    && (forall k :: 0 <= k < i ==> ep.eperms[k] == eperms[k])
    && (forall k :: i <= k < |ep.eperms| ==> IsRefused(anfds, ep.eperms[k]))
    && (forall w :: w in fds.all ==>
          Expected(fds.queues.trace, w) == DueRefused(Expected(trace, w), anfds, From(eperms, i), w))
  }

  lemma NothingServed(fds: Fds, ep: Epoll)
    ensures Served(fds, ep, |ep.eperms|, ep.eperms, fds.anfds, fds.queues.trace)
  {}

  // The body of the second loop of epoll_poll.
  method EpermOne(fds: Fds, ep: Epoll, i: nat, ghost eperms: seq<nat>, ghost anfds: seq<Anfd>, ghost trace: seq<Happening>,
                  ghost gone: set<nat>)
    requires fds.Valid() && Valid(fds, ep) && i < |ep.eperms| && Served(fds, ep, i + 1, eperms, anfds, trace)
    modifies fds`anfds
    modifies fds.queues`pendings, fds.queues`pendingpri, fds.queues`trace, fds.all`pending
    modifies ep`eperms
    ensures fds.Valid() && Valid(fds, ep) && Served(fds, ep, i, eperms, anfds, trace)
    ensures old(Synced(fds, ep, gone)) ==> Synced(fds, ep, gone)
  {
    hide Fds.Valid, Mirror, Expected, Known, Merged, From, DueRefused;
    var fd := ep.eperms[i];
    var events := fds.anfds[fd].events * IO;
    FromNext(eperms, i);
    fds.TellHead(fd);
    fds.TellEvents(fd);
    forall w | w in fds.all
      ensures DueRefused(Expected(trace, w), anfds, From(eperms, i), w) ==
              if IsRefused(anfds, fd) && anfds[fd].reify == {} && w in anfds[fd].head
              then Merged(DueRefused(Expected(trace, w), anfds, From(eperms, i + 1), w), w.events * anfds[fd].events)
              else DueRefused(Expected(trace, w), anfds, From(eperms, i + 1), w)
    {
      RefusedNext(Expected(trace, w), anfds, From(eperms, i + 1), fd, w);
    }
    assert events == anfds[fd].events;
    if Eperm in fds.anfds[fd].emask && events != {} {
      EpermEvent(fds, fd, events);
    } else {
      DropEperm(fds, ep, i, fd, gone);
    }
  }

  // One more refused fd; one that has been reported before makes no difference.
  lemma RefusedNext(due: Option<Mask>, anfds: seq<Anfd>, seen: set<nat>, fd: nat, w: Watcher)
    requires fd < |anfds| && (w in anfds[fd].head ==> w.fd == fd)
    ensures DueRefused(due, anfds, seen + {fd}, w) ==
            if IsRefused(anfds, fd) && anfds[fd].reify == {} && w in anfds[fd].head
            then Merged(DueRefused(due, anfds, seen, w), w.events * anfds[fd].events)
            else DueRefused(due, anfds, seen, w)
  {
    var bits := w.events * anfds[fd].events;
    assert Merged(Merged(due, bits), bits) == Merged(due, bits) by {
      assert due.Some? ==> due.value + bits + bits == due.value + bits;
      assert bits + bits == bits;
    }
  }

  lemma FromNext(eperms: seq<nat>, i: nat)
    requires i < |eperms|
    ensures From(eperms, i) == From(eperms, i + 1) + {eperms[i]}
  {}

  // A refused fd is always ready.
  method EpermEvent(fds: Fds, fd: nat, events: Mask)
    requires fds.Valid() && fd < |fds.anfds|
    modifies fds.queues`pendings, fds.queues`pendingpri, fds.queues`trace, fds.all`pending
    ensures fds.Valid()
    ensures forall w :: w in fds.all ==>
              Expected(fds.queues.trace, w) ==
                if fds.anfds[fd].reify == {} && w in fds.anfds[fd].head
                then Merged(old(Expected(fds.queues.trace, w)), w.events * events)
                else old(Expected(fds.queues.trace, w))
  {
    hide Fds.Valid, Expected, Feeds;
    ghost var before := fds.queues.trace;
    fds.TellHead(fd);
    ghost var ws := fds.anfds[fd].head;
    fds.FdEvent(fd, events);
    assert before + [] == before;
    forall w | w in fds.all
      ensures Expected(before + Feeds(ws, events), w) ==
              if w in ws then Merged(Expected(before, w), w.events * events) else Expected(before, w)
    {
      FeedsExpected(before, ws, events, w);
    }
  }

  // The last refused fd moved into the place of one that is not refused any more.
  method DropEperm(fds: Fds, ep: Epoll, i: nat, fd: nat, ghost gone: set<nat>)
    requires fds.Valid() && Valid(fds, ep) && i < |ep.eperms| && fd == ep.eperms[i]
    modifies fds`anfds, ep`eperms
    ensures fds.Valid() && Valid(fds, ep)
    ensures ep.eperms == old(ep.eperms)[i := old(ep.eperms)[|old(ep.eperms)| - 1]][..|old(ep.eperms)| - 1]
    ensures fds.anfds == old(fds.anfds)[fd := old(fds.anfds)[fd].(emask := {})]
    ensures old(Synced(fds, ep, gone)) && !IsRefused(old(fds.anfds), fd) ==> Synced(fds, ep, gone)
  {
    hide Fds.Valid;
    ghost var were := fds.anfds;
    var last := |ep.eperms| - 1;
    ep.eperms := ep.eperms[i := ep.eperms[last]][..last];
    SetEpoll(fds, fd, {}, fds.anfds[fd].egen);
    forall u | 0 <= u < |fds.anfds| && Eperm in fds.anfds[u].emask ensures u in ep.eperms {
      var k :| 0 <= k < |old(ep.eperms)| && old(ep.eperms)[k] == u;
      assert ep.eperms[if k == last then i else k] == u;
    }
    assert forall u :: 0 <= u < |were| && Known(ep.table, ep.kind, were, u) && !(u == fd && IsRefused(were, u)) ==>
      Known(ep.table, ep.kind, fds.anfds, u);
  }

  // The fresh events are of fds that can be polled, or that are gone.
  ghost predicate OfPollable(events: seq<KernelEvent>, kind: nat -> Kind, anfds: seq<Anfd>, gone: set<nat>) {
    forall i :: 0 <= i < |events| && Fresh(events[i], anfds) && events[i].fd !in gone ==> kind(events[i].fd) == Pollable
  }

  /** epoll_poll, when epoll_wait does not fail, for any events whatsoever. */
  method EpollPoll(fds: Fds, ep: Epoll, events: seq<KernelEvent>, ghost gone: set<nat>) returns (ghost mid: Before)
    requires fds.Valid() && Valid(fds, ep) && forall i :: 0 <= i < |events| ==> events[i].fd < |fds.anfds|
    modifies fds`anfds
    modifies fds.queues`pendings, fds.queues`pendingpri, fds.queues`trace, fds.all`pending
    modifies ep`table, ep`recreate, ep`eperms
    ensures fds.Valid() && Valid(fds, ep)
    // `mid` is the state between the two loops
    ensures Fed(fds, old(Now(fds, ep)), events, mid) && ep.table == mid.table && ep.recreate == mid.recreate
    ensures Served(fds, ep, 0, old(ep.eperms), mid.anfds, mid.trace)
    ensures old(Synced(fds, ep, gone)) && OfPollable(events, ep.kind, old(fds.anfds), gone) ==> Synced(fds, ep, gone)
  {
    hide Fds.Valid, Valid, Fed, Served, Synced;
    ghost var b := Now(fds, ep);
    NothingFed(fds, b);
    var i := 0;
    while i < |events|
      invariant 0 <= i <= |events| && fds.Valid() && Valid(fds, ep)
      invariant Fed(fds, b, events[..i], Now(fds, ep)) && ep.eperms == old(ep.eperms)
      invariant old(Synced(fds, ep, gone)) && OfPollable(events, ep.kind, b.anfds, gone) ==> Synced(fds, ep, gone)
    {
      assert events[..i + 1] == events[..i] + [events[i]];
      EpollNext(fds, ep, events[i], b, events[..i], gone);
      i := i + 1;
    }
    assert events[..i] == events;
    mid := Now(fds, ep);
    NothingServed(fds, ep);
    i := |ep.eperms|;
    while i > 0
      invariant ep.table == mid.table && ep.recreate == mid.recreate
      invariant old(Synced(fds, ep, gone)) && OfPollable(events, ep.kind, b.anfds, gone) ==> Synced(fds, ep, gone)
      invariant 0 <= i <= |ep.eperms| && fds.Valid() && Valid(fds, ep)
      invariant Served(fds, ep, i, old(ep.eperms), mid.anfds, mid.trace)
    {
      i := i - 1;
      EpermOne(fds, ep, i, old(ep.eperms), mid.anfds, mid.trace, gone);
    }
  }

  // ---------- Agreement with the other backends ----------

  /** What the kernel reports of an entry with this mask: that the fd is ready for what the entry
      asks for, and errors and hang-ups in any case. */
  predicate Shows(ev: KernelEvent, mask: Mask, r: Ready) {
    ev.inp == (r.inp && Read in mask) && ev.outp == (r.outp && Write in mask) && ev.err == r.err
  }

  // There is something to report of an entry with this mask.
  predicate Shown(mask: Mask, r: Ready) {
    (r.inp && Read in mask) || (r.outp && Write in mask) || r.err
  }

  // What that comes to as events of libev.
  function Seen(mask: Mask, r: Ready): Mask {
    (if (r.inp && Read in mask) || r.err then {Read} else {}) + (if (r.outp && Write in mask) || r.err then {Write} else {})
  }

  /** A batch that epoll_wait can return: stale events whatsoever, and, for each entry with
      something to report, one event under its own generation. */
  ghost predicate FromKernel(events: seq<KernelEvent>, table: map<nat, KernelEntry>, anfds: seq<Anfd>, ready: nat -> Ready) {
    && (forall i :: 0 <= i < |events| && Fresh(events[i], anfds) ==>
          events[i].fd in table && Shows(events[i], table[events[i].fd].mask, ready(events[i].fd)))
    && (forall i, j :: 0 <= i < j < |events| && Fresh(events[i], anfds) && Fresh(events[j], anfds) ==>
          events[i].fd != events[j].fd)
    && (forall fd :: fd in table && Shown(table[fd].mask, ready(fd)) ==>
          exists i :: 0 <= i < |events| && events[i].fd == fd && Fresh(events[i], anfds))
  }

  // Files that epoll refuses are always ready, as select and poll report them.
  ghost predicate ReadyOk(ready: nat -> Ready, kind: nat -> Kind) {
    forall fd :: (ready(fd).closed <==> kind(fd) == Closed) && (kind(fd) == Unpollable ==> ready(fd).inp && ready(fd).outp)
  }

  // w is on no list but that of fd, and its events are among the fd's unless that awaits fd_reify.
  predicate WatchesOnly(anfds: seq<Anfd>, w: Watcher, fd: nat)
    reads w`events
  {
    && (forall u :: 0 <= u < |anfds| && w in anfds[u].head ==> u == fd)
    && (fd < |anfds| && w in anfds[fd].head && anfds[fd].reify == {} ==> w.events <= anfds[fd].events)
  }

  // Without a fresh event for the fd of w, nothing changes for w.
  lemma {:induction false} NotMentioned(due: Option<Mask>, table: map<nat, KernelEntry>, anfds: seq<Anfd>,
                                        events: seq<KernelEvent>, w: Watcher, fd: nat)
    requires WatchesOnly(anfds, w, fd)
    requires forall i :: 0 <= i < |events| && Fresh(events[i], anfds) ==> events[i].fd != fd
    ensures DueAfter(due, table, anfds, events, w) == due
    ensures fd in table ==> fd in AllCorrected(table, anfds, events)
  {
    if events != [] {
      hide Got;
      NotMentioned(due, table, anfds, events[..|events| - 1], w, fd);
    }
  }

  // The one fresh event for the fd of w.
  lemma {:induction false} MentionedOnce(due: Option<Mask>, table: map<nat, KernelEntry>, anfds: seq<Anfd>,
                                         events: seq<KernelEvent>, w: Watcher, fd: nat, i: nat)
    requires WatchesOnly(anfds, w, fd) && fd in table && i < |events| && events[i].fd == fd && Fresh(events[i], anfds)
    requires forall j :: 0 <= j < |events| && j != i && Fresh(events[j], anfds) ==> events[j].fd != fd
    ensures DueAfter(due, table, anfds, events, w) ==
            if anfds[fd].reify == {} && w in anfds[fd].head then Merged(due, w.events * Got(events[i])) else due
  {
    hide Got, Merged;
    var front := events[..|events| - 1];
    if i == |front| {
      NotMentioned(due, table, anfds, front, w, fd);
    } else {
      MentionedOnce(due, table, anfds, front, w, fd, i);
    }
  }

  // What the events of one batch make due to one watcher.
  lemma EventsTell(due: Option<Mask>, table: map<nat, KernelEntry>, anfds: seq<Anfd>, events: seq<KernelEvent>,
                   ready: nat -> Ready, w: Watcher)
    requires FromKernel(events, table, anfds, ready) && WatchesOnly(anfds, w, w.fd)
    ensures w.fd !in table ==> DueAfter(due, table, anfds, events, w) == due
    ensures w.fd in table && w.fd < |anfds| ==>
              DueAfter(due, table, anfds, events, w) ==
                if anfds[w.fd].reify == {} && w in anfds[w.fd].head
                then Merged(due, w.events * Seen(table[w.fd].mask, ready(w.fd))) else due
  {
    hide Got, Seen, Shows, Shown;
    if i :| 0 <= i < |events| && events[i].fd == w.fd && Fresh(events[i], anfds) {
      MentionedOnce(due, table, anfds, events, w, w.fd, i);
      GotIsSeen(events[i], table[w.fd].mask, ready(w.fd));
    } else {
      NotMentioned(due, table, anfds, events, w, w.fd);
      if w.fd in table {
        NothingSeen(table[w.fd].mask, ready(w.fd));
      }
      assert w.events * {} == {};
    }
  }

  lemma GotIsSeen(ev: KernelEvent, mask: Mask, r: Ready)
    requires Shows(ev, mask, r)
    ensures Got(ev) == Seen(mask, r)
  {}

  lemma NothingSeen(mask: Mask, r: Ready)
    requires !Shown(mask, r)
    ensures Seen(mask, r) == {}
  {}

  /** For one watcher: what both loops of epoll_poll make due to it is what every other backend
      does, given a table in which everything is known. */
  lemma BothLoopsTell(due: Option<Mask>, ep: Epoll, eperms: seq<nat>, b: Before, mid: seq<Anfd>,
                      events: seq<KernelEvent>, ready: nat -> Ready, w: Watcher)
    requires FromKernel(events, b.table, b.anfds, ready) && ReadyOk(ready, ep.kind) && WatchesOnly(b.anfds, w, w.fd)
    requires Mirror(b.table, b.anfds) && EpermsListed(eperms, b.anfds)
    requires forall fd :: fd in b.table ==> ep.kind(fd) == Pollable
    requires forall fd :: 0 <= fd < |b.anfds| ==> b.anfds[fd].events <= IO && Known(b.table, ep.kind, b.anfds, fd)
    requires |mid| == |b.anfds| && forall fd :: 0 <= fd < |mid| ==> OnlyEmask(b.anfds[fd], mid[fd])
    requires forall fd :: 0 <= fd < |mid| && mid[fd] != b.anfds[fd] ==>
               exists i :: 0 <= i < |events| && events[i].fd == fd && Unwanted(events[i], b.anfds)
    ensures DueRefused(DueAfter(due, b.table, b.anfds, events, w), mid, From(eperms, 0), w) ==
            if w.fd in OpenPolled(b.anfds, ready) && w in b.anfds[w.fd].head
            then AfterPoll(due, ready(w.fd), b.anfds[w.fd].reify, w.events) else due
  {
    var fd := w.fd;
    EventsTell(due, b.table, b.anfds, events, ready, w);
    if fd < |b.anfds| && w in b.anfds[fd].head {
      assert OnlyEmask(b.anfds[fd], mid[fd]);
      if b.anfds[fd].reify == {} {
        assert Known(b.table, ep.kind, b.anfds, fd);
        if fd in b.table {
          SeenBits(w.events, b.table[fd].mask, ready(fd));
        } else {
          assert mid[fd] == b.anfds[fd];
          RefusedBits(w.events, b.anfds[fd].events, ready(fd));
        }
      }
    }
  }

  lemma SeenBits(events: Mask, mask: Mask, r: Ready)
    ensures events <= mask ==> events * Seen(mask, r) == events * Report(r)
    ensures events == {} ==> events * Seen(mask, r) == {}
  {}

  lemma RefusedBits(events: Mask, mask: Mask, r: Ready)
    ensures events <= mask <= IO && r.inp && r.outp ==> events * mask == events * Report(r)
  {}

  /** epoll_poll, for a batch that reports a readiness function on a table in which everything is
      known: exactly the readiness of the open fds with events is reported, as by the other
      backends. */
  method EpollPollReady(fds: Fds, ep: Epoll, events: seq<KernelEvent>, ghost ready: nat -> Ready)
    requires fds.Valid() && Valid(fds, ep) && Synced(fds, ep, {}) && forall i :: 0 <= i < |events| ==> events[i].fd < |fds.anfds|
    requires FromKernel(events, ep.table, fds.anfds, ready) && ReadyOk(ready, ep.kind)
    modifies fds`anfds
    modifies fds.queues`pendings, fds.queues`pendingpri, fds.queues`trace, fds.all`pending
    modifies ep`table, ep`recreate, ep`eperms
    ensures fds.Valid() && Valid(fds, ep) && Synced(fds, ep, {})
    ensures Told(fds, ready, OpenPolled(old(fds.anfds), ready), old(fds.anfds), old(fds.queues.trace))
  {
    hide Fds.Valid, Mirror, EpermsListed, FromKernel, ReadyOk, Known, DueRefused, DueAfter, Expected, AfterPoll, From;
    fds.TellWatches();
    ghost var (b, eperms) := (Now(fds, ep), ep.eperms);
    FreshIsPollable(events, ep, b.anfds, ready);
    ghost var mid := EpollPoll(fds, ep, events, {});
    forall w | w in fds.all
      ensures Expected(fds.queues.trace, w) ==
              if w.fd in OpenPolled(b.anfds, ready) && w.fd < |b.anfds| && w in b.anfds[w.fd].head
              then AfterPoll(Expected(b.trace, w), ready(w.fd), b.anfds[w.fd].reify, w.events)
              else Expected(b.trace, w)
    {
      BothLoopsTell(Expected(b.trace, w), ep, eperms, b, mid.anfds, events, ready, w);
    }
  }

  lemma FreshIsPollable(events: seq<KernelEvent>, ep: Epoll, anfds: seq<Anfd>, ready: nat -> Ready)
    requires ep.KernelOk() && FromKernel(events, ep.table, anfds, ready)
    ensures OfPollable(events, ep.kind, anfds, {})
  {}

  // ---------- Runs ----------

  // What happens to the fds, the loop and the kernel.  Reopened closes fds without telling the
  // loop, and uses their numbers again.
  datatype EpollStep =
    | Program(step: FdStep)
    | Reified
    | Received(events: seq<KernelEvent>)
    | Reopened(changed: set<nat>, kind: nat -> Kind)
    | Forked

  /** The fds that have been closed without the loop's being told, and have not had their
      watchers set anew since. */
  function Gone(start: set<nat>, steps: seq<EpollStep>): set<nat> {
    if steps == [] then start
    else
      var gone := Gone(start, steps[..|steps| - 1]);
      match steps[|steps| - 1]
      case Program(Reset(_, fd, _)) => gone - {fd}
      case Reopened(changed, _) => gone + changed
      case Forked => {}
      case _ => gone
  }

  // Fresh events are of entries in the kernel's table; and the numbers are in range, as the
  // source assumes.
  predicate FromTable(events: seq<KernelEvent>, table: map<nat, KernelEntry>, anfds: seq<Anfd>) {
    forall i :: 0 <= i < |events| ==> events[i].fd < |anfds| && (Fresh(events[i], anfds) ==> events[i].fd in table)
  }

  ghost predicate RunOk(fds: Fds, ep: Epoll, gone: set<nat>)
    reads fds, fds.queues, fds.queues.watchers`pending, fds.queues.watchers`priority, ep
    reads fds.all`active, fds.all`fd, fds.all`events, fds.all`priority
  {
    fds.Valid() && fds.MasksOk() && fds.reified == 0 && Valid(fds, ep) && Synced(fds, ep, gone)
  }

  method RunStep(fds: Fds, ep: Epoll, step: EpollStep, ghost gone: set<nat>)
    requires RunOk(fds, ep, gone) && (step.Program? ==> fds.StepOk(step.step))
    modifies fds`anfds, fds`fdchanges, fds`activecnt, fds`reified
    modifies fds.all`active, fds.all`fd, fds.all`events, fds.all`priority, fds.all`pending
    modifies fds.queues`pendings, fds.queues`pendingpri, fds.queues`trace
    modifies ep`table, ep`kind, ep`eperms, ep`recreate
    ensures RunOk(fds, ep, Gone(gone, [step]))
  {
    hide Fds.TableOk, Fds.ChangesOk, Queues.Valid, Wanted, Known, Mirror, EpermsListed, WantedIsKnown;
    ghost var anfds := fds.anfds;
    match step
    case Program(io) =>
      fds.Apply(io, {});
      BackendKept(fds, ep, anfds, gone);
      if io.Reset? {
        SetAnew(ep.table, ep.kind, fds.anfds, io.fd);
      }
    case Reified => FdReify(fds, ep, gone);
    case Received(events) =>
      // any other batch cannot be received
      if FromTable(events, ep.table, fds.anfds) {
        ghost var _ := EpollPoll(fds, ep, events, gone);
      }
    case Reopened(changed, kind) =>
      ghost var (table, kind0) := (ep.table, ep.kind);
      ep.Reopen(changed, kind);
      EntriesVanish(table, kind0, ep.table, ep.kind, fds.anfds, changed);
    case Forked => EpollFork(fds, ep);
  }

  // Closing fds, and opening others under the same numbers, keeps the mirror and the other fds.
  lemma EntriesVanish(table: map<nat, KernelEntry>, kind: nat -> Kind, table': map<nat, KernelEntry>, kind': nat -> Kind,
                      anfds: seq<Anfd>, changed: set<nat>)
    requires Mirror(table, anfds) && table' == map fd | fd in table && fd !in changed :: table[fd]
    requires forall fd :: fd !in changed ==> kind'(fd) == kind(fd)
    ensures Mirror(table', anfds)
    ensures forall fd :: 0 <= fd < |anfds| && fd !in changed && Known(table, kind, anfds, fd) ==> Known(table', kind', anfds, fd)
  {}

  lemma SetAnew(table: map<nat, KernelEntry>, kind: nat -> Kind, anfds: seq<Anfd>, fd: nat)
    requires fd < |anfds| && IoFdSet in anfds[fd].reify
    ensures Known(table, kind, anfds, fd)
  {}

  /** Over any run, with fds closed and reopened behind the loop's back and with any stale events
      received, the mirror holds throughout; and a final fd_reify leaves every fd that was not
      closed, or whose watchers have been set anew since, registered with the OR of what its
      watchers ask for. */
  method Run(fds: Fds, ep: Epoll, steps: seq<EpollStep>, ghost gone: set<nat>)
    requires RunOk(fds, ep, gone) && forall i :: 0 <= i < |steps| && steps[i].Program? ==> fds.StepOk(steps[i].step)
    modifies fds`anfds, fds`fdchanges, fds`activecnt, fds`reified
    modifies fds.all`active, fds.all`fd, fds.all`events, fds.all`priority, fds.all`pending
    modifies fds.queues`pendings, fds.queues`pendingpri, fds.queues`trace
    modifies ep`table, ep`kind, ep`eperms, ep`recreate
    ensures RunOk(fds, ep, Gone(gone, steps)) && WantedIsKnown(fds, ep, Gone(gone, steps)) && fds.fdchanges == []
  {
    hide Gone, WantedIsKnown, Fds.Valid, Valid, Synced;
    GoneStart(gone);
    for i := 0 to |steps|
      invariant RunOk(fds, ep, Gone(gone, steps[..i]))
    {
      RunStep(fds, ep, steps[i], Gone(gone, steps[..i]));
      GoneNext(gone, steps, i);
    }
    assert steps[..|steps|] == steps;
    FdReify(fds, ep, Gone(gone, steps));
  }

  lemma GoneStart(gone: set<nat>)
    ensures Gone(gone, []) == gone
  {}

  lemma GoneNext(gone: set<nat>, steps: seq<EpollStep>, i: nat)
    requires i < |steps|
    ensures Gone(gone, steps[..i + 1]) == Gone(Gone(gone, steps[..i]), [steps[i]])
  {
    assert steps[..i + 1][..i] == steps[..i];
  }
}
