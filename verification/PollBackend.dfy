/**
  The poll backend (libev-master/ev_poll.c): a dense array of pollfds and its inverse, which
  maps an fd to its place in the array.
 */
module PollBackend {
  import opened Wrappers
  import opened EventLoop
  import opened PendingQueues
  import opened Readiness
  import opened FdInterest
  import opened Growth

  datatype PollBit = PollIn | PollOut | PollErr | PollNval

  datatype PollFd = PollFd(fd: nat, events: set<PollBit>)

  const POLLFD_SIZE := 8  // sizeof (struct pollfd)
  const INT_SIZE := 4

  function ToPoll(nev: Mask): set<PollBit> {
    (if Read in nev then {PollIn} else {}) + (if Write in nev then {PollOut} else {})
  }

  function FromPoll(events: set<PollBit>): Mask {
    (if PollIn in events then {Read} else {}) + (if PollOut in events then {Write} else {})
  }

  class Poll {
    var polls: array<PollFd>
    var pollcnt: nat
    var pollidxs: array<int>

    // The place of an fd in polls, and the fd at a place, refer to each other.
    ghost predicate Inverse()
      reads this, polls, pollidxs
    {
      && pollcnt <= polls.Length
      && (forall i :: 0 <= i < pollcnt ==> polls[i].fd < pollidxs.Length && pollidxs[polls[i].fd] == i)
      && (forall fd :: 0 <= fd < pollidxs.Length ==>
            pollidxs[fd] == -1 || (0 <= pollidxs[fd] < pollcnt && polls[pollidxs[fd]].fd == fd))
    }

    // Only fds that somebody is interested in have a place.
    ghost predicate Asked(except: int)
      requires pollcnt <= polls.Length
      reads this, polls
    {
      forall i :: 0 <= i < pollcnt && i != except ==> {} < polls[i].events <= {PollIn, PollOut}
    }

    ghost predicate Valid()
      reads this, polls, pollidxs
      ensures Valid() ==> Inverse()
    {
      Inverse() && Asked(-1)
    }

    /** The events that poll is asked for on fd. */
    ghost function Interest(fd: nat): Mask
      requires Inverse()
      reads this, polls, pollidxs
    {
      if fd < pollidxs.Length && pollidxs[fd] >= 0 then FromPoll(polls[pollidxs[fd]].events) else {}
    }

    constructor ()
      ensures Valid() && forall fd :: Interest(fd) == {}
      ensures fresh(polls) && fresh(pollidxs)
    {
      polls, pollcnt, pollidxs := new PollFd[0], 0, new int[0];
    }

    /** poll_modify */
    method PollModify(fd: nat, oev: Mask, nev: Mask)
      requires Valid() && oev == Interest(fd) && nev <= IO
      modifies `polls, `pollcnt, `pollidxs, polls, pollidxs
      ensures Valid() && Interest(fd) == nev
      ensures forall u :: u != fd ==> Interest(u) == old(Interest(u))
      ensures (polls == old(polls) || fresh(polls)) && (pollidxs == old(pollidxs) || fresh(pollidxs))
    {
      if oev == nev {
        return;
      }
      var idx := Place(fd);
      if nev != {} {
        Ask(fd, idx, nev);
      } else {
        Remove(fd, idx);
      }
    }

    method Ask(fd: nat, idx: nat, nev: Mask)
      requires Inverse() && Asked(idx) && {} < nev <= IO
      requires fd < pollidxs.Length && idx < pollcnt && pollidxs[fd] == idx
      modifies polls
      ensures Valid() && Interest(fd) == nev
      ensures forall u :: u != fd ==> Interest(u) == old(Interest(u))
    {
      polls[idx] := polls[idx].(events := ToPoll(nev));
    }

    // The place of fd, allocated if it has none.
    method Place(fd: nat) returns (idx: nat)
      requires Valid()
      modifies `polls, `pollcnt, `pollidxs, polls, pollidxs
      ensures Inverse() && Asked(idx)
      ensures fd < pollidxs.Length && idx < pollcnt && pollidxs[fd] == idx
      ensures forall u :: Interest(u) == old(Interest(u))
      ensures (polls == old(polls) || fresh(polls)) && (pollidxs == old(pollidxs) || fresh(pollidxs))
    {
      GrowIndex(fd);
      if pollidxs[fd] < 0 {
        GrowPolls(fd);
        Allocate(fd);
      }
      idx := pollidxs[fd];
    }

    method Allocate(fd: nat)
      requires Valid() && fd < pollidxs.Length && pollidxs[fd] == -1 && pollcnt < polls.Length
      modifies `pollcnt, polls, pollidxs
      ensures Inverse() && pollcnt == old(pollcnt) + 1 && pollidxs[fd] == pollcnt - 1 && Asked(pollcnt - 1)
      ensures forall u :: Interest(u) == old(Interest(u))
    {
      pollidxs[fd] := pollcnt;
      polls[pollcnt] := PollFd(fd, {});
      pollcnt := pollcnt + 1;
    }

    method GrowIndex(fd: nat)
      requires Valid()
      modifies `pollidxs
      ensures Valid() && fd < pollidxs.Length && (pollidxs == old(pollidxs) || fresh(pollidxs))
      ensures forall u :: Interest(u) == old(Interest(u))
    {
      ghost var was := pollidxs[..];
      pollidxs := NeedSize(INT_SIZE, pollidxs, fd + 1, -1);
      assert forall u :: 0 <= u < |was| ==> pollidxs[u] == pollidxs[..|was|][u];
    }

    method GrowPolls(fd: nat)
      requires Valid()
      modifies `polls
      ensures Valid() && pollcnt < polls.Length && (polls == old(polls) || fresh(polls))
      ensures forall u :: Interest(u) == old(Interest(u))
    {
      ghost var was := polls[..];
      polls := NeedSize(POLLFD_SIZE, polls, pollcnt + 1, PollFd(fd, {}));
      assert forall i :: 0 <= i < |was| ==> polls[i] == polls[..|was|][i];
    }

    // The last pollfd moved into the place of fd's.
    method Remove(fd: nat, idx: nat)
      requires Inverse() && Asked(idx)
      requires fd < pollidxs.Length && idx < pollcnt && pollidxs[fd] == idx
      modifies `pollcnt, polls, pollidxs
      ensures Valid() && Interest(fd) == {}
      ensures forall u :: u != fd ==> Interest(u) == old(Interest(u))
    {
      pollidxs[fd] := -1;
      pollcnt := pollcnt - 1;
      if idx < pollcnt {
        polls[idx] := polls[pollcnt];
        pollidxs[polls[idx].fd] := idx;
      }
    }
  }

  /** poll is asked for exactly the events that the table of fds says it was told of. */
  ghost predicate Agrees(fds: Fds, poll: Poll)
    reads fds`anfds, poll, poll.polls, poll.pollidxs
  {
    && poll.Valid()
    && forall fd: nat :: poll.Interest(fd) == if fd < |fds.anfds| then fds.anfds[fd].events else {}
  }

  /** fd_reify, with poll_modify for backend_modify: afterwards poll is asked, for every fd, for
      the OR of what the fd's watchers ask for. */
  method FdReify(fds: Fds, poll: Poll)
    requires fds.Valid() && fds.reified == 0 && Agrees(fds, poll)
    modifies fds`anfds, fds`fdchanges, fds`reified
    modifies poll`polls, poll`pollcnt, poll`pollidxs, poll.polls, poll.pollidxs
    ensures fds.Valid() && fds.reified == 0 && fds.fdchanges == [] && Agrees(fds, poll)
    ensures |fds.anfds| == |old(fds.anfds)|
    ensures forall fd :: 0 <= fd < |fds.anfds| ==>
              && fds.anfds[fd].head == old(fds.anfds)[fd].head && fds.anfds[fd].reify == {}
              && poll.Interest(fd) == Wanted(fds.anfds[fd].head)
    ensures (poll.polls == old(poll.polls) || fresh(poll.polls)) && (poll.pollidxs == old(poll.pollidxs) || fresh(poll.pollidxs))
  {
    hide Fds.Valid, Agrees, Wanted, Poll.Interest;
    var i := 0;
    while i < |fds.fdchanges|
      invariant fds.Valid() && fds.reified == i <= |fds.fdchanges| && Agrees(fds, poll)
      invariant |fds.anfds| == |old(fds.anfds)|
      invariant forall fd :: 0 <= fd < |fds.anfds| ==> fds.anfds[fd].head == old(fds.anfds)[fd].head
      invariant (poll.polls == old(poll.polls) || fresh(poll.polls)) && (poll.pollidxs == old(poll.pollidxs) || fresh(poll.pollidxs))
    {
      ReifyOne(fds, poll, i);
      i := i + 1;
    }
    fds.EndReify(i);
    TellAgrees(fds, poll);
  }

  // The body of the loop of fd_reify.
  method ReifyOne(fds: Fds, poll: Poll, i: nat)
    requires fds.Valid() && fds.reified == i < |fds.fdchanges| && Agrees(fds, poll)
    modifies fds`anfds, fds`reified
    modifies poll`polls, poll`pollcnt, poll`pollidxs, poll.polls, poll.pollidxs
    ensures fds.Valid() && fds.reified == i + 1 && Agrees(fds, poll)
    ensures |fds.anfds| == |old(fds.anfds)|
    ensures forall fd :: 0 <= fd < |fds.anfds| ==> fds.anfds[fd].head == old(fds.anfds)[fd].head
    ensures (poll.polls == old(poll.polls) || fresh(poll.polls)) && (poll.pollidxs == old(poll.pollidxs) || fresh(poll.pollidxs))
  {
    hide Fds.Valid, Poll.Valid, Poll.Interest, Wanted;
    fds.NextInRange(i);
    assert poll.Interest(fds.fdchanges[i]) == fds.anfds[fds.fdchanges[i]].events;
    var fd, tell, oev, nev := fds.ReifyNext(i);
    if tell {
      poll.PollModify(fd, oev, nev);
    }
  }

  lemma TellAgrees(fds: Fds, poll: Poll)
    requires Agrees(fds, poll)
    ensures poll.Valid() && forall fd :: 0 <= fd < |fds.anfds| ==> poll.Interest(fd) == fds.anfds[fd].events
  {}

  // ---------- poll_poll ----------

  // What poll(2) returns for a pollfd.
  function Revents(p: PollFd, ready: nat -> Ready): set<PollBit> {
    var r := ready(p.fd);
    if r.closed then {PollNval}
    else (if r.inp then p.events * {PollIn} else {}) + (if r.outp then p.events * {PollOut} else {})
         + (if r.err then {PollErr} else {})
  }

  function Reported(revents: set<PollBit>): Mask {
    (if revents * {PollOut, PollErr} != {} then {Write} else {})
    + (if revents * {PollIn, PollErr} != {} then {Read} else {})
  }

  // How many pollfds from place p on have something to report.
  function CountFrom(polls: seq<PollFd>, p: nat, ready: nat -> Ready): (n: nat)
    requires p <= |polls|
    decreases |polls| - p
  {
    if p == |polls| then 0
    else CountFrom(polls, p + 1, ready) + if Revents(polls[p], ready) != {} then 1 else 0
  }

  lemma {:induction false} NothingFrom(polls: seq<PollFd>, p: nat, ready: nat -> Ready)
    requires p <= |polls| && CountFrom(polls, p, ready) == 0
    ensures forall i :: p <= i < |polls| ==> Revents(polls[i], ready) == {}
    decreases |polls| - p
  {
    if p < |polls| {
      NothingFrom(polls, p + 1, ready);
    }
  }

  // The report agrees with the fd's readiness as far as the pollfd asks.
  lemma ReportedBits(p: PollFd, ready: nat -> Ready)
    requires p.events <= {PollIn, PollOut} && !ready(p.fd).closed
    ensures FromPoll(p.events) * Reported(Revents(p, ready)) == FromPoll(p.events) * Report(ready(p.fd))
  {
    var r := ready(p.fd);
    assert PollIn in Revents(p, ready) <==> PollIn in p.events && r.inp;
    assert PollOut in Revents(p, ready) <==> PollOut in p.events && r.outp;
    assert PollErr in Revents(p, ready) <==> r.err;
    assert forall b :: b in FromPoll(p.events) * Reported(Revents(p, ready)) <==> b in FromPoll(p.events) * Report(r);
  }

  // The fds at the first p places.
  ghost function Before(polls: seq<PollFd>, p: nat): set<nat>
    requires p <= |polls|
  {
    set i | 0 <= i < p :: polls[i].fd
  }

  // The pollfds are one for each fd that the table says was told of, and ask for its events.
  ghost predicate SameInterest(polls: seq<PollFd>, anfds: seq<Anfd>) {
    && (forall i :: 0 <= i < |polls| ==>
          polls[i].fd < |anfds| && polls[i].events <= {PollIn, PollOut} && FromPoll(polls[i].events) == anfds[polls[i].fd].events)
    && (forall i, j :: 0 <= i < j < |polls| ==> polls[i].fd != polls[j].fd)
    && Before(polls, |polls|) == Polled(anfds)
  }

  lemma InterestIsSame(fds: Fds, poll: Poll)
    requires Agrees(fds, poll)
    ensures poll.pollcnt <= poll.polls.Length && SameInterest(poll.polls[..poll.pollcnt], fds.anfds)
  {
    var polls := poll.polls[..poll.pollcnt];
    forall i | 0 <= i < |polls|
      ensures polls[i].fd < |fds.anfds| && FromPoll(polls[i].events) == fds.anfds[polls[i].fd].events != {}
    {
      assert poll.Interest(polls[i].fd) == FromPoll(polls[i].events) != {};
    }
    forall fd | fd in Polled(fds.anfds) ensures fd in Before(polls, |polls|) {
      assert poll.Interest(fd) == fds.anfds[fd].events;
      assert polls[poll.pollidxs[fd]].fd == fd;
    }
  }

  // The source's assertion: as long as there is more to report, there are more pollfds.
  lemma InRange(polls: seq<PollFd>, p: nat, ready: nat -> Ready)
    requires p <= |polls| && CountFrom(polls, p, ready) != 0
    ensures p < |polls|
  {}

  // The places that the loop does not get to have nothing to report.
  lemma {:induction false} TheRest(fds: Fds, polls: seq<PollFd>, ready: nat -> Ready, p: nat, anfds: seq<Anfd>, trace: seq<Happening>)
    requires fds.Valid() && SameInterest(polls, anfds)
    requires p <= |polls| && CountFrom(polls, p, ready) == 0
    requires Told(fds, ready, Before(polls, p), anfds, trace)
    ensures Told(fds, ready, Before(polls, |polls|), anfds, trace)
    decreases |polls| - p
  {
    if p < |polls| {
      hide Fds.Valid, Told, FromPoll, Report;
      var pfd := polls[p];
      assert Revents(pfd, ready) == {} && CountFrom(polls, p + 1, ready) == 0;
      NextPlace(polls, p);
      ReportedBits(pfd, ready);
      NothingMore(fds, pfd.fd, ready, Before(polls, p), anfds, trace);
      TheRest(fds, polls, ready, p + 1, anfds, trace);
    }
  }

  lemma NextPlace(polls: seq<PollFd>, p: nat)
    requires p < |polls| && forall i, j :: 0 <= i < j < |polls| ==> polls[i].fd != polls[j].fd
    ensures Before(polls, p + 1) == Before(polls, p) + {polls[p].fd} && polls[p].fd !in Before(polls, p)
  {}

  /** poll_poll, when poll(2) does not fail: exactly the readiness of the fds with events is
      reported. */
  method PollPoll(fds: Fds, poll: Poll, ready: nat -> Ready)
    requires fds.Valid() && Agrees(fds, poll)
    modifies fds`anfds, fds`fdchanges, fds`activecnt, fds.all`active
    modifies fds.queues`pendings, fds.queues`pendingpri, fds.queues`trace, fds.all`pending
    ensures fds.Valid()
    ensures Told(fds, ready, Polled(old(fds.anfds)), old(fds.anfds), old(fds.queues.trace))
  {
    hide Fds.Valid, Told, CountFrom, SameInterest, Agrees;
    InterestIsSame(fds, poll);
    NothingTold(fds, ready);
    ghost var (anfds, trace) := (fds.anfds, fds.queues.trace);
    ghost var polls := poll.polls[..poll.pollcnt];
    var res := CountFrom(poll.polls[..poll.pollcnt], 0, ready);  // what poll(2) returns
    var p := 0;
    assert Before(polls, 0) == {};
    while res != 0
      invariant p <= |polls| && fds.Valid() && Told(fds, ready, Before(polls, p), anfds, trace)
      invariant res == CountFrom(polls, p, ready)
      decreases |polls| - p
    {
      InRange(polls, p, ready);
      assert poll.polls[p] == polls[p];
      res := PollOne(fds, poll.polls[p], ready, p, res, polls, anfds, trace);
      p := p + 1;
    }
    TheRest(fds, polls, ready, p, anfds, trace);
    AllPlaces(polls, anfds);
  }

  lemma AllPlaces(polls: seq<PollFd>, anfds: seq<Anfd>)
    requires SameInterest(polls, anfds)
    ensures Before(polls, |polls|) == Polled(anfds)
  {}

  // The body of the loop of poll_poll.
  method PollOne(fds: Fds, pfd: PollFd, ready: nat -> Ready, ghost p: nat, res: nat,
                 ghost polls: seq<PollFd>, ghost anfds: seq<Anfd>, ghost trace: seq<Happening>)
    returns (res': nat)
    requires fds.Valid() && p < |polls| && pfd == polls[p] && SameInterest(polls, anfds)
    requires res == CountFrom(polls, p, ready) && Told(fds, ready, Before(polls, p), anfds, trace)
    modifies fds`anfds, fds`fdchanges, fds`activecnt, fds.all`active
    modifies fds.queues`pendings, fds.queues`pendingpri, fds.queues`trace, fds.all`pending
    ensures fds.Valid() && Told(fds, ready, Before(polls, p + 1), anfds, trace)
    ensures res' == CountFrom(polls, p + 1, ready)
  {
    hide Fds.Valid, Told, FromPoll, Report, Before;
    var revents := Revents(pfd, ready);
    NextPlace(polls, p);
    if !ready(pfd.fd).closed {
      ReportedBits(pfd, ready);
    }
    res' := res;
    if revents != {} {
      res' := res' - 1;
      TellMore(fds, pfd.fd, ready, Reported(revents), Before(polls, p), anfds, trace);
    } else {
      NothingMore(fds, pfd.fd, ready, Before(polls, p), anfds, trace);
    }
  }

  // ---------- Runs ----------

  ghost predicate RunOk(fds: Fds, poll: Poll)
    reads fds, fds.queues, fds.queues.watchers`pending, fds.queues.watchers`priority
    reads fds.all`active, fds.all`fd, fds.all`events, fds.all`priority
    reads poll, poll.polls, poll.pollidxs
  {
    fds.Valid() && fds.MasksOk() && fds.reified == 0 && Agrees(fds, poll)
  }

  ghost predicate StepsOk(fds: Fds, steps: seq<LoopStep>) {
    forall i :: 0 <= i < |steps| && steps[i].Io? ==> fds.StepOk(steps[i].step)
  }

  /** Over any run, what poll is asked for agrees with the table of fds, and a final fd_reify
      makes both what the watchers on the lists ask for. */
  method Run(fds: Fds, poll: Poll, steps: seq<LoopStep>)
    requires RunOk(fds, poll) && StepsOk(fds, steps)
    modifies fds`anfds, fds`fdchanges, fds`activecnt, fds`reified
    modifies fds.all`active, fds.all`fd, fds.all`events, fds.all`priority, fds.all`pending
    modifies fds.queues`pendings, fds.queues`pendingpri, fds.queues`trace
    modifies poll`polls, poll`pollcnt, poll`pollidxs, poll.polls, poll.pollidxs
    ensures RunOk(fds, poll) && fds.fdchanges == []
    ensures forall fd :: 0 <= fd < |fds.anfds| ==> poll.Interest(fd) == Wanted(fds.anfds[fd].head)
    ensures forall w :: w in fds.all && w.active != 0 ==> w.fd < |fds.anfds| && w in fds.anfds[w.fd].head
  {
    hide Wanted, Poll.Interest;
    for i := 0 to |steps|
      invariant RunOk(fds, poll)
      invariant (poll.polls == old(poll.polls) || fresh(poll.polls)) && (poll.pollidxs == old(poll.pollidxs) || fresh(poll.pollidxs))
    {
      hide RunOk;
      RunStep(fds, poll, steps[i]);
    }
    FdReify(fds, poll);
    fds.TellLists();
  }

  lemma StillAgrees(fds: Fds, poll: Poll, anfds: seq<Anfd>)
    requires poll.Valid() && forall fd: nat :: poll.Interest(fd) == if fd < |anfds| then anfds[fd].events else {}
    requires |anfds| <= |fds.anfds| && forall fd :: 0 <= fd < |anfds| ==> fds.anfds[fd].events == anfds[fd].events
    requires forall fd :: |anfds| <= fd < |fds.anfds| ==> fds.anfds[fd].events == {}
    ensures Agrees(fds, poll)
  {}

  method RunStep(fds: Fds, poll: Poll, step: LoopStep)
    requires RunOk(fds, poll) && StepsOk(fds, [step])
    modifies fds`anfds, fds`fdchanges, fds`activecnt, fds`reified
    modifies fds.all`active, fds.all`fd, fds.all`events, fds.all`priority, fds.all`pending
    modifies fds.queues`pendings, fds.queues`pendingpri, fds.queues`trace
    modifies poll`polls, poll`pollcnt, poll`pollidxs, poll.polls, poll.pollidxs
    ensures RunOk(fds, poll)
    ensures (poll.polls == old(poll.polls) || fresh(poll.polls)) && (poll.pollidxs == old(poll.pollidxs) || fresh(poll.pollidxs))
  {
    hide Fds.TableOk, Fds.ChangesOk, Queues.Valid, Wanted, Poll.Interest, Poll.Valid;
    assert [step][0] == step;
    ghost var anfds := fds.anfds;
    match step
    case Io(io) =>
      fds.Apply(io, {});
      StillAgrees(fds, poll, anfds);
    case Reify => FdReify(fds, poll);
    case Poll(ready) =>
      PollPoll(fds, poll, ready);
      StillAgrees(fds, poll, anfds);
  }
}
