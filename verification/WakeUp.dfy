/**
  libev's asynchronous wake-up protocol (libev-master/ev.c): any number of senders run
  ev_async_send or ev_feed_signal, both ending in evpipe_write, while one event loop runs
  ev_run and pipecb.  Every access to a shared variable is one step; memory fences are
  no-ops because the steps interleave sequentially.

  `stores`, `since`, `feeds` and the `batch` of a program counter are history.
 */
module WakeUp {

  // The two users of evpipe_write, each with its flag and its marked items:
  // sig_pending with signals[i].pending, and async_pending with asyncs[i]->sent.
  datatype Channel = Sig | Async

  // signals[i].pending or asyncs[i]->sent.
  datatype Item = Item(mark: bool, stores: nat, since: nat)

  datatype Line = Line(flag: bool, items: seq<Item>)

  datatype SenderPc =
    | Idle
    | TestFlag(ch: Channel)     // the mark is stored; about to test *flag
    | RaiseFlag(ch: Channel)    // *flag was 0; about to set it
    | SetSkipped                // about to set pipe_write_skipped
    | TestWanted                // about to test pipe_write_wanted
    | ClearSkipped              // it was 1; about to clear pipe_write_skipped
    | WritePipe

  datatype LoopPc =
    | Before                    // about to set pipe_write_wanted
    | TestSkipped               // about to test pipe_write_skipped
    | Polling(blocking: bool)   // inside backend_poll
    | Returned                  // about to clear pipe_write_wanted
    | TestAfter                 // about to test pipe_write_skipped again
    | Invoke                    // about to run the pending callbacks
    | PipeRead                  // pipecb: about to read the pipe
    | PipeClear                 // pipecb: about to clear pipe_write_skipped
    | FlagTest(ch: Channel)
    | FlagClear(ch: Channel)
    | Scan(ch: Channel, i: nat)                     // items below i are still to be visited
    | ScanClear(ch: Channel, i: nat)                // item i was seen marked
    | ScanFeed(ch: Channel, i: nat, batch: nat)     // its mark is cleared; about to feed it

  datatype Feed = Feed(ch: Channel, i: nat, batch: nat)

  datatype State = State(
    eventfd: bool, sig: Line, async: Line,
    skipped: bool, wanted: bool, pipe: nat,
    fedRead: bool, fedCustom: bool,   // events for which pipe_w is pending
    senders: seq<SenderPc>, loop: LoopPc, feeds: seq<Feed>)
  {
    function Get(ch: Channel): Line {
      if ch == Sig then sig else async
    }

    function Put(ch: Channel, line: Line): State {
      if ch == Sig then this.(sig := line) else this.(async := line)
    }

    function PutItem(ch: Channel, i: nat, item: Item): State
      requires i < |Get(ch).items|
    {
      Put(ch, Get(ch).(items := Get(ch).items[i := item]))
    }
  }

  /** One scheduler choice.  `full` lets a write to a non-empty pipe be dropped; `choice` says
      whether the loop may block, and whether the poll reports a readable pipe. */
  datatype Action =
    | Send(t: nat, ch: Channel, i: nat)
    | Sender(t: nat, full: bool)
    | Loop(choice: bool)

  function NewLine(items: nat): Line {
    Line(false, seq(items, _ => Item(false, 0, 0)))
  }

  function Init(eventfd: bool, senders: nat, signals: nat, asyncs: nat): State {
    State(eventfd, NewLine(signals), NewLine(asyncs), false, false, 0, false, false,
          seq(senders, _ => Idle), Before, [])
  }

  // The first store of ev_async_send and ev_feed_signal.
  function StoreMark(s: State, t: nat, ch: Channel, i: nat): State
    requires t < |s.senders| && i < |s.Get(ch).items|
  {
    var item := s.Get(ch).items[i];
    s.PutItem(ch, i, Item(true, item.stores + 1, item.since + 1)).(senders := s.senders[t := TestFlag(ch)])
  }

  // evpipe_write: what a sender's next step does to the shared variables, and where it goes.
  function SenderEffect(s: State, pc: SenderPc, full: bool): State {
    match pc
    case RaiseFlag(ch) => s.Put(ch, s.Get(ch).(flag := true))
    case SetSkipped => s.(skipped := true)
    case ClearSkipped => s.(skipped := false)
    case WritePipe => s.(pipe := if full && s.pipe > 0 then s.pipe else s.pipe + 1)
    case _ => s
  }

  function SenderNext(s: State, pc: SenderPc): SenderPc {
    match pc
    case TestFlag(ch) => if s.Get(ch).flag then Idle else RaiseFlag(ch)
    case RaiseFlag(_) => SetSkipped
    case SetSkipped => TestWanted
    case TestWanted => if s.wanted then ClearSkipped else Idle
    case ClearSkipped => WritePipe
    case _ => Idle
  }

  function SenderStep(s: State, t: nat, full: bool): State
    requires t < |s.senders|
  {
    SenderEffect(s, s.senders[t], full).(senders := s.senders[t := SenderNext(s, s.senders[t])])
  }

  function AfterScan(ch: Channel): LoopPc {
    if ch == Sig then FlagTest(Async) else Before
  }

  // The read in pipecb: an eventfd is reset, a pipe gives up at most four bytes.
  function Drain(eventfd: bool, pipe: nat): nat {
    if eventfd || pipe <= 4 then 0 else pipe - 4
  }

  // ev_run around backend_poll, and pipecb: what the loop's next step does, and where it goes.
  function LoopEffect(s: State, choice: bool): State {
    match s.loop
    case Before => s.(wanted := true)
    case Polling(_) => s.(fedRead := s.fedRead || (choice && s.pipe > 0))
    case Returned => s.(wanted := false)
    case TestAfter => s.(fedCustom := s.fedCustom || s.skipped)
    case Invoke => s.(fedRead := false, fedCustom := false)
    case PipeRead => s.(pipe := Drain(s.eventfd, s.pipe))
    case PipeClear => s.(skipped := false)
    case FlagClear(ch) => s.Put(ch, s.Get(ch).(flag := false))
    case ScanClear(ch, i) =>
      if i < |s.Get(ch).items| then s.PutItem(ch, i, s.Get(ch).items[i].(mark := false, since := 0)) else s
    case ScanFeed(ch, i, batch) => s.(feeds := s.feeds + [Feed(ch, i, batch)])
    case _ => s
  }

  function LoopNext(s: State, choice: bool): LoopPc {
    match s.loop
    case Before => TestSkipped
    case TestSkipped => Polling(choice && !s.skipped)
    case Polling(_) => Returned
    case Returned => TestAfter
    case TestAfter => Invoke
    case Invoke => if s.fedRead then PipeRead else if s.fedCustom then PipeClear else Before
    case PipeRead => PipeClear
    case PipeClear => FlagTest(Sig)
    case FlagTest(ch) => if s.Get(ch).flag then FlagClear(ch) else AfterScan(ch)
    case FlagClear(ch) => Scan(ch, |s.Get(ch).items|)
    case Scan(ch, i) =>
      if i == 0 then AfterScan(ch)
      else if i <= |s.Get(ch).items| && s.Get(ch).items[i - 1].mark then ScanClear(ch, i - 1)
      else Scan(ch, i - 1)
    case ScanClear(ch, i) => ScanFeed(ch, i, if i < |s.Get(ch).items| then s.Get(ch).items[i].since else 0)
    case ScanFeed(ch, i, _) => Scan(ch, i)
  }

  function LoopStep(s: State, choice: bool): State {
    LoopEffect(s, choice).(loop := LoopNext(s, choice))
  }

  function Step(s: State, a: Action): State {
    match a
    case Send(t, ch, i) =>
      if t < |s.senders| && s.senders[t] == Idle && i < |s.Get(ch).items| then StoreMark(s, t, ch, i) else s
    case Sender(t, full) => if t < |s.senders| then SenderStep(s, t, full) else s
    case Loop(choice) => LoopStep(s, choice)
  }

  function Run(s: State, actions: seq<Action>): State {
    if actions == [] then s
    else Step(Run(s, actions[..|actions| - 1]), actions[|actions| - 1])
  }

  ghost predicate Reachable(s: State) {
    exists eventfd, senders, signals, asyncs, actions ::
      s == Run(Init(eventfd, senders, signals, asyncs), actions)
  }

  // ---------- The wake-up invariant ----------

  // The sender has raised its flag, and still has to announce it or to wake the loop.
  predicate Committed(pc: SenderPc) {
    pc.SetSkipped? || pc.ClearSkipped? || pc.WritePipe?
  }

  // The sender has announced its flag and will clear the announcement if the loop wants a wake-up.
  predicate Undoing(pc: SenderPc) {
    pc.TestWanted? || pc.ClearSkipped?
  }

  predicate MidWrite(pc: SenderPc) {
    Committed(pc) || Undoing(pc)
  }

  ghost predicate Some(senders: seq<SenderPc>, p: SenderPc -> bool) {
    exists t :: 0 <= t < |senders| && p(senders[t])
  }

  predicate Wanting(pc: LoopPc) {
    pc.TestSkipped? || pc.Polling? || pc.Returned?
  }

  // The loop is inside pipecb and has not yet tested this channel's flag, or is about to clear it.
  predicate BeforeTest(pc: LoopPc, ch: Channel) {
    match pc
    case PipeRead => true
    case PipeClear => true
    case FlagTest(c) => c == Sig || ch == Async
    case FlagClear(c) => c == Sig || ch == Async
    case Scan(c, _) => c == Sig && ch == Async
    case ScanClear(c, _) => c == Sig && ch == Async
    case ScanFeed(c, _, _) => c == Sig && ch == Async
    case _ => false
  }

  /** `noticed`: some sender has yet to announce its flag or to wake the loop, or the flag is
      announced, or the pipe is readable.  A raised flag is noticed, or the loop is about to
      test it.  While the loop blocks, pipe_write_skipped is 1 only between a sender's store
      of it and that sender's clearing it. */
  predicate Wake(sig: bool, async: bool, skipped: bool, wanted: bool, noticed: bool, undoing: bool, loop: LoopPc) {
    && (sig ==> noticed || BeforeTest(loop, Sig))
    && (async ==> noticed || BeforeTest(loop, Async))
    && (loop == Polling(true) && skipped ==> undoing)
    && wanted == Wanting(loop)
  }

  ghost predicate Noticed(s: State) {
    Some(s.senders, Committed) || s.skipped || s.pipe > 0
  }

  ghost predicate WakeInv(s: State) {
    Wake(s.sig.flag, s.async.flag, s.skipped, s.wanted, Noticed(s), Some(s.senders, Undoing), s.loop)
  }

  // Changing one sender's program counter keeps the other senders' obligations.
  lemma OneSender(senders: seq<SenderPc>, t: nat, pc: SenderPc, p: SenderPc -> bool)
    requires t < |senders|
    ensures p(pc) ==> Some(senders[t := pc], p)
    ensures !p(senders[t]) && Some(senders, p) ==> Some(senders[t := pc], p)
  {
    var senders' := senders[t := pc];
    assert senders'[t] == pc;
    if !p(senders[t]) && Some(senders, p) {
      var u :| 0 <= u < |senders| && p(senders[u]);
      assert senders'[u] == senders[u];
    }
  }

  lemma AnnouncingKeepsWakeInv(s: State, t: nat, full: bool)
    requires WakeInv(s) && t < |s.senders|
    requires s.senders[t].Idle? || s.senders[t].TestFlag? || s.senders[t].RaiseFlag?
    ensures WakeInv(SenderStep(s, t, full))
  {
    OneSender(s.senders, t, SenderNext(s, s.senders[t]), Committed);
    OneSender(s.senders, t, SenderNext(s, s.senders[t]), Undoing);
  }

  lemma WakingKeepsWakeInv(s: State, t: nat, full: bool)
    requires WakeInv(s) && t < |s.senders| && MidWrite(s.senders[t])
    ensures WakeInv(SenderStep(s, t, full))
  {
    OneSender(s.senders, t, SenderNext(s, s.senders[t]), Committed);
    OneSender(s.senders, t, SenderNext(s, s.senders[t]), Undoing);
  }

  predicate InRun(pc: LoopPc) {
    pc.Before? || pc.TestSkipped? || pc.Polling? || pc.Returned? || pc.TestAfter? || pc.Invoke?
  }

  predicate InScan(pc: LoopPc) {
    pc.Scan? || pc.ScanClear? || pc.ScanFeed?
  }

  lemma RunKeepsWake(s: State, choice: bool)
    requires WakeInv(s) && InRun(s.loop)
    ensures WakeInv(LoopStep(s, choice))
  {
    assert LoopStep(s, choice).senders == s.senders;
  }

  lemma ScanKeepsWake(s: State, choice: bool)
    requires WakeInv(s) && InScan(s.loop)
    ensures WakeInv(LoopStep(s, choice))
  {
    assert LoopStep(s, choice).senders == s.senders;
  }

  lemma PipecbKeepsWake(s: State, choice: bool)
    requires WakeInv(s) && !InRun(s.loop) && !InScan(s.loop)
    ensures WakeInv(LoopStep(s, choice))
  {
    assert LoopStep(s, choice).senders == s.senders;
  }

  lemma StoreKeepsWakeInv(s: State, t: nat, ch: Channel, i: nat)
    requires WakeInv(s) && t < |s.senders| && s.senders[t] == Idle && i < |s.Get(ch).items|
    ensures WakeInv(StoreMark(s, t, ch, i))
  {
    OneSender(s.senders, t, TestFlag(ch), Committed);
    OneSender(s.senders, t, TestFlag(ch), Undoing);
  }

  lemma LoopKeepsWakeInv(s: State, choice: bool)
    requires WakeInv(s)
    ensures WakeInv(LoopStep(s, choice))
  {
    hide LoopStep, WakeInv;
    if InRun(s.loop) {
      RunKeepsWake(s, choice);
    } else if InScan(s.loop) {
      ScanKeepsWake(s, choice);
    } else {
      PipecbKeepsWake(s, choice);
    }
  }

  lemma StepKeepsWakeInv(s: State, a: Action)
    requires WakeInv(s)
    ensures WakeInv(Step(s, a))
  {
    hide LoopStep, SenderStep, StoreMark, WakeInv;
    match a
    case Send(t, ch, i) =>
      if t < |s.senders| && s.senders[t] == Idle && i < |s.Get(ch).items| {
        StoreKeepsWakeInv(s, t, ch, i);
      }
    case Sender(t, full) =>
      if t < |s.senders| {
        if MidWrite(s.senders[t]) {
          WakingKeepsWakeInv(s, t, full);
        } else {
          AnnouncingKeepsWakeInv(s, t, full);
        }
      }
    case Loop(choice) => LoopKeepsWakeInv(s, choice);
  }

  lemma {:induction false} RunKeepsWakeInv(s: State, actions: seq<Action>)
    requires WakeInv(s)
    ensures WakeInv(Run(s, actions))
  {
    if actions != [] {
      RunKeepsWakeInv(s, actions[..|actions| - 1]);
      StepKeepsWakeInv(Run(s, actions[..|actions| - 1]), actions[|actions| - 1]);
    }
  }

  /** No lost wake-up: when the loop blocks in the backend and a flag is raised, then the pipe
      is readable unless a sender that has raised a flag is still inside evpipe_write. */
  lemma NoLostWakeUp(s: State, ch: Channel)
    requires Reachable(s)
    requires s.loop == Polling(true) && s.Get(ch).flag
    requires forall t :: 0 <= t < |s.senders| ==> !MidWrite(s.senders[t])
    ensures s.pipe > 0
  {
    var eventfd, senders, signals, asyncs, actions :|
      s == Run(Init(eventfd, senders, signals, asyncs), actions);
    RunKeepsWakeInv(Init(eventfd, senders, signals, asyncs), actions);
  }

  // ---------- Conservation of sends ----------

  // How many stores the feeds of one item have answered.
  function Answered(feeds: seq<Feed>, ch: Channel, i: nat): nat {
    if feeds == [] then 0
    else
      var f := feeds[|feeds| - 1];
      Answered(feeds[..|feeds| - 1], ch, i) + if f.ch == ch && f.i == i then f.batch else 0
  }

  function InHand(pc: LoopPc, ch: Channel, i: nat): nat {
    if pc.ScanFeed? && pc.ch == ch && pc.i == i then pc.batch else 0
  }

  /** Every store to item i so far was answered by a feed, is about to be answered by the feed
      in progress, or is still visible as a mark. */
  ghost predicate ItemConserved(s: State, ch: Channel, i: nat)
    requires i < |s.Get(ch).items|
  {
    var item := s.Get(ch).items[i];
    && item.stores == Answered(s.feeds, ch, i) + InHand(s.loop, ch, i) + item.since
    && item.mark == (item.since > 0)
  }

  predicate AboutToRaise(pc: SenderPc, ch: Channel) {
    (pc.TestFlag? || pc.RaiseFlag?) && pc.ch == ch
  }

  // The scan of this channel is in progress and will still look at item i.
  predicate ToVisit(pc: LoopPc, ch: Channel, i: nat) {
    match pc
    case Scan(c, j) => c == ch && i < j
    case ScanClear(c, j) => c == ch && i <= j
    case ScanFeed(c, j, _) => c == ch && i < j
    case _ => false
  }

  ghost predicate SomeAboutToRaise(senders: seq<SenderPc>, ch: Channel) {
    exists t :: 0 <= t < |senders| && AboutToRaise(senders[t], ch)
  }

  /** A marked item will be fed: its channel's flag is raised, a sender is between its store
      and the flag, or the scan in progress has not passed it. */
  ghost predicate Covered(s: State, ch: Channel, i: nat) {
    s.Get(ch).flag || SomeAboutToRaise(s.senders, ch) || ToVisit(s.loop, ch, i)
  }

  ghost predicate LineOk(s: State, ch: Channel) {
    forall i :: 0 <= i < |s.Get(ch).items| ==>
      ItemConserved(s, ch, i) && (s.Get(ch).items[i].mark ==> Covered(s, ch, i))
  }

  predicate ScanOk(s: State) {
    match s.loop
    case Scan(ch, i) => i <= |s.Get(ch).items|
    case ScanClear(ch, i) => i < |s.Get(ch).items| && s.Get(ch).items[i].mark
    case ScanFeed(ch, i, batch) => i < |s.Get(ch).items| && batch > 0
    case _ => true
  }

  ghost predicate SendInv(s: State) {
    && LineOk(s, Sig) && LineOk(s, Async)
    && ScanOk(s)
    && forall k :: 0 <= k < |s.feeds| ==> s.feeds[k].batch > 0
  }

  lemma AnsweredAppend(feeds: seq<Feed>, f: Feed, ch: Channel, i: nat)
    ensures Answered(feeds + [f], ch, i) == Answered(feeds, ch, i) + if f.ch == ch && f.i == i then f.batch else 0
  {
    assert (feeds + [f])[..|feeds|] == feeds;
  }

  lemma RaiserKept(senders: seq<SenderPc>, t: nat, pc: SenderPc, ch: Channel)
    requires t < |senders|
    ensures AboutToRaise(pc, ch) ==> SomeAboutToRaise(senders[t := pc], ch)
    ensures !AboutToRaise(senders[t], ch) && SomeAboutToRaise(senders, ch) ==> SomeAboutToRaise(senders[t := pc], ch)
  {
    assert senders[t := pc][t] == pc;
    if !AboutToRaise(senders[t], ch) && SomeAboutToRaise(senders, ch) {
      var u :| 0 <= u < |senders| && AboutToRaise(senders[u], ch);
      assert senders[t := pc][u] == senders[u];
    }
  }

  // A step that leaves the items of a channel, the feeds and the loop alone keeps its line in
  // order when no sender loses its obligation without the flag being up.
  lemma LineKept(s: State, s': State, ch: Channel)
    requires LineOk(s, ch) && s'.Get(ch).items == s.Get(ch).items
    requires s'.feeds == s.feeds
    requires forall i :: 0 <= i < |s.Get(ch).items| ==> InHand(s'.loop, ch, i) == InHand(s.loop, ch, i)
    requires forall i :: 0 <= i < |s.Get(ch).items| && s.Get(ch).items[i].mark && Covered(s, ch, i) ==> Covered(s', ch, i)
    ensures LineOk(s', ch)
  {
    forall i | 0 <= i < |s'.Get(ch).items| ensures ItemConserved(s', ch, i) {
      assert ItemConserved(s, ch, i);
    }
  }

  lemma SenderKeepsSendInv(s: State, t: nat, full: bool)
    requires SendInv(s) && t < |s.senders|
    ensures SendInv(SenderStep(s, t, full))
  {
    var s' := SenderStep(s, t, full);
    if MidWrite(s.senders[t]) {
      WakingKeepsItems(s, t, full);
    } else {
      AnnouncingKeepsItems(s, t, full);
    }
    RaiserKept(s.senders, t, SenderNext(s, s.senders[t]), Sig);
    RaiserKept(s.senders, t, SenderNext(s, s.senders[t]), Async);
    LineKept(s, s', Sig);
    LineKept(s, s', Async);
  }

  ghost predicate ItemsAfterSender(s: State, s': State, t: nat)
    requires t < |s.senders|
  {
    && s'.sig.items == s.sig.items && s'.async.items == s.async.items
    && s'.feeds == s.feeds && s'.loop == s.loop
    && s'.senders == s.senders[t := SenderNext(s, s.senders[t])]
    && s'.sig.flag == (s.sig.flag || s.senders[t] == RaiseFlag(Sig))
    && s'.async.flag == (s.async.flag || s.senders[t] == RaiseFlag(Async))
  }

  lemma WakingKeepsItems(s: State, t: nat, full: bool)
    requires t < |s.senders| && MidWrite(s.senders[t])
    ensures ItemsAfterSender(s, SenderStep(s, t, full), t)
  {
    hide SenderNext;
  }

  lemma AnnouncingKeepsItems(s: State, t: nat, full: bool)
    requires t < |s.senders| && !MidWrite(s.senders[t])
    ensures ItemsAfterSender(s, SenderStep(s, t, full), t)
  {
    hide SenderNext;
  }

  lemma StoreKeepsSendInv(s: State, t: nat, ch: Channel, i: nat)
    requires SendInv(s) && t < |s.senders| && s.senders[t] == Idle && i < |s.Get(ch).items|
    ensures SendInv(StoreMark(s, t, ch, i))
  {
    var s' := StoreMark(s, t, ch, i);
    RaiserKept(s.senders, t, TestFlag(ch), Sig);
    RaiserKept(s.senders, t, TestFlag(ch), Async);
    StoreFacts(s, t, ch, i);
    SendInvAfterStore(s, s', ch, i);
  }

  lemma StoreFacts(s: State, t: nat, ch: Channel, i: nat)
    requires t < |s.senders| && i < |s.Get(ch).items|
    ensures var s' := StoreMark(s, t, ch, i);
            && s'.Get(ch).items == (var item := s.Get(ch).items[i];
                                    s.Get(ch).items[i := Item(true, item.stores + 1, item.since + 1)])
            && s'.Get(ch).flag == s.Get(ch).flag && s'.Get(Other(ch)) == s.Get(Other(ch))
            && s'.senders == s.senders[t := TestFlag(ch)]
            && s'.loop == s.loop && s'.feeds == s.feeds
  {}

  function Other(ch: Channel): Channel {
    if ch == Sig then Async else Sig
  }

  lemma SendInvAfterStore(s: State, s': State, ch: Channel, i: nat)
    requires SendInv(s) && i < |s.Get(ch).items|
    requires s'.Get(ch).items ==
             var item := s.Get(ch).items[i]; s.Get(ch).items[i := Item(true, item.stores + 1, item.since + 1)]
    requires s'.Get(Other(ch)) == s.Get(Other(ch)) && s'.feeds == s.feeds && s'.loop == s.loop
    requires SomeAboutToRaise(s'.senders, ch)
    requires SomeAboutToRaise(s.senders, Other(ch)) ==> SomeAboutToRaise(s'.senders, Other(ch))
    ensures SendInv(s')
  {
    LineKept(s, s', Other(ch));
    ItemStored(s, s', ch, i);
  }

  lemma ItemStored(s: State, s': State, ch: Channel, i: nat)
    requires LineOk(s, ch) && i < |s.Get(ch).items|
    requires s'.Get(ch).items ==
             var item := s.Get(ch).items[i]; s.Get(ch).items[i := Item(true, item.stores + 1, item.since + 1)]
    requires s'.feeds == s.feeds && s'.loop == s.loop
    requires SomeAboutToRaise(s'.senders, ch)
    ensures LineOk(s', ch)
  {
    forall k | 0 <= k < |s'.Get(ch).items| ensures ItemConserved(s', ch, k) && Covered(s', ch, k) {
      assert ItemConserved(s, ch, k);
    }
  }

  // ev_run, and pipecb up to the flag tests, do not touch marks, flags or feeds.
  lemma RunKeepsSendInv(s: State, choice: bool)
    requires SendInv(s) && !InScan(s.loop) && !s.loop.FlagClear?
    ensures SendInv(LoopStep(s, choice))
  {
    if InRun(s.loop) {
      RunLeavesLines(s, choice);
    } else {
      PipecbLeavesLines(s, choice);
    }
    SendInvUntouched(s, LoopStep(s, choice));
  }

  ghost predicate LinesLeft(s: State, s': State) {
    && s'.sig == s.sig && s'.async == s.async && s'.feeds == s.feeds && s'.senders == s.senders
    && !InScan(s'.loop)
  }

  lemma RunLeavesLines(s: State, choice: bool)
    requires InRun(s.loop)
    ensures LinesLeft(s, LoopStep(s, choice))
  {}

  lemma PipecbLeavesLines(s: State, choice: bool)
    requires s.loop.PipeRead? || s.loop.PipeClear? || s.loop.FlagTest?
    ensures LinesLeft(s, LoopStep(s, choice))
  {}

  lemma SendInvUntouched(s: State, s': State)
    requires SendInv(s) && !InScan(s.loop) && !InScan(s'.loop)
    requires s'.sig == s.sig && s'.async == s.async && s'.feeds == s.feeds && s'.senders == s.senders
    ensures SendInv(s')
  {
    LineKept(s, s', Sig);
    LineKept(s, s', Async);
  }

  lemma FlagClearKeepsSendInv(s: State, choice: bool)
    requires SendInv(s) && s.loop.FlagClear?
    ensures SendInv(LoopStep(s, choice))
  {
    FlagClearKeepsLine(s, choice, Sig);
    FlagClearKeepsLine(s, choice, Async);
  }

  lemma FlagClearKeepsLine(s: State, choice: bool, ch: Channel)
    requires LineOk(s, ch) && s.loop.FlagClear?
    ensures LineOk(LoopStep(s, choice), ch)
  {
    var s' := LoopStep(s, choice);
    assert s' == s.Put(s.loop.ch, s.Get(s.loop.ch).(flag := false)).(loop := Scan(s.loop.ch, |s.Get(s.loop.ch).items|));
    hide LoopStep, ItemConserved;
    LineKept(s, s', ch);
  }

  lemma ScanKeepsSendInv(s: State, choice: bool)
    requires SendInv(s) && s.loop.Scan?
    ensures SendInv(LoopStep(s, choice))
  {
    LineKept(s, LoopStep(s, choice), Sig);
    LineKept(s, LoopStep(s, choice), Async);
  }

  lemma ScanClearKeepsSendInv(s: State, choice: bool)
    requires SendInv(s) && s.loop.ScanClear?
    ensures SendInv(LoopStep(s, choice))
  {
    var s' := LoopStep(s, choice);
    var ScanClear(ch, i) := s.loop;
    assert ItemConserved(s, ch, i);
    LineKept(s, s', Other(ch));
    ItemCleared(s, s', ch, i);
  }

  lemma ItemCleared(s: State, s': State, ch: Channel, i: nat)
    requires LineOk(s, ch) && i < |s.Get(ch).items| && s.loop == ScanClear(ch, i)
    requires var item := s.Get(ch).items[i];
             s'.Get(ch) == s.Get(ch).(items := s.Get(ch).items[i := item.(mark := false, since := 0)])
             && s'.loop == ScanFeed(ch, i, item.since)
    requires s'.feeds == s.feeds && s'.senders == s.senders
    ensures LineOk(s', ch)
  {
    forall k | 0 <= k < |s'.Get(ch).items|
      ensures ItemConserved(s', ch, k) && (s'.Get(ch).items[k].mark ==> Covered(s', ch, k))
    {
      assert ItemConserved(s, ch, k);
    }
  }

  lemma ScanFeedKeepsSendInv(s: State, choice: bool)
    requires SendInv(s) && s.loop.ScanFeed?
    ensures SendInv(LoopStep(s, choice))
  {
    var s' := LoopStep(s, choice);
    var f := Feed(s.loop.ch, s.loop.i, s.loop.batch);
    ItemFed(s, s', Sig, f);
    ItemFed(s, s', Async, f);
  }

  lemma ItemFed(s: State, s': State, ch: Channel, f: Feed)
    requires LineOk(s, ch) && s.loop == ScanFeed(f.ch, f.i, f.batch)
    requires s'.Get(ch) == s.Get(ch) && s'.senders == s.senders
    requires s'.feeds == s.feeds + [f] && s'.loop == Scan(f.ch, f.i)
    ensures LineOk(s', ch)
  {
    forall k | 0 <= k < |s'.Get(ch).items|
      ensures ItemConserved(s', ch, k) && (s'.Get(ch).items[k].mark ==> Covered(s', ch, k))
    {
      assert ItemConserved(s, ch, k);
      AnsweredAppend(s.feeds, f, ch, k);
    }
  }

  lemma StepKeepsSendInv(s: State, a: Action)
    requires SendInv(s)
    ensures SendInv(Step(s, a))
  {
    match a
    case Send(t, ch, i) =>
      if t < |s.senders| && s.senders[t] == Idle && i < |s.Get(ch).items| {
        StoreKeepsSendInv(s, t, ch, i);
      }
    case Sender(t, full) =>
      if t < |s.senders| {
        SenderKeepsSendInv(s, t, full);
      }
    case Loop(choice) =>
      match s.loop {
        case FlagClear(_) => FlagClearKeepsSendInv(s, choice);
        case Scan(_, _) => ScanKeepsSendInv(s, choice);
        case ScanClear(_, _) => ScanClearKeepsSendInv(s, choice);
        case ScanFeed(_, _, _) => ScanFeedKeepsSendInv(s, choice);
        case _ => RunKeepsSendInv(s, choice);
      }
  }

  lemma {:induction false} RunKeepsSendInv'(s: State, actions: seq<Action>)
    requires SendInv(s)
    ensures SendInv(Run(s, actions))
  {
    if actions != [] {
      RunKeepsSendInv'(s, actions[..|actions| - 1]);
      StepKeepsSendInv(Run(s, actions[..|actions| - 1]), actions[|actions| - 1]);
    }
  }

  lemma ReachableInv(s: State)
    requires Reachable(s)
    ensures WakeInv(s) && SendInv(s)
  {
    var eventfd, senders, signals, asyncs, actions :|
      s == Run(Init(eventfd, senders, signals, asyncs), actions);
    RunKeepsWakeInv(Init(eventfd, senders, signals, asyncs), actions);
    RunKeepsSendInv'(Init(eventfd, senders, signals, asyncs), actions);
  }

  /** In every reachable state each store to an item is accounted for exactly once: by a feed
      already made (and every feed answers at least one store), by the feed in progress, or by
      the item's mark; and a marked item is covered, so it will be fed. */
  lemma SendsAreConserved(s: State, ch: Channel, i: nat)
    requires Reachable(s) && i < |s.Get(ch).items|
    ensures ItemConserved(s, ch, i)
    ensures s.Get(ch).items[i].mark ==> Covered(s, ch, i)
    ensures forall k :: 0 <= k < |s.feeds| ==> s.feeds[k].batch > 0
  {
    ReachableInv(s);
  }

  // ---------- Every send is about the item that it names ----------

  // A sender's call that the schedule makes: the sender is not inside another one.
  predicate Accepted(s: State, a: Action, ch: Channel, i: nat) {
    a.Send? && a.ch == ch && a.i == i && a.t < |s.senders| && s.senders[a.t] == Idle && i < |s.Get(ch).items|
  }

  /** How many calls of ev_async_send, or of ev_feed_signal, name item i. */
  function Sends(s: State, actions: seq<Action>, ch: Channel, i: nat): nat {
    if actions == [] then 0
    else
      var (front, a) := (actions[..|actions| - 1], actions[|actions| - 1]);
      Sends(s, front, ch, i) + if Accepted(Run(s, front), a, ch, i) then 1 else 0
  }

  lemma StepCounts(s: State, a: Action, ch: Channel, i: nat)
    requires i < |s.Get(ch).items|
    ensures var s' := Step(s, a);
            && |s'.Get(ch).items| == |s.Get(ch).items|
            && s'.Get(ch).items[i].stores == s.Get(ch).items[i].stores + if Accepted(s, a, ch, i) then 1 else 0
  {
    hide LoopStep, SenderStep, StoreMark;
    match a
    case Send(t, c, k) =>
      if t < |s.senders| && s.senders[t] == Idle && k < |s.Get(c).items| {
        StoreFacts(s, t, c, k);
        assert ch == c || ch == Other(c);
      }
    case Sender(t, full) =>
      if t < |s.senders| {
        if MidWrite(s.senders[t]) {
          WakingKeepsItems(s, t, full);
        } else {
          AnnouncingKeepsItems(s, t, full);
        }
      }
    case Loop(choice) => LoopKeepsStores(s, choice, ch, i);
  }

  lemma LoopKeepsStores(s: State, choice: bool, ch: Channel, i: nat)
    requires i < |s.Get(ch).items|
    ensures var s' := LoopStep(s, choice);
            |s'.Get(ch).items| == |s.Get(ch).items| && s'.Get(ch).items[i].stores == s.Get(ch).items[i].stores
  {
    hide LoopStep;
    if InRun(s.loop) {
      RunLeavesLines(s, choice);
    } else if s.loop.ScanClear? {
      ClearKeepsStores(s, choice, ch, i);
    } else {
      ItemsLeft(s, choice, ch);
    }
  }

  lemma ClearKeepsStores(s: State, choice: bool, ch: Channel, i: nat)
    requires i < |s.Get(ch).items| && s.loop.ScanClear?
    ensures var s' := LoopStep(s, choice);
            |s'.Get(ch).items| == |s.Get(ch).items| && s'.Get(ch).items[i].stores == s.Get(ch).items[i].stores
  {
    hide LoopNext;
  }

  lemma {:induction false} StoresAreSends(s: State, actions: seq<Action>, ch: Channel, i: nat)
    requires i < |s.Get(ch).items|
    ensures var s' := Run(s, actions);
            && |s'.Get(ch).items| == |s.Get(ch).items|
            && s'.Get(ch).items[i].stores == s.Get(ch).items[i].stores + Sends(s, actions, ch, i)
    decreases |actions|
  {
    hide Step;
    if actions != [] {
      var n := |actions| - 1;
      StoresAreSends(s, actions[..n], ch, i);
      StepCounts(Run(s, actions[..n]), actions[n], ch, i);
    }
  }

  // A loop with as many signals and async watchers as there are, from its start on.
  ghost predicate Starts(s: State) {
    exists eventfd, senders, signals, asyncs :: s == Init(eventfd, senders, signals, asyncs)
  }

  lemma StartInv(s: State, actions: seq<Action>)
    requires Starts(s)
    ensures WakeInv(Run(s, actions)) && SendInv(Run(s, actions)) && Reachable(Run(s, actions))
    ensures s.feeds == [] && forall ch, i :: 0 <= i < |s.Get(ch).items| ==> s.Get(ch).items[i] == Item(false, 0, 0)
  {
    RunKeepsWakeInv(s, actions);
    RunKeepsSendInv'(s, actions);
  }

  /** Conservation, in terms of the calls made: over any run, each call that names item i is
      answered by a feed of item i already made, by the one in progress, or by the mark of item i,
      and by one of them only. */
  lemma CallsAreConserved(s: State, actions: seq<Action>, ch: Channel, i: nat)
    requires Starts(s) && i < |s.Get(ch).items|
    ensures var s' := Run(s, actions);
            && i < |s'.Get(ch).items|
            && Sends(s, actions, ch, i) == Answered(s'.feeds, ch, i) + InHand(s'.loop, ch, i) + s'.Get(ch).items[i].since
            && (s'.Get(ch).items[i].mark <==> s'.Get(ch).items[i].since > 0)
  {
    StartInv(s, actions);
    StoresAreSends(s, actions, ch, i);
    assert ItemConserved(Run(s, actions), ch, i);
  }

  // ---------- Delivery ----------

  ghost predicate Quiet(s: State) {
    forall t :: 0 <= t < |s.senders| ==> s.senders[t] == Idle
  }

  // Waiting in the backend for something else to happen.
  predicate Asleep(s: State) {
    s.loop == Polling(true) && s.pipe == 0
  }

  ghost predicate Clean(items: seq<Item>, from: nat) {
    forall i :: from <= i < |items| ==> !items[i].mark
  }

  ghost predicate AllFed(s: State) {
    Clean(s.sig.items, 0) && Clean(s.async.items, 0) && !s.loop.ScanFeed?
  }

  /** The loop, taking at most `steps` steps by itself, blocking whenever the code may and being
      told of a readable pipe by every poll, feeds every marked item before it sleeps. */
  ghost predicate FeedsAll(s: State, steps: nat)
    decreases steps
  {
    AllFed(s) || (steps > 0 && !Asleep(s) && FeedsAll(LoopStep(s, true), steps - 1))
  }

  // Steps left in the current pass of the loop.
  function ScanRest(s: State, ch: Channel, i: nat): nat {
    3 * i + 1 + if ch == Sig then 3 + 3 * |s.async.items| else 0
  }

  function LoopRest(s: State): nat {
    var (m, n) := (|s.sig.items|, |s.async.items|);
    match s.loop
    case Before => 0
    case TestSkipped => 15 + 3 * m + 3 * n
    case Polling(_) => 14 + 3 * m + 3 * n
    case Returned => 13 + 3 * m + 3 * n
    case TestAfter => 12 + 3 * m + 3 * n
    case Invoke => 11 + 3 * m + 3 * n
    case PipeRead => 10 + 3 * m + 3 * n
    case PipeClear => 9 + 3 * m + 3 * n
    case FlagTest(ch) => ScanRest(s, ch, |s.Get(ch).items|) + 2
    case FlagClear(ch) => ScanRest(s, ch, |s.Get(ch).items|) + 1
    case Scan(ch, i) => ScanRest(s, ch, i)
    case ScanClear(ch, i) => ScanRest(s, ch, i) + 2
    case ScanFeed(ch, i, _) => ScanRest(s, ch, i) + 1
  }

  /** On this pass the loop will reach pipecb or is in it, and what it has scanned is clean. */
  ghost predicate OnPass(s: State) {
    match s.loop
    case Before => false
    case TestSkipped => s.skipped || s.pipe > 0
    case Polling(blocking) => s.pipe > 0 || (s.skipped && !blocking)
    case Returned => s.fedRead || s.skipped
    case TestAfter => s.fedRead || s.skipped
    case Invoke => s.fedRead || s.fedCustom
    case PipeRead => true
    case PipeClear => true
    case FlagTest(ch) => ch == Async ==> Clean(s.sig.items, 0)
    case FlagClear(ch) => ch == Async ==> Clean(s.sig.items, 0)
    case Scan(ch, i) => Clean(s.Get(ch).items, i) && (ch == Async ==> Clean(s.sig.items, 0))
    case ScanClear(ch, i) => Clean(s.Get(ch).items, i + 1) && (ch == Async ==> Clean(s.sig.items, 0))
    case ScanFeed(ch, i, _) => Clean(s.Get(ch).items, i) && (ch == Async ==> Clean(s.sig.items, 0))
  }

  ghost predicate Good(s: State) {
    WakeInv(s) && SendInv(s) && Quiet(s)
  }

  lemma GoodKept(s: State)
    requires Good(s)
    ensures Good(LoopStep(s, true))
  {
    StepKeepsWakeInv(s, Loop(true));
    StepKeepsSendInv(s, Loop(true));
    LoopLeavesSenders(s, true);
  }

  lemma LoopLeavesSenders(s: State, choice: bool)
    ensures LoopStep(s, choice).senders == s.senders
  {
    hide LoopStep;
    if InRun(s.loop) {
      RunLeavesSenders(s, choice);
    } else if InScan(s.loop) {
      ScanLeavesSenders(s, choice);
    } else {
      PipecbLeavesSenders(s, choice);
    }
  }

  lemma RunLeavesSenders(s: State, choice: bool)
    requires InRun(s.loop)
    ensures LoopStep(s, choice).senders == s.senders
  {}

  lemma ScanLeavesSenders(s: State, choice: bool)
    requires InScan(s.loop)
    ensures LoopStep(s, choice).senders == s.senders
  {}

  lemma PipecbLeavesSenders(s: State, choice: bool)
    requires !InRun(s.loop) && !InScan(s.loop)
    ensures LoopStep(s, choice).senders == s.senders
  {}

  // With the senders quiet and no scan running, an unraised flag means no marks.
  lemma UnraisedIsClean(s: State, ch: Channel)
    requires SendInv(s) && Quiet(s) && !s.Get(ch).flag
    requires forall i :: !ToVisit(s.loop, ch, i)
    ensures Clean(s.Get(ch).items, 0)
  {
    forall i | 0 <= i < |s.Get(ch).items| ensures !s.Get(ch).items[i].mark {
      assert ItemConserved(s, ch, i);
    }
  }

  lemma PollPassStep(s: State)
    requires OnPass(s) && InRun(s.loop)
    ensures var s' := LoopStep(s, true);
            !Asleep(s) && OnPass(s') && LoopRest(s') < LoopRest(s) && !s'.loop.Before?
  {}

  lemma FlagPassStep(s: State)
    requires Good(s) && OnPass(s) && !InRun(s.loop) && !InScan(s.loop)
    ensures var s' := LoopStep(s, true);
            LoopRest(s') < LoopRest(s) && (if s'.loop.Before? then AllFed(s') else OnPass(s'))
  {
    if s.loop.FlagTest? {
      var ch := s.loop.ch;
      if !s.Get(ch).flag {
        UnraisedIsClean(s, ch);
      }
    }
  }

  lemma ScanPassStep(s: State)
    requires ScanOk(s) && OnPass(s) && InScan(s.loop)
    ensures var s' := LoopStep(s, true);
            if s'.loop.Before? then AllFed(s') else OnPass(s')
  {
    hide LoopStep, OnPass, AllFed;
    if s.loop.Scan? {
      ScanPass(s);
    } else if s.loop.ScanClear? {
      ScanClearPass(s);
    } else {
      ScanFeedPass(s);
    }
  }

  lemma ScanPass(s: State)
    requires ScanOk(s) && OnPass(s) && s.loop.Scan?
    ensures var s' := LoopStep(s, true);
            if s'.loop.Before? then AllFed(s') else OnPass(s')
  {}

  lemma ScanClearPass(s: State)
    requires ScanOk(s) && OnPass(s) && s.loop.ScanClear?
    ensures var s' := LoopStep(s, true);
            !s'.loop.Before? && OnPass(s')
  {}

  lemma ScanFeedPass(s: State)
    requires ScanOk(s) && OnPass(s) && s.loop.ScanFeed?
    ensures var s' := LoopStep(s, true);
            !s'.loop.Before? && OnPass(s')
  {}

  lemma RestDrops(s: State, choice: bool)
    requires ScanOk(s) && InScan(s.loop)
    ensures LoopRest(LoopStep(s, choice)) < LoopRest(s)
  {}

  lemma RestDropsInRun(s: State, choice: bool)
    requires InRun(s.loop) && !s.loop.Before?
    ensures LoopRest(LoopStep(s, choice)) < LoopRest(s)
  {
    RunLeavesLines(s, choice);
  }

  lemma RestDropsAtPipe(s: State, choice: bool)
    requires s.loop.PipeRead? || s.loop.PipeClear?
    ensures LoopRest(LoopStep(s, choice)) < LoopRest(s)
  {}

  lemma RestDropsAtFlag(s: State, choice: bool)
    requires s.loop.FlagTest? || s.loop.FlagClear?
    ensures LoopRest(LoopStep(s, choice)) < LoopRest(s)
  {}

  lemma RestDropsInPipecb(s: State, choice: bool)
    requires !InScan(s.loop) && !InRun(s.loop)
    ensures LoopRest(LoopStep(s, choice)) < LoopRest(s)
  {
    hide LoopRest, LoopStep;
    if s.loop.PipeRead? || s.loop.PipeClear? {
      RestDropsAtPipe(s, choice);
    } else {
      RestDropsAtFlag(s, choice);
    }
  }

  lemma {:induction false} PassFeedsAll(s: State, steps: nat)
    requires Good(s) && OnPass(s) && LoopRest(s) <= steps
    ensures FeedsAll(s, steps)
    decreases steps
  {
    var s' := LoopStep(s, true);
    GoodKept(s);
    if InRun(s.loop) {
      PollPassStep(s);
    } else if InScan(s.loop) {
      ScanPassStep(s);
      RestDrops(s, true);
    } else {
      FlagPassStep(s);
    }
    if !s'.loop.Before? {
      PassFeedsAll(s', steps - 1);
    }
  }

  // A mark that no scan will visit has made itself known to the loop.
  lemma MarkIsNoticed(s: State)
    requires Good(s) && !AllFed(s) && InRun(s.loop)
    ensures s.skipped || s.pipe > 0
    ensures s.loop == Polling(true) ==> s.pipe > 0
  {
    if !s.sig.flag {
      UnraisedIsClean(s, Sig);
    }
    if !s.async.flag {
      UnraisedIsClean(s, Async);
    }
  }

  lemma SizesKept(s: State, choice: bool)
    ensures |LoopStep(s, choice).sig.items| == |s.sig.items|
    ensures |LoopStep(s, choice).async.items| == |s.async.items|
  {
    hide LoopStep;
    if InRun(s.loop) {
      RunLeavesLines(s, choice);
    } else if s.loop.FlagTest? || s.loop.PipeRead? || s.loop.PipeClear? {
      PipecbLeavesLines(s, choice);
    } else {
      ScanKeepsSizes(s, choice);
    }
  }

  lemma ScanKeepsSizes(s: State, choice: bool)
    requires InScan(s.loop) || s.loop.FlagClear?
    ensures |LoopStep(s, choice).sig.items| == |s.sig.items|
    ensures |LoopStep(s, choice).async.items| == |s.async.items|
  {
    hide LoopNext;
    if s.loop.ScanClear? {
      ScanClearKeepsSizes(s, choice);
    }
  }

  lemma ScanClearKeepsSizes(s: State, choice: bool)
    requires s.loop.ScanClear?
    ensures |LoopStep(s, choice).sig.items| == |s.sig.items|
    ensures |LoopStep(s, choice).async.items| == |s.async.items|
  {
    hide LoopNext;
  }

  function PassLength(s: State): nat {
    16 + 3 * |s.sig.items| + 3 * |s.async.items|
  }

  lemma {:induction false} GoodFeedsAll(s: State, steps: nat)
    requires Good(s) && LoopRest(s) + PassLength(s) <= steps
    ensures FeedsAll(s, steps)
    decreases steps
  {
    if OnPass(s) {
      PassFeedsAll(s, steps);
    } else if !AllFed(s) {
      GoodKept(s);
      SizesKept(s, true);
      var s' := LoopStep(s, true);
      if InRun(s.loop) {
        MarkIsNoticed(s);
      }
      if s.loop.Before? {
        if !AllFed(s') {
          MarkIsNoticed(s');
          PassFeedsAll(s', steps - 1);
        }
      } else {
        if InScan(s.loop) {
          RestDrops(s, true);
        } else if InRun(s.loop) {
          RestDropsInRun(s, true);
        } else {
          RestDropsInPipecb(s, true);
        }
        GoodFeedsAll(s', steps - 1);
      }
    }
  }

  lemma RestBound(s: State)
    requires ScanOk(s)
    ensures LoopRest(s) < PassLength(s)
  {}

  /** Delivery: from every reachable state in which no sender is inside a call, the loop feeds
      every marked item within two passes and without sleeping first. */
  lemma EverySendIsDelivered(s: State)
    requires Reachable(s) && Quiet(s)
    ensures FeedsAll(s, 2 * PassLength(s))
  {
    ReachableInv(s);
    RestBound(s);
    GoodFeedsAll(s, 2 * PassLength(s));
  }

  // ---------- The loop does not spin ----------

  // What can still keep the loop from blocking.
  function Noise(s: State): nat {
    s.pipe + if s.skipped then 1 else 0
  }

  // On this pass some of it will be taken away.
  predicate Quietens(s: State) {
    match s.loop
    case Before => Noise(s) > 0
    case TestSkipped => Noise(s) > 0
    case Polling(_) => Noise(s) > 0
    case Returned => (s.fedRead && s.pipe > 0) || s.skipped
    case TestAfter => (s.fedRead && s.pipe > 0) || s.skipped
    case Invoke => (s.fedRead && s.pipe > 0) || ((s.fedRead || s.fedCustom) && s.skipped)
    case PipeRead => Noise(s) > 0
    case PipeClear => s.skipped
    case _ => false
  }

  // Steps left on this pass, where a pass starts at Before.
  function PassRest(s: State): nat {
    if s.loop.Before? then PassLength(s) else LoopRest(s)
  }

  // Whether a pass will be over before any of the noise is taken away, or the loop sleeps.
  predicate Wasted(s: State) {
    !Quietens(s) && !(Noise(s) == 0 && (s.loop.Before? || s.loop.TestSkipped?))
  }

  function SleepRank(s: State): nat {
    PassRest(s) + 2 * PassLength(s) * Noise(s) + if Wasted(s) then PassLength(s) else 0
  }

  // What one step of the loop does to them.
  ghost predicate Calmer(s: State, s': State) {
    && PassLength(s') == PassLength(s)
    && (Noise(s') < Noise(s) || (Noise(s') == Noise(s) && (Wasted(s') ==> Wasted(s))))
    && (s'.loop.Before? ==> !Wasted(s') && (Noise(s') == Noise(s) ==> Wasted(s)))
  }

  lemma RunCalms(s: State)
    requires InRun(s.loop) && !Asleep(LoopStep(s, true)) && !Asleep(s)
    ensures Calmer(s, LoopStep(s, true))
  {}

  lemma ScanCalms(s: State)
    requires InScan(s.loop)
    ensures Calmer(s, LoopStep(s, true))
  {
    SizesKept(s, true);
    ScanMoves(s, true);
    hide LoopStep, LoopNext, PassLength;
  }

  lemma FlagCalms(s: State)
    requires s.loop.FlagTest? || s.loop.FlagClear?
    ensures Calmer(s, LoopStep(s, true))
  {
    SizesKept(s, true);
    FlagMoves(s, true);
    hide LoopStep, LoopNext, PassLength;
  }

  lemma PipeCalms(s: State)
    requires s.loop.PipeRead? || s.loop.PipeClear?
    ensures Calmer(s, LoopStep(s, true))
  {}

  lemma {:induction false} Fewer(pass: nat, noise: nat, noise': nat)
    requires noise' < noise
    ensures 2 * pass * noise' + 2 * pass <= 2 * pass * noise
  {
    assert 2 * pass * noise == 2 * pass * (noise - 1) + 2 * pass;
    if noise' < noise - 1 {
      Fewer(pass, noise - 1, noise');
    }
  }

  lemma CalmerRank(s: State, s': State)
    requires Calmer(s, s')
    requires LoopRest(s) < PassLength(s) && LoopRest(s') < PassLength(s)
    requires s.loop.Before? ==> !s'.loop.Before?
    requires !s.loop.Before? ==> LoopRest(s') < LoopRest(s)
    ensures SleepRank(s') < SleepRank(s)
  {
    hide LoopRest, Noise, Wasted;
    if Noise(s') < Noise(s) {
      Fewer(PassLength(s), Noise(s), Noise(s'));
    }
  }

  /** The loop, taking at most `steps` steps by itself, blocking whenever the code may and being
      told of a readable pipe by every poll, comes to sleep. */
  ghost predicate ComesToSleep(s: State, steps: nat)
    decreases steps
  {
    Asleep(s) || (steps > 0 && ComesToSleep(LoopStep(s, true), steps - 1))
  }

  lemma StepCalms(s: State)
    requires Good(s) && !Asleep(s) && !Asleep(LoopStep(s, true))
    ensures SleepRank(LoopStep(s, true)) < SleepRank(s)
  {
    var s' := LoopStep(s, true);
    GoodKept(s);
    RestBound(s);
    RestBound(s');
    hide LoopStep, SleepRank, Good, Calmer, LoopRest;
    if InRun(s.loop) {
      RunCalms(s);
    } else if InScan(s.loop) {
      ScanCalms(s);
    } else if s.loop.FlagTest? || s.loop.FlagClear? {
      FlagCalms(s);
    } else {
      PipeCalms(s);
    }
    if s.loop.Before? {
      RunMoves(s, true);
    } else if InScan(s.loop) {
      RestDrops(s, true);
    } else if InRun(s.loop) {
      RestDropsInRun(s, true);
    } else {
      RestDropsInPipecb(s, true);
    }
    CalmerRank(s, s');
  }

  lemma {:induction false} GoodSleeps(s: State, steps: nat)
    requires Good(s) && SleepRank(s) <= steps
    ensures ComesToSleep(s, steps + 1)
    decreases steps
  {
    hide LoopStep, SleepRank, Good;
    if !Asleep(s) && !Asleep(LoopStep(s, true)) {
      GoodKept(s);
      StepCalms(s);
      GoodSleeps(LoopStep(s, true), steps - 1);
    }
  }

  function SleepBound(s: State): nat {
    2 * PassLength(s) * Noise(s) + 2 * PassLength(s)
  }

  lemma RankInBound(s: State)
    requires ScanOk(s)
    ensures SleepRank(s) <= SleepBound(s)
  {
    RestBound(s);
    hide LoopRest, Noise, Wasted;
  }

  /** The loop does not spin: from every reachable state in which no sender is inside a call, it
      comes to sleep within a number of passes that the bytes in the pipe bound. */
  lemma LoopComesToSleep(s: State)
    requires Reachable(s) && Quiet(s)
    ensures ComesToSleep(s, SleepBound(s) + 1)
  {
    ReachableInv(s);
    RankInBound(s);
    hide Reachable, SleepRank, SleepBound, ComesToSleep;
    GoodSleeps(s, SleepBound(s));
  }

  // ---------- Delivery while senders go on sending ----------

  /** A sender holds up channel ch: it has yet to raise the flag, which is down, or it has raised
      a flag, of either channel, and has yet to announce it or to wake the loop. */
  predicate Holds(s: State, ch: Channel, pc: SenderPc) {
    Committed(pc) || (AboutToRaise(pc, ch) && !s.Get(ch).flag)
  }

  ghost predicate Held(s: State, ch: Channel) {
    Some(s.senders, pc => Holds(s, ch, pc))
  }

  // Item i is marked, or its mark is cleared and the feed is the loop's next step.
  ghost predicate Waiting(s: State, ch: Channel, i: nat) {
    i < |s.Get(ch).items| && (Feeding(s, ch, i) || s.Get(ch).items[i].mark)
  }

  predicate Feeding(s: State, ch: Channel, i: nat) {
    s.loop.ScanFeed? && s.loop.ch == ch && s.loop.i == i
  }

  // With a readable pipe: this pass will get to pipecb.
  predicate Reported(s: State) {
    match s.loop
    case TestSkipped => true
    case Polling(_) => true
    case Returned => s.fedRead || s.fedCustom
    case TestAfter => s.fedRead || s.fedCustom
    case Invoke => s.fedRead || s.fedCustom
    case _ => false
  }

  // With pipe_write_skipped set, and staying set: this pass will get to pipecb.
  predicate Announced(s: State) {
    match s.loop
    case TestSkipped => true
    case Polling(_) => true
    case Returned => true
    case TestAfter => true
    case Invoke => s.fedRead || s.fedCustom
    case _ => false
  }

  /** An upper bound on the steps that the loop takes before it feeds item i, not counting those
      while the channel is held up. */
  ghost function Rank(s: State, ch: Channel, i: nat): nat {
    var pass := PassLength(s);
    if Feeding(s, ch, i) || ToVisit(s.loop, ch, i) then LoopRest(s)
    else if !s.Get(ch).flag then 5 * pass
    else if BeforeTest(s.loop, ch) then LoopRest(s)
    else if s.pipe > 0 then LoopRest(s) + if Reported(s) then 0 else pass
    else if Some(s.senders, Writing) then 2 * pass
    else if !s.skipped then 4 * pass
    else LoopRest(s) + if Announced(s) then 2 * pass else 3 * pass
  }

  predicate Writing(pc: SenderPc) {
    pc.WritePipe?
  }

  // What a sender's step may do to the things that Rank looks at.
  ghost predicate SenderMoved(s: State, s': State, t: nat)
    requires t < |s.senders|
  {
    && s'.fedRead == s.fedRead && s'.fedCustom == s.fedCustom
    && s.pipe <= s'.pipe && (Writing(s.senders[t]) ==> s'.pipe > 0)
    && (s.skipped && !s'.skipped ==> Writing(SenderNext(s, s.senders[t])))
  }

  lemma WakingMoves(s: State, t: nat, full: bool)
    requires t < |s.senders| && MidWrite(s.senders[t])
    ensures SenderMoved(s, SenderStep(s, t, full), t)
  {}

  lemma AnnouncingMoves(s: State, t: nat, full: bool)
    requires t < |s.senders| && !MidWrite(s.senders[t])
    ensures SenderMoved(s, SenderStep(s, t, full), t)
  {
    hide SenderNext;
  }

  lemma SenderKeepsRank(s: State, t: nat, full: bool, ch: Channel, i: nat)
    requires t < |s.senders| && Waiting(s, ch, i) && ScanOk(s)
    ensures var s' := SenderStep(s, t, full);
            && Waiting(s', ch, i) && Rank(s', ch, i) <= Rank(s, ch, i)
            && s'.feeds == s.feeds && s'.loop == s.loop && PassLength(s') == PassLength(s)
  {
    var s' := SenderStep(s, t, full);
    RestBound(s);
    OneSender(s.senders, t, SenderNext(s, s.senders[t]), Writing);
    hide SenderStep, SenderNext, ScanOk, LoopRest, Rank;
    if MidWrite(s.senders[t]) {
      WakingKeepsItems(s, t, full);
      WakingMoves(s, t, full);
    } else {
      AnnouncingKeepsItems(s, t, full);
      AnnouncingMoves(s, t, full);
    }
    SameRest(s, s');
    RankKept(s, s', ch, i);
  }

  lemma RankKept(s: State, s': State, ch: Channel, i: nat)
    requires s'.loop == s.loop && PassLength(s') == PassLength(s) && LoopRest(s') == LoopRest(s) < PassLength(s)
    requires s'.fedRead == s.fedRead && s'.fedCustom == s.fedCustom && s.pipe <= s'.pipe
    requires s.Get(ch).flag ==> s'.Get(ch).flag
    requires Some(s.senders, Writing) ==> Some(s'.senders, Writing) || s'.pipe > 0
    requires s.skipped && !s'.skipped ==> Some(s'.senders, Writing)
    ensures Rank(s', ch, i) <= Rank(s, ch, i)
  {
    hide LoopRest, Some, PassLength, BeforeTest, ToVisit;
  }

  lemma SameRest(s: State, s': State)
    requires s'.loop == s.loop && |s'.sig.items| == |s.sig.items| && |s'.async.items| == |s.async.items|
    ensures LoopRest(s') == LoopRest(s)
  {}

  // What the loop's step may do to them.
  ghost predicate LoopMoved(s: State, s': State) {
    && s'.pipe == s.pipe && s'.skipped == s.skipped && s'.senders == s.senders
    && (s.loop.Before? ==> s'.loop.TestSkipped?)
    && (s.pipe > 0 && Reported(s) ==> Reported(s') || s'.loop.PipeRead? || s'.loop.PipeClear?)
    && (s.skipped && Announced(s) ==> Announced(s') || s'.loop.PipeRead? || s'.loop.PipeClear?)
  }

  lemma RunMoves(s: State, choice: bool)
    requires InRun(s.loop) && (s.loop.Polling? ==> choice)
    ensures LoopMoved(s, LoopStep(s, choice))
  {}

  lemma ScanMoves(s: State, choice: bool)
    requires InScan(s.loop)
    ensures LoopMoved(s, LoopStep(s, choice))
  {}

  lemma FlagMoves(s: State, choice: bool)
    requires s.loop.FlagTest? || s.loop.FlagClear?
    ensures LoopMoved(s, LoopStep(s, choice))
  {}

  lemma RestFalls(s: State, choice: bool)
    requires ScanOk(s) && !s.loop.Before?
    ensures LoopRest(LoopStep(s, choice)) < LoopRest(s)
  {
    hide LoopRest, LoopStep, ScanOk;
    if InScan(s.loop) {
      RestDrops(s, choice);
    } else if InRun(s.loop) {
      RestDropsInRun(s, choice);
    } else {
      RestDropsInPipecb(s, choice);
    }
  }

  // What waits goes on waiting until it is fed.
  lemma LoopKeepsWaiting(s: State, choice: bool, ch: Channel, i: nat)
    requires Waiting(s, ch, i) && !Feeding(s, ch, i) && ScanOk(s)
    ensures Waiting(LoopStep(s, choice), ch, i)
  {
    hide LoopStep, LoopNext;
    if s.loop.ScanClear? {
      ClearKeepsWaiting(s, choice, ch, i);
    } else if InRun(s.loop) {
      RunLeavesLines(s, choice);
    } else {
      ItemsLeft(s, choice, ch);
    }
  }

  lemma ClearKeepsWaiting(s: State, choice: bool, ch: Channel, i: nat)
    requires Waiting(s, ch, i) && s.loop.ScanClear?
    ensures Waiting(LoopStep(s, choice), ch, i)
  {}

  lemma ItemsLeft(s: State, choice: bool, ch: Channel)
    requires !InRun(s.loop) && !s.loop.ScanClear?
    ensures LoopStep(s, choice).Get(ch).items == s.Get(ch).items
  {
    hide LoopNext;
  }

  /** The loop is in pipecb and will look at the item: it is feeding it, its scan has yet to come
      to it, or it will find the flag up. */
  predicate Near(s: State, ch: Channel, i: nat) {
    Feeding(s, ch, i) || ToVisit(s.loop, ch, i) || (s.Get(ch).flag && BeforeTest(s.loop, ch))
  }

  lemma NearStays(s: State, choice: bool, ch: Channel, i: nat)
    requires ScanOk(s) && Waiting(s, ch, i) && Near(s, ch, i) && !Feeding(s, ch, i)
    ensures Near(LoopStep(s, choice), ch, i)
  {
    if InScan(s.loop) {
      NearInScan(s, choice, ch, i);
    } else {
      NearInPipecb(s, choice, ch, i);
    }
  }

  lemma NearInScan(s: State, choice: bool, ch: Channel, i: nat)
    requires ScanOk(s) && Waiting(s, ch, i) && Near(s, ch, i) && !Feeding(s, ch, i) && InScan(s.loop)
    ensures Near(LoopStep(s, choice), ch, i)
  {}

  lemma NearInPipecb(s: State, choice: bool, ch: Channel, i: nat)
    requires Waiting(s, ch, i) && Near(s, ch, i) && !InScan(s.loop)
    ensures Near(LoopStep(s, choice), ch, i)
  {}

  lemma NearRank(s: State, ch: Channel, i: nat)
    requires Near(s, ch, i)
    ensures Rank(s, ch, i) == LoopRest(s)
  {}

  lemma RankAtMost(s: State, ch: Channel, i: nat)
    requires ScanOk(s)
    ensures Rank(s, ch, i) <= 5 * PassLength(s)
  {
    RestBound(s);
  }

  lemma FlagStays(s: State, choice: bool, ch: Channel)
    requires !BeforeTest(s.loop, ch)
    ensures LoopStep(s, choice).Get(ch).flag == s.Get(ch).flag
  {
    hide LoopStep, LoopNext;
    if InRun(s.loop) {
      RunLeavesLines(s, choice);
    } else {
      FlagStaysInPipecb(s, choice, ch);
    }
  }

  lemma FlagStaysInPipecb(s: State, choice: bool, ch: Channel)
    requires !BeforeTest(s.loop, ch) && !InRun(s.loop)
    ensures LoopStep(s, choice).Get(ch).flag == s.Get(ch).flag
  {
    hide LoopNext;
  }

  // The sender that marked the item has yet to raise the flag.
  lemma DownIsHeld(s: State, ch: Channel, i: nat)
    requires SendInv(s) && Waiting(s, ch, i) && !Near(s, ch, i) && !s.Get(ch).flag
    ensures Held(s, ch) && Rank(s, ch, i) == 5 * PassLength(s)
  {
    assert Covered(s, ch, i);
    var t :| 0 <= t < |s.senders| && AboutToRaise(s.senders[t], ch);
    assert Holds(s, ch, s.senders[t]);
  }

  // A flag that is up and unnoticed is about to be noticed.
  lemma UnnoticedIsHeld(s: State, ch: Channel)
    requires WakeInv(s) && s.Get(ch).flag && !BeforeTest(s.loop, ch)
    ensures s.pipe == 0 && (!s.skipped || Some(s.senders, Writing)) ==> Held(s, ch)
  {
    if Some(s.senders, Writing) {
      var t :| 0 <= t < |s.senders| && Writing(s.senders[t]);
      assert Holds(s, ch, s.senders[t]);
    } else if s.pipe == 0 && !s.skipped {
      var t :| 0 <= t < |s.senders| && Committed(s.senders[t]);
      assert Holds(s, ch, s.senders[t]);
    }
  }

  // While the loop does not look at the channel, it comes nearer to doing so.
  lemma FarRank(s: State, s': State, ch: Channel, i: nat)
    requires s.Get(ch).flag && s'.Get(ch).flag && !Near(s, ch, i) && LoopMoved(s, s')
    requires PassLength(s') == PassLength(s) && LoopRest(s) < PassLength(s) && LoopRest(s') < PassLength(s)
    requires !s.loop.Before? ==> LoopRest(s') < LoopRest(s)
    requires s.pipe == 0 && (!s.skipped || Some(s.senders, Writing)) ==> Held(s, ch)
    ensures Rank(s', ch, i) <= Rank(s, ch, i) && (!Held(s, ch) ==> Rank(s', ch, i) < Rank(s, ch, i))
  {
    hide LoopRest, PassLength, Some, Held, ToVisit, Feeding;
  }

  lemma FarLowersRank(s: State, choice: bool, ch: Channel, i: nat)
    requires WakeInv(s) && ScanOk(s) && ScanOk(LoopStep(s, choice)) && (s.loop.Polling? ==> choice)
    requires s.Get(ch).flag && !Near(s, ch, i)
    ensures var s' := LoopStep(s, choice);
            Rank(s', ch, i) <= Rank(s, ch, i) && (!Held(s, ch) ==> Rank(s', ch, i) < Rank(s, ch, i))
  {
    var s' := LoopStep(s, choice);
    FlagStays(s, choice, ch);
    SizesKept(s, choice);
    RestBound(s);
    RestBound(s');
    UnnoticedIsHeld(s, ch);
    if InRun(s.loop) {
      RunMoves(s, choice);
      RunLeavesLines(s, choice);
    } else if InScan(s.loop) {
      ScanMoves(s, choice);
    } else {
      FlagMoves(s, choice);
    }
    if !s.loop.Before? {
      RestFalls(s, choice);
    }
    FarRank(s, s', ch, i);
  }

  lemma FeedingFeeds(s: State, choice: bool)
    requires s.loop.ScanFeed?
    ensures LoopStep(s, choice).feeds == s.feeds + [Feed(s.loop.ch, s.loop.i, s.loop.batch)]
  {
    hide LoopNext;
  }

  lemma LoopLowersRank(s: State, choice: bool, ch: Channel, i: nat)
    requires WakeInv(s) && SendInv(s) && Waiting(s, ch, i) && (s.loop.Polling? ==> choice)
    ensures var s' := LoopStep(s, choice);
            if Feeding(s, ch, i) then s'.feeds == s.feeds + [Feed(ch, i, s.loop.batch)]
            else
              && Waiting(s', ch, i) && Rank(s', ch, i) <= Rank(s, ch, i)
              && (!Held(s, ch) ==> Rank(s', ch, i) < Rank(s, ch, i))
  {
    var s' := LoopStep(s, choice);
    StepKeepsSendInv(s, Loop(choice));
    if Feeding(s, ch, i) {
      FeedingFeeds(s, choice);
    } else {
      SizesKept(s, choice);
      LoopKeepsWaiting(s, choice, ch, i);
      hide LoopStep, Rank, LoopRest, WakeInv;
      if Near(s, ch, i) {
        NearStays(s, choice, ch, i);
        RestFalls(s, choice);
        NearRank(s, ch, i);
        NearRank(s', ch, i);
      } else if !s.Get(ch).flag {
        DownIsHeld(s, ch, i);
        RankAtMost(s', ch, i);
      } else {
        FarLowersRank(s, choice, ch, i);
      }
    }
  }

  // Every poll that the loop makes reports a readable pipe.
  ghost predicate PollsReport(s: State, actions: seq<Action>) {
    forall k :: 0 <= k < |actions| && actions[k] == Loop(false) ==> !Run(s, actions[..k]).loop.Polling?
  }

  /** The steps that the loop takes while channel ch is not held up. */
  ghost function LoopSteps(s: State, actions: seq<Action>, ch: Channel): nat {
    if actions == [] then 0
    else
      var front := actions[..|actions| - 1];
      LoopSteps(s, front, ch) + if actions[|actions| - 1].Loop? && !Held(Run(s, front), ch) then 1 else 0
  }

  lemma StoreKeepsRank(s: State, t: nat, c: Channel, k: nat, ch: Channel, i: nat)
    requires t < |s.senders| && s.senders[t] == Idle && k < |s.Get(c).items| && Waiting(s, ch, i) && ScanOk(s)
    ensures var s' := StoreMark(s, t, c, k);
            && Waiting(s', ch, i) && Rank(s', ch, i) <= Rank(s, ch, i)
            && s'.feeds == s.feeds && s'.loop == s.loop && PassLength(s') == PassLength(s)
  {
    var s' := StoreMark(s, t, c, k);
    RestBound(s);
    SameRest(s, s');
    OneSender(s.senders, t, TestFlag(c), Writing);
    RankKept(s, s', ch, i);
  }

  // Feeds are only added.
  lemma FeedsGrow(s: State, a: Action)
    ensures var s' := Step(s, a);
            s'.feeds == s.feeds || (s.loop.ScanFeed? && s'.feeds == s.feeds + [Feed(s.loop.ch, s.loop.i, s.loop.batch)])
  {
    hide LoopStep, SenderStep;
    match a
    case Send(t, ch, i) =>
    case Sender(t, full) =>
      if t < |s.senders| {
        if MidWrite(s.senders[t]) {
          WakingKeepsItems(s, t, full);
        } else {
          AnnouncingKeepsItems(s, t, full);
        }
      }
    case Loop(choice) => LoopFeeds(s, choice);
  }

  lemma LoopFeeds(s: State, choice: bool)
    ensures LoopStep(s, choice).feeds ==
            s.feeds + if s.loop.ScanFeed? then [Feed(s.loop.ch, s.loop.i, s.loop.batch)] else []
  {
    hide LoopStep, LoopNext;
    if InRun(s.loop) {
      RunLeavesLines(s, choice);
    } else if s.loop.ScanFeed? {
      FeedingFeeds(s, choice);
    } else {
      NothingFed(s, choice);
    }
  }

  lemma NothingFed(s: State, choice: bool)
    requires !InRun(s.loop) && !s.loop.ScanFeed?
    ensures LoopStep(s, choice).feeds == s.feeds
  {
    hide LoopNext;
  }

  /** How many steps are left until the item's first `calls` stores are answered: those of Rank, and
      one round more when the loop is feeding the item but not yet for all of them. */
  ghost function Left(s: State, ch: Channel, i: nat, calls: nat): nat {
    if Feeding(s, ch, i) && Answered(s.feeds, ch, i) + s.loop.batch < calls then 5 * PassLength(s) + 1
    else Rank(s, ch, i)
  }

  // The first `calls` stores to the item have been made, and have not all been answered.
  ghost predicate Owed(s: State, ch: Channel, i: nat, calls: nat) {
    i < |s.Get(ch).items| && Answered(s.feeds, ch, i) < calls <= s.Get(ch).items[i].stores
  }

  lemma OwedWaits(s: State, ch: Channel, i: nat, calls: nat)
    requires SendInv(s) && Owed(s, ch, i, calls)
    ensures Waiting(s, ch, i)
  {
    assert ItemConserved(s, ch, i);
  }

  // When the loop has cleared the item's mark, it is about to feed it for all stores so far.
  lemma ClearTakesAll(s: State, choice: bool, ch: Channel, i: nat)
    requires SendInv(s) && !Feeding(s, ch, i) && i < |s.Get(ch).items| && Feeding(LoopStep(s, choice), ch, i)
    ensures var s' := LoopStep(s, choice);
            s'.feeds == s.feeds && Answered(s.feeds, ch, i) + s'.loop.batch == s.Get(ch).items[i].stores
  {
    assert ItemConserved(s, ch, i);
  }

  lemma SenderSteps(s: State, a: Action, ch: Channel, i: nat)
    requires SendInv(s) && Waiting(s, ch, i) && !a.Loop?
    ensures var s' := Step(s, a);
            Rank(s', ch, i) <= Rank(s, ch, i) && s'.feeds == s.feeds && s'.loop == s.loop
            && PassLength(s') == PassLength(s)
  {
    hide Rank, SenderStep, StoreMark, PassLength;
    match a
    case Send(t, c, k) =>
      if t < |s.senders| && s.senders[t] == Idle && k < |s.Get(c).items| {
        StoreKeepsRank(s, t, c, k, ch, i);
      }
    case Sender(t, full) =>
      if t < |s.senders| {
        SenderKeepsRank(s, t, full, ch, i);
      }
  }

  // One round more, when the loop's next step feeds the item and it is still owed after that.
  lemma FeedingPays(s: State, choice: bool, ch: Channel, i: nat, calls: nat)
    requires SendInv(s) && Owed(s, ch, i, calls) && Feeding(s, ch, i)
    ensures var s' := LoopStep(s, choice);
            Owed(s', ch, i, calls) ==> Left(s', ch, i, calls) < Left(s, ch, i, calls)
  {
    var s' := LoopStep(s, choice);
    StepKeepsSendInv(s, Loop(choice));
    RankAtMost(s', ch, i);
    SizesKept(s, choice);
    FeedingFeeds(s, choice);
    FeedingEnds(s, choice);
    hide LoopStep, Rank, SendInv;
    AnsweredAppend(s.feeds, Feed(ch, i, s.loop.batch), ch, i);
  }

  lemma LoopPays(s: State, choice: bool, ch: Channel, i: nat, calls: nat)
    requires WakeInv(s) && SendInv(s) && Owed(s, ch, i, calls) && (s.loop.Polling? ==> choice)
    ensures var s' := LoopStep(s, choice);
            Owed(s', ch, i, calls) ==>
              Left(s', ch, i, calls) + (if Held(s, ch) then 0 else 1) <= Left(s, ch, i, calls)
  {
    hide LoopStep, Rank, PassLength, Held, WakeInv, SendInv, Answered;
    if Feeding(s, ch, i) {
      FeedingPays(s, choice, ch, i, calls);
    } else {
      OwedWaits(s, ch, i, calls);
      LoopLowersRank(s, choice, ch, i);
      if Feeding(LoopStep(s, choice), ch, i) {
        ClearTakesAll(s, choice, ch, i);
      }
    }
  }

  lemma FeedingEnds(s: State, choice: bool)
    requires s.loop.ScanFeed?
    ensures LoopStep(s, choice).loop.Scan?
  {}

  lemma StepPays(s: State, a: Action, ch: Channel, i: nat, calls: nat)
    requires WakeInv(s) && SendInv(s) && Owed(s, ch, i, calls) && (a == Loop(false) ==> !s.loop.Polling?)
    ensures var s' := Step(s, a);
            Owed(s', ch, i, calls) ==>
              Left(s', ch, i, calls) + (if a.Loop? && !Held(s, ch) then 1 else 0) <= Left(s, ch, i, calls)
  {
    OwedWaits(s, ch, i, calls);
    hide Rank, LoopStep, SenderStep, StoreMark, Held, WakeInv;
    if a.Loop? {
      LoopPays(s, a.choice, ch, i, calls);
    } else {
      SenderSteps(s, a, ch, i);
    }
  }

  lemma {:induction false} AnsweredOrNearer(s: State, actions: seq<Action>, ch: Channel, i: nat, calls: nat)
    requires WakeInv(s) && SendInv(s) && Owed(s, ch, i, calls) && PollsReport(s, actions)
    ensures var s' := Run(s, actions);
            || calls <= Answered(s'.feeds, ch, i)
            || (Owed(s', ch, i, calls) && Left(s', ch, i, calls) + LoopSteps(s, actions, ch) <= Left(s, ch, i, calls))
    decreases |actions|
  {
    hide Left, Step, Held, WakeInv, SendInv;
    if actions != [] {
      var (front, a) := (actions[..|actions| - 1], actions[|actions| - 1]);
      assert forall k :: 0 <= k < |front| ==> front[..k] == actions[..k];
      AnsweredOrNearer(s, front, ch, i, calls);
      RunKeepsWakeInv(s, front);
      RunKeepsSendInv'(s, front);
      var was := Run(s, front);
      FeedsGrow(was, a);
      if was.loop.ScanFeed? {
        AnsweredAppend(was.feeds, Feed(was.loop.ch, was.loop.i, was.loop.batch), ch, i);
      }
      if Owed(was, ch, i, calls) {
        StepCounts(was, a, ch, i);
        StepPays(was, a, ch, i, calls);
      }
    }
  }

  /** Delivery, however many senders go on sending meanwhile: a marked item is fed before the loop
      has taken five passes' worth of steps, not counting those that it takes while a sender that
      found a flag down has yet to raise it, announce it or wake the loop. */
  lemma SendIsDeliveredMeanwhile(s: State, actions: seq<Action>, ch: Channel, i: nat)
    requires Reachable(s) && i < |s.Get(ch).items| && s.Get(ch).items[i].mark
    requires PollsReport(s, actions) && LoopSteps(s, actions, ch) > 5 * PassLength(s)
    ensures Answered(s.feeds, ch, i) < Answered(Run(s, actions).feeds, ch, i)
  {
    ReachableInv(s);
    RankAtMost(s, ch, i);
    assert ItemConserved(s, ch, i);
    AnsweredOrNearer(s, actions, ch, i, Answered(s.feeds, ch, i) + 1);
  }

  /** Every call is answered: over any run, when a call that names item i has stored its mark, then
      within as many further steps of the loop all the calls that had named item i by then have been
      answered by feeds of item i, whatever calls are made meanwhile. */
  lemma EveryCallIsFed(s: State, before: seq<Action>, after: seq<Action>, ch: Channel, i: nat)
    requires Starts(s) && i < |s.Get(ch).items|
    requires var s' := Run(s, before);
             PollsReport(s', after) && LoopSteps(s', after, ch) > 5 * PassLength(s') + 1
    ensures Sends(s, before, ch, i) <= Answered(Run(Run(s, before), after).feeds, ch, i)
  {
    var s' := Run(s, before);
    StartInv(s, before);
    StoresAreSends(s, before, ch, i);
    hide Run, Rank, LoopSteps, WakeInv, Starts;
    RankAtMost(s', ch, i);
    if Owed(s', ch, i, Sends(s, before, ch, i)) {
      AnsweredOrNearer(s', after, ch, i, Sends(s, before, ch, i));
    } else {
      AnsweredGrows(s', after, ch, i);
    }
  }

  lemma {:induction false} AnsweredGrows(s: State, actions: seq<Action>, ch: Channel, i: nat)
    ensures Answered(s.feeds, ch, i) <= Answered(Run(s, actions).feeds, ch, i)
    decreases |actions|
  {
    hide Step;
    if actions != [] {
      var was := Run(s, actions[..|actions| - 1]);
      AnsweredGrows(s, actions[..|actions| - 1], ch, i);
      FeedsGrow(was, actions[|actions| - 1]);
      if was.loop.ScanFeed? {
        AnsweredAppend(was.feeds, Feed(was.loop.ch, was.loop.i, was.loop.batch), ch, i);
      }
    }
  }

  // ---------- What holds a delivery up ----------

  // The loop alone, with one choice for each of its steps.
  function LoopRun(s: State, choices: seq<bool>): State {
    if choices == [] then s else LoopStep(LoopRun(s, choices[..|choices| - 1]), choices[|choices| - 1])
  }

  // Nothing tells the loop of the flags.
  ghost predicate Deaf(s: State) {
    InRun(s.loop) && s.pipe == 0 && !s.skipped && !s.fedRead && !s.fedCustom && s.feeds == []
  }

  lemma {:induction false} DeafStays(s: State, choices: seq<bool>)
    requires Deaf(s)
    ensures Deaf(LoopRun(s, choices)) && LoopRun(s, choices).sig == s.sig
  {
    if choices != [] {
      DeafStays(s, choices[..|choices| - 1]);
      DeafStep(LoopRun(s, choices[..|choices| - 1]), choices[|choices| - 1]);
    }
  }

  lemma DeafStep(s: State, choice: bool)
    requires Deaf(s)
    ensures Deaf(LoopStep(s, choice)) && LoopStep(s, choice).sig == s.sig
  {}

  lemma ReachNext(s: State, a: Action)
    requires Reachable(s)
    ensures Reachable(Step(s, a))
  {
    var eventfd, senders, signals, asyncs, actions :|
      s == Run(Init(eventfd, senders, signals, asyncs), actions);
    assert (actions + [a])[..|actions|] == actions;
    assert Step(s, a) == Run(Init(eventfd, senders, signals, asyncs), actions + [a]);
  }

  lemma SenderGoes(s: State, t: nat)
    requires Reachable(s) && t < |s.senders|
    ensures Reachable(SenderStep(s, t, false))
  {
    hide Reachable, SenderStep;
    ReachNext(s, Sender(t, false));
  }

  // A call's steps up to the flag, which is down.
  lemma Marks(s: State, t: nat, ch: Channel, i: nat) returns (s': State)
    requires Reachable(s) && t < |s.senders| && s.senders[t] == Idle && i < |s.Get(ch).items| && !s.Get(ch).flag
    ensures var item := s.Get(ch).items[i];
            s' == s.PutItem(ch, i, Item(true, item.stores + 1, item.since + 1)).(senders := s.senders[t := RaiseFlag(ch)])
    ensures Reachable(s')
  {
    var stored := StoreMark(s, t, ch, i);
    assert Reachable(stored) by {
      ReachNext(s, Send(t, ch, i));
    }
    hide Reachable;
    SenderGoes(stored, t);
    s' := SenderStep(stored, t, false);
  }

  lemma Raises(s: State, t: nat, ch: Channel) returns (s': State)
    requires Reachable(s) && t < |s.senders| && s.senders[t] == RaiseFlag(ch)
    ensures s' == s.Put(ch, s.Get(ch).(flag := true)).(skipped := true, senders := s.senders[t := TestWanted])
    ensures Reachable(s')
  {
    hide Reachable;
    SenderGoes(s, t);
    var raised := s.Put(ch, s.Get(ch).(flag := true)).(senders := s.senders[t := SetSkipped]);
    assert raised == SenderStep(s, t, false);
    SenderGoes(raised, t);
    s' := SenderStep(raised, t, false);
  }

  // The rest of the call when the loop wants no wake-up.
  lemma Leaves(s: State, t: nat) returns (s': State)
    requires Reachable(s) && t < |s.senders| && s.senders[t] == TestWanted && !s.wanted
    ensures s' == s.(senders := s.senders[t := Idle]) && Reachable(s')
  {
    hide Reachable;
    SenderGoes(s, t);
    s' := SenderStep(s, t, false);
  }

  // The rest of the call up to the write, when the loop does want one.
  lemma StopsShort(s: State, t: nat) returns (s': State)
    requires Reachable(s) && t < |s.senders| && s.senders[t] == TestWanted && s.wanted
    ensures s' == s.(skipped := false, senders := s.senders[t := WritePipe]) && Reachable(s')
  {
    hide Reachable;
    SenderGoes(s, t);
    var undoing := s.(senders := s.senders[t := ClearSkipped]);
    assert undoing == SenderStep(s, t, false);
    SenderGoes(undoing, t);
    s' := SenderStep(undoing, t, false);
  }

  lemma LoopWants(s: State) returns (s': State)
    requires Reachable(s) && s.loop == Before
    ensures s' == s.(wanted := true, loop := TestSkipped) && Reachable(s')
  {
    ReachNext(s, Loop(true));
    s' := Step(s, Loop(true));
  }

  /** The bound cannot do without that exception: a signal whose sender has long returned is not
      fed, however many steps the loop takes, while a sender that called later is stopped between
      clearing pipe_write_skipped and writing to the pipe. */
  lemma LaterSenderHoldsUp(eventfd: bool) returns (s: State)
    ensures Reachable(s) && s.sig.flag && s.sig.items != [] && s.sig.items[0].mark && s.senders == [Idle, WritePipe]
    ensures forall choices: seq<bool> :: LoopRun(s, choices).feeds == [] && LoopRun(s, choices).sig == s.sig
  {
    hide Step, Reachable;
    s := Init(eventfd, 2, 1, 1);
    InitIsReachable(eventfd, 2, 1, 1);
    s := Marks(s, 0, Sig, 0);
    s := Raises(s, 0, Sig);
    s := Leaves(s, 0);
    s := LoopWants(s);
    s := Marks(s, 1, Async, 0);
    s := Raises(s, 1, Async);
    s := StopsShort(s, 1);
    forall choices: seq<bool> ensures LoopRun(s, choices).feeds == [] && LoopRun(s, choices).sig == s.sig {
      DeafStays(s, choices);
    }
  }

  lemma InitIsReachable(eventfd: bool, senders: nat, signals: nat, asyncs: nat)
    ensures Reachable(Init(eventfd, senders, signals, asyncs))
  {
    assert Init(eventfd, senders, signals, asyncs) == Run(Init(eventfd, senders, signals, asyncs), []);
  }

  // ---------- Senders never wait ----------

  // The most steps that are left of a call.
  function SenderRest(pc: SenderPc): nat {
    match pc
    case Idle => 0
    case TestFlag(_) => 6
    case RaiseFlag(_) => 5
    case SetSkipped => 4
    case TestWanted => 3
    case ClearSkipped => 2
    case WritePipe => 1
  }

  // How many steps sender t takes.
  function StepsOf(actions: seq<Action>, t: nat): nat {
    if actions == [] then 0
    else
      var a := actions[|actions| - 1];
      StepsOf(actions[..|actions| - 1], t) + if a.Sender? && a.t == t then 1 else 0
  }

  lemma CallStep(s: State, a: Action, t: nat)
    requires t < |s.senders| && s.senders[t] != Idle
    ensures var s' := Step(s, a);
            && |s'.senders| == |s.senders|
            && (a.Sender? && a.t == t ==> SenderRest(s'.senders[t]) < SenderRest(s.senders[t]))
            && (!(a.Sender? && a.t == t) ==> s'.senders[t] == s.senders[t])
  {
    hide LoopStep, SenderEffect;
    if a.Loop? {
      LoopLeavesSenders(s, a.choice);
    }
  }

  lemma {:induction false} CallShortens(s: State, t: nat, actions: seq<Action>)
    requires t < |s.senders| && forall k :: 0 <= k <= |actions| ==> InCallAt(s, t, actions, k)
    ensures var s' := Run(s, actions);
            && t < |s'.senders| && s'.senders[t] != Idle
            && SenderRest(s'.senders[t]) + StepsOf(actions, t) <= SenderRest(s.senders[t])
    decreases |actions|
  {
    hide Step;
    assert InCallAt(s, t, actions, |actions|) && actions[..|actions|] == actions;
    if actions != [] {
      var n := |actions| - 1;
      forall k | 0 <= k <= n ensures InCallAt(s, t, actions[..n], k) {
        assert InCallAt(s, t, actions, k) && actions[..n][..k] == actions[..k];
      }
      CallShortens(s, t, actions[..n]);
      assert InCallAt(s, t, actions, n);
      CallStep(Run(s, actions[..n]), actions[n], t);
    }
  }

  // Sender t is inside a call after the first k actions.
  predicate InCallAt(s: State, t: nat, actions: seq<Action>, k: nat)
    requires k <= |actions|
  {
    var s' := Run(s, actions[..k]);
    t < |s'.senders| ==> s'.senders[t] != Idle
  }

  /** Senders never wait: in any interleaving, a sender that takes six steps has returned in the
      meantime, so that none of them holds up a channel for more than six of its own steps. */
  lemma SendersAreWaitFree(s: State, t: nat, actions: seq<Action>)
    requires t < |s.senders| && StepsOf(actions, t) >= 6
    ensures exists k :: 0 <= k <= |actions| && !InCallAt(s, t, actions, k)
  {
    if forall k :: 0 <= k <= |actions| ==> InCallAt(s, t, actions, k) {
      CallShortens(s, t, actions);
    }
  }
}
