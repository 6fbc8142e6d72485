/**
  The Michael & Scott linked queue of examples/lock_free/lockfree_ms_queue.hpp as a
  transition system over an arbitrary number of threads.

  Every atomic access of the source (a load, a compare-and-swap, the final move out of
  a node) is one step.  A node is named by its position in allocation order; nodes are
  never freed, so a name is never reused.  The fields `chain`, `pos`, `headPos`,
  `tailPos`, `log` and `done`, and the fields `call`, `start` and `sawEmptyAt` of a
  thread, are history: no branch of the program looks at them.
 */
module MichaelScottQueue {
  import opened Wrappers

  type Value(==, !new, 0)

  type Ptr = Option<nat>

  datatype Node = Node(data: Value, next: Ptr, moved: bool)

  datatype Op = Enqueue(v: Value) | Dequeue

  // An effective operation, written down at the step where it takes effect.
  datatype Effect = Put(tid: nat, call: nat, v: Value) | Take(tid: nat, call: nat, v: Value)

  /** What a finished call returned.  `start` and `end` are the lengths of the effect log when
      the call began and ended; `at` is where in the log the call took effect. */
  datatype Response =
    | Enqueued(tid: nat, call: nat, v: Value, start: nat, at: nat, end: nat)
    | Dequeued(tid: nat, call: nat, v: Value, start: nat, at: nat, end: nat)
    | FoundEmpty(tid: nat, call: nat, start: nat, at: nat, end: nat)

  datatype Pc =
    | Idle
    | EnqLoadTail(node: nat)
    | EnqLoadNext(node: nat, last: nat)
    | EnqCheck(node: nat, last: nat, next: Ptr)
    | EnqLink(node: nat, last: nat)
    | EnqHelp(node: nat, last: nat, after: nat)
    | EnqSwing(node: nat, last: nat, at: nat)
    | DeqLoadHead
    | DeqLoadTail(first: nat)
    | DeqLoadNext(first: nat, last: nat)
    | DeqCheck(first: nat, last: nat, next: Ptr)
    | DeqHelp(last: nat, after: nat)
    | DeqSwing(first: nat, next: Ptr)
    | DeqMove(taken: nat, at: nat)
    | Crashed  // a null pointer was dereferenced or stored in head_

  datatype Thread = Thread(pc: Pc, call: nat, start: nat, arg: Value, sawEmptyAt: nat)

  datatype State = State(
    nodes: seq<Node>, head: nat, tail: nat, threads: seq<Thread>,
    chain: seq<nat>, pos: map<nat, nat>, headPos: nat, tailPos: nat,
    log: seq<Effect>, done: seq<Response>)

  // A scheduler's choice: begin a call on an idle thread, or let a thread take its next
  // step, where `spurious` says whether a weak compare-and-swap fails for no reason.
  datatype Action = Begin(op: Op) | Go(spurious: bool)

  /** The constructor: one dummy node, to which head and tail both point. */
  function Init(threads: nat, blank: Value): State {
    State([Node(blank, None, true)], 0, 0,
          seq(threads, _ => Thread(Idle, 0, 0, blank, 0)),
          [0], map[0 := 0], 0, 0, [], [])
  }

  function NextOf(s: State, p: nat): Ptr {
    if p < |s.nodes| then s.nodes[p].next else None
  }

  function DataOf(s: State, p: nat): Value
    requires p < |s.nodes|
  {
    s.nodes[p].data
  }

  function SetPc(s: State, t: nat, pc: Pc): State
    requires t < |s.threads|
  {
    s.(threads := s.threads[t := s.threads[t].(pc := pc)])
  }

  function Finish(s: State, t: nat, r: Response): State
    requires t < |s.threads|
  {
    SetPc(s, t, Idle).(done := s.done + [r])
  }

  // A new call allocates and fills its node before it touches the list.
  function BeginCall(s: State, t: nat, op: Op): State
    requires t < |s.threads|
  {
    var th := s.threads[t];
    match op
    case Enqueue(v) =>
      s.(nodes := s.nodes + [Node(v, None, false)],
         threads := s.threads[t := Thread(EnqLoadTail(|s.nodes|), th.call + 1, |s.log|, v, 0)])
    case Dequeue =>
      s.(threads := s.threads[t := Thread(DeqLoadHead, th.call + 1, |s.log|, th.arg, 0)])
  }

  // compare_exchange on tail_: expected `last`, desired `to`.
  function CasTail(s: State, last: nat, to: nat): State {
    if s.tail == last then s.(tail := to, tailPos := s.tailPos + 1) else s
  }

  // A successful compare_exchange on last->next: the enqueue takes effect here.
  function LinkNode(s: State, t: nat, node: nat, last: nat): State
    requires t < |s.threads| && last < |s.nodes|
  {
    var th := s.threads[t];
    var s' := s.(nodes := s.nodes[last := s.nodes[last].(next := Some(node))],
                 chain := s.chain + [node],
                 pos := s.pos[node := |s.chain|],
                 log := s.log + [Put(t, th.call, th.arg)]);
    SetPc(s', t, EnqSwing(node, last, |s.log|))
  }

  // A successful compare_exchange on head_: the dequeue takes effect here.
  function SwingHead(s: State, t: nat, next: nat): State
    requires t < |s.threads| && next < |s.nodes|
  {
    var s' := s.(head := next, headPos := s.headPos + 1,
                 log := s.log + [Take(t, s.threads[t].call, DataOf(s, next))]);
    SetPc(s', t, DeqMove(next, |s.log|))
  }

  function MarkMoved(s: State, taken: nat): State
    requires taken < |s.nodes|
  {
    s.(nodes := s.nodes[taken := s.nodes[taken].(moved := true)])
  }

  // Does the next step of this thread only read the shared state, and not return?
  predicate Looking(s: State, pc: Pc) {
    match pc
    case EnqLoadTail(_) => true
    case EnqLoadNext(_, _) => true
    case EnqCheck(_, _, _) => true
    case DeqLoadHead => true
    case DeqLoadTail(_) => true
    case DeqLoadNext(_, _) => true
    case DeqCheck(first, last, next) => !(first == s.head && first == last && next == None)
    case _ => false
  }

  function Look(s: State, th: Thread): Thread {
    match th.pc
    case EnqLoadTail(node) => th.(pc := EnqLoadNext(node, s.tail))
    case EnqLoadNext(node, last) => th.(pc := EnqCheck(node, last, NextOf(s, last)))
    case EnqCheck(node, last, next) =>
      th.(pc := if last != s.tail then EnqLoadTail(node)
                else if next == None then EnqLink(node, last)
                else EnqHelp(node, last, next.value))
    case DeqLoadHead => th.(pc := DeqLoadTail(s.head))
    case DeqLoadTail(first) => th.(pc := DeqLoadNext(first, s.tail))
    case DeqLoadNext(first, last) =>
      th.(pc := DeqCheck(first, last, NextOf(s, first)), sawEmptyAt := |s.log|)
    case DeqCheck(first, last, next) =>
      th.(pc := if first != s.head then DeqLoadHead
                else if first != last then DeqSwing(first, next)
                else if next == None then Idle
                else DeqHelp(last, next.value))
    case _ => th
  }

  // The steps that may write shared memory, and the return of an unsuccessful dequeue.
  function Act(s: State, t: nat, spurious: bool): State
    requires t < |s.threads|
  {
    var th := s.threads[t];
    match th.pc
    case EnqLink(node, last) =>
      if last >= |s.nodes| then SetPc(s, t, Crashed)
      else if spurious || s.nodes[last].next != None then SetPc(s, t, EnqLoadTail(node))
      else LinkNode(s, t, node, last)
    case EnqHelp(node, last, after) =>
      SetPc(if spurious then s else CasTail(s, last, after), t, EnqLoadTail(node))
    case EnqSwing(node, last, at) =>
      // compare_exchange_strong: no spurious failure, and failure is ignored
      Finish(CasTail(s, last, node), t, Enqueued(t, th.call, th.arg, th.start, at, |s.log|))
    case DeqCheck(_, _, _) =>
      Finish(s, t, FoundEmpty(t, th.call, th.start, th.sawEmptyAt, |s.log|))
    case DeqHelp(last, after) =>
      SetPc(if spurious then s else CasTail(s, last, after), t, DeqLoadHead)
    case DeqSwing(first, next) =>
      if spurious || s.head != first then SetPc(s, t, DeqLoadHead)
      else if next == None || next.value >= |s.nodes| then SetPc(s, t, Crashed)
      else SwingHead(s, t, next.value)
    case DeqMove(taken, at) =>
      if taken >= |s.nodes| then SetPc(s, t, Crashed)
      else
        Finish(MarkMoved(s, taken), t, Dequeued(t, th.call, DataOf(s, taken), th.start, at, |s.log|))
    case _ => s
  }

  function Step(s: State, t: nat, a: Action): (s': State)
    requires t < |s.threads|
    ensures |s'.threads| == |s.threads|
  {
    var pc := s.threads[t].pc;
    match a
    case Begin(op) => if pc.Idle? then BeginCall(s, t, op) else s
    case Go(spurious) =>
      if Looking(s, pc) then s.(threads := s.threads[t := Look(s, s.threads[t])])
      else Act(s, t, spurious)
  }

  /** The state after a schedule: any interleaving of the threads is some schedule. */
  function Run(threads: nat, blank: Value, schedule: seq<(nat, Action)>): (s: State)
    ensures |s.threads| == threads
  {
    if schedule == [] then Init(threads, blank)
    else
      var (t, a) := schedule[|schedule| - 1];
      var before := Run(threads, blank, schedule[..|schedule| - 1]);
      if t < threads then Step(before, t, a) else before
  }

  // ---------- The specification: an atomic first-in first-out queue ----------

  /** The contents of a FIFO queue after the effects of a log, or None when some Take in the
      log is not allowed by a FIFO queue. */
  function Replay(log: seq<Effect>): Option<seq<Value>> {
    if log == [] then Some([])
    else
      var e := log[|log| - 1];
      match Replay(log[..|log| - 1])
      case None => None
      case Some(q) =>
        match e
        case Put(_, _, v) => Some(q + [v])
        case Take(_, _, v) => if q != [] && q[0] == v then Some(q[1..]) else None
  }

  /** A response agrees with a log: its call has exactly one effect there, between the call's
      beginning and its end; or the call found nothing, has no effect, and the queue was empty
      at some moment between its beginning and its end. */
  ghost predicate Agrees(log: seq<Effect>, r: Response) {
    && r.start <= r.at <= r.end <= |log|
    && match r
       case Enqueued(t, c, v, _, at, end) => at < end && log[at] == Put(t, c, v)
       case Dequeued(t, c, v, _, at, end) => at < end && log[at] == Take(t, c, v)
       case FoundEmpty(t, c, _, at, _) =>
         && Replay(log[..at]) == Some([])
         && forall i :: 0 <= i < |log| ==> !(log[i].tid == t && log[i].call == c)
  }

  ghost predicate UniqueEffects(log: seq<Effect>) {
    forall i, j :: 0 <= i < j < |log| ==> !(log[i].tid == log[j].tid && log[i].call == log[j].call)
  }

  /** Linearizability of everything a client can observe. */
  ghost predicate Linearizable(log: seq<Effect>, done: seq<Response>) {
    && Replay(log).Some?
    && UniqueEffects(log)
    && forall i :: 0 <= i < |done| ==> Agrees(log, done[i])
  }

  // ---------- The invariant ----------

  ghost predicate Shape(s: State) {
    && |s.chain| > 0
    && (forall i :: 0 <= i < |s.chain| ==> s.chain[i] < |s.nodes| && s.chain[i] in s.pos && s.pos[s.chain[i]] == i)
    && (forall n :: n in s.pos ==> n < |s.nodes| && s.pos[n] < |s.chain| && s.chain[s.pos[n]] == n)
    && s.headPos <= s.tailPos < |s.chain| <= s.tailPos + 2
    && s.head == s.chain[s.headPos]
    && s.tail == s.chain[s.tailPos]
    && (forall n {:trigger NextIsChained(s, n)} :: n in s.pos ==> NextIsChained(s, n))
  }

  // The node after n in the list is the one chained after it.
  ghost predicate NextIsChained(s: State, n: nat)
    requires n in s.pos
  {
    match NextOf(s, n)
    case None => s.pos[n] == |s.chain| - 1
    case Some(m) => m in s.pos && s.pos[m] == s.pos[n] + 1
  }

  /** q is the list of values in the nodes after the dummy, front first. */
  ghost predicate Holds(s: State, q: seq<Value>) {
    && |q| == |s.chain| - 1 - s.headPos
    && forall j :: s.headPos < j < |s.chain| ==>
         && s.chain[j] < |s.nodes|
         && s.nodes[s.chain[j]].data == q[j - s.headPos - 1]
         && !s.nodes[s.chain[j]].moved
  }

  /** What a FIFO queue would contain after the effects so far is what the list contains,
      and none of it has been moved out. */
  ghost predicate Abstraction(s: State) {
    Replay(s.log).Some? && Holds(s, Replay(s.log).value)
  }

  // The node an enqueuer has filled but not yet linked.
  function PrivateNode(pc: Pc): Ptr {
    match pc
    case EnqLoadTail(n) => Some(n)
    case EnqLoadNext(n, _) => Some(n)
    case EnqCheck(n, _, _) => Some(n)
    case EnqLink(n, _) => Some(n)
    case EnqHelp(n, _, _) => Some(n)
    case _ => None
  }

  // Has the current call of this thread already taken effect (or is there no call)?
  predicate PastEffect(pc: Pc) {
    pc.Idle? || pc.EnqSwing? || pc.DeqMove?
  }

  ghost predicate At(s: State, n: nat, limit: int) {
    n in s.pos && s.pos[n] <= limit
  }

  ghost predicate Follows(s: State, n: nat, m: nat) {
    n in s.pos && m in s.pos && s.pos[m] == s.pos[n] + 1
  }

  ghost predicate EmptyAt(s: State, th: Thread) {
    th.start <= th.sawEmptyAt <= |s.log| && Replay(s.log[..th.sawEmptyAt]) == Some([])
  }

  ghost predicate LocalsOk(s: State, t: nat, th: Thread) {
    match th.pc
    case Idle => true
    case EnqLoadTail(_) => true
    case EnqLoadNext(_, last) => At(s, last, s.tailPos)
    case EnqCheck(_, last, next) =>
      At(s, last, s.tailPos) && (next.Some? ==> Follows(s, last, next.value))
    case EnqLink(_, last) => At(s, last, s.tailPos)
    case EnqHelp(_, last, after) => At(s, last, s.tailPos) && Follows(s, last, after)
    case EnqSwing(node, last, at) =>
      && At(s, last, s.tailPos) && Follows(s, last, node)
      && th.start <= at < |s.log| && s.log[at] == Put(t, th.call, th.arg)
    case DeqLoadHead => true
    case DeqLoadTail(first) => At(s, first, s.headPos)
    case DeqLoadNext(first, last) =>
      At(s, first, s.headPos) && At(s, last, s.tailPos) && s.pos[first] <= s.pos[last]
    case DeqCheck(first, last, next) =>
      && At(s, first, s.headPos) && At(s, last, s.tailPos) && s.pos[first] <= s.pos[last]
      && (next.Some? ==> Follows(s, first, next.value))
      && (next.None? ==> first == last && EmptyAt(s, th))
    case DeqHelp(last, after) => At(s, last, s.tailPos) && Follows(s, last, after)
    case DeqSwing(first, next) =>
      && At(s, first, s.headPos) && next.Some?
      && Follows(s, first, next.value) && At(s, next.value, s.tailPos)
    case DeqMove(taken, at) =>
      && At(s, taken, s.headPos) && taken < |s.nodes| && !s.nodes[taken].moved
      && th.start <= at < |s.log| && s.log[at] == Take(t, th.call, DataOf(s, taken))
    case Crashed => false
  }

  ghost predicate ThreadOk(s: State, t: nat, th: Thread) {
    && th.start <= |s.log|
    && LocalsOk(s, t, th)
    && (PrivateNode(th.pc).Some? ==>
          var n := PrivateNode(th.pc).value;
          n < |s.nodes| && n !in s.pos && s.nodes[n] == Node(th.arg, None, false))
    && (!PastEffect(th.pc) ==> NoEffect(s.log, t, th.call))
  }

  ghost predicate NoEffect(log: seq<Effect>, t: nat, c: nat) {
    forall i :: 0 <= i < |log| ==> !(log[i].tid == t && log[i].call == c)
  }

  // No node is filled by two enqueuers, and none is being emptied by two dequeuers.
  ghost predicate Exclusive(s: State) {
    forall t, u :: 0 <= t < u < |s.threads| ==>
      && !(PrivateNode(s.threads[t].pc).Some? && PrivateNode(s.threads[t].pc) == PrivateNode(s.threads[u].pc))
      && !(s.threads[t].pc.DeqMove? && s.threads[u].pc.DeqMove? && s.threads[t].pc.taken == s.threads[u].pc.taken)
  }

  // Effects and responses carry call numbers that have been issued, and a finished
  // call's number is never used again.
  ghost predicate CallsOk(s: State) {
    && (forall i :: 0 <= i < |s.log| ==> s.log[i].tid < |s.threads| && s.log[i].call <= s.threads[s.log[i].tid].call)
    && (forall i :: 0 <= i < |s.done| ==>
          && s.done[i].tid < |s.threads|
          && s.done[i].call <= s.threads[s.done[i].tid].call
          && (s.done[i].call == s.threads[s.done[i].tid].call ==> s.threads[s.done[i].tid].pc.Idle?))
  }

  ghost predicate Inv(s: State) {
    && Shape(s)
    && Abstraction(s)
    && UniqueEffects(s.log)
    && (forall i :: 0 <= i < |s.done| ==> Agrees(s.log, s.done[i]))
    && (forall t :: 0 <= t < |s.threads| ==> ThreadOk(s, t, s.threads[t]))
    && Exclusive(s)
    && CallsOk(s)
  }

  // ---------- What never changes once true ----------

  ghost predicate Grows(s: State, s': State) {
    && |s.nodes| <= |s'.nodes|
    && |s.chain| <= |s'.chain| && s.chain == s'.chain[..|s.chain|]
    && (forall n :: n in s.pos ==> n in s'.pos && s'.pos[n] == s.pos[n])
    && s.headPos <= s'.headPos && s.tailPos <= s'.tailPos
    && |s.log| <= |s'.log| && s.log == s'.log[..|s.log|]
    && (forall n :: 0 <= n < |s.nodes| ==> s'.nodes[n].data == s.nodes[n].data)
  }

  /** A thread that takes no step keeps what it knows while the shared state grows. */
  lemma OtherThreadKeeps(s: State, s': State, t: nat, th: Thread)
    requires Grows(s, s') && ThreadOk(s, t, th)
    requires PrivateNode(th.pc).Some? ==>
               PrivateNode(th.pc).value !in s'.pos && s'.nodes[PrivateNode(th.pc).value] == s.nodes[PrivateNode(th.pc).value]
    requires th.pc.DeqMove? ==> !s'.nodes[th.pc.taken].moved
    requires forall i :: |s.log| <= i < |s'.log| ==> s'.log[i].tid != t
    ensures ThreadOk(s', t, th)
  {
    if th.sawEmptyAt <= |s.log| {
      assert s'.log[..th.sawEmptyAt] == s.log[..th.sawEmptyAt];
    }
    forall i | 0 <= i < |s.log| ensures s'.log[i] == s.log[i] {
      assert s'.log[i] == s'.log[..|s.log|][i];
    }
    if !PastEffect(th.pc) {
      assert NoEffect(s.log, t, th.call);
      assert NoEffect(s'.log, t, th.call);
    }
  }

  lemma ResponseKeeps(log: seq<Effect>, e: Effect, r: Response)
    requires Agrees(log, r)
    requires !(e.tid == r.tid && e.call == r.call)
    ensures Agrees(log + [e], r)
  {
    assert (log + [e])[..r.at] == log[..r.at];
  }

  lemma ReplayAppend(log: seq<Effect>, e: Effect)
    requires Replay(log).Some?
    ensures Replay(log + [e]) ==
            match e
            case Put(_, _, v) => Some(Replay(log).value + [v])
            case Take(_, _, v) =>
              if Replay(log).value != [] && Replay(log).value[0] == v then Some(Replay(log).value[1..]) else None
  {
    assert (log + [e])[..|log|] == log;
  }

  // What a step of thread t may do to the history.
  ghost predicate HistoryStep(s: State, s': State, t: nat)
    requires t < |s.threads| == |s'.threads|
  {
    var (th, th') := (s.threads[t], s'.threads[t]);
    && th.call <= th'.call
    && (th.pc.Idle? && th'.call == th.call ==> th'.pc.Idle?)
    && (s'.log == s.log ||
        (|s'.log| == |s.log| + 1 && s'.log[..|s.log|] == s.log &&
         var e := s'.log[|s.log|];
         e.tid == t && e.call == th.call == th'.call && NoEffect(s.log, t, th.call) && !th.pc.Idle?))
    && (s'.done == s.done ||
        (|s'.done| == |s.done| + 1 && s'.done[..|s.done|] == s.done &&
         var r := s'.done[|s.done|];
         r.tid == t && r.call == th'.call && th'.pc.Idle? && Agrees(s'.log, r)))
  }

  // The rest of the world is left alone by a step of thread t.
  ghost predicate OthersUntouched(s: State, s': State, t: nat)
    requires t < |s.threads| == |s'.threads| && |s.nodes| <= |s'.nodes|
  {
    forall u :: 0 <= u < |s.threads| && u != t ==>
      && s'.threads[u] == s.threads[u]
      && (var p := PrivateNode(s.threads[u].pc);
          p.Some? && p.value < |s.nodes| ==>
            p.value !in s'.pos && s'.nodes[p.value] == s.nodes[p.value]
            && PrivateNode(s'.threads[t].pc) != p)
      && (var pc := s.threads[u].pc;
          pc.DeqMove? && pc.taken < |s.nodes| ==>
            && !s'.nodes[pc.taken].moved
            && !(s'.threads[t].pc.DeqMove? && s'.threads[t].pc.taken == pc.taken))
  }

  lemma ThreadsKept(s: State, s': State, t: nat)
    requires forall u :: 0 <= u < |s.threads| ==> ThreadOk(s, u, s.threads[u])
    requires t < |s.threads| == |s'.threads|
    requires Grows(s, s') && HistoryStep(s, s', t) && OthersUntouched(s, s', t)
    requires ThreadOk(s', t, s'.threads[t])
    ensures forall u :: 0 <= u < |s'.threads| ==> ThreadOk(s', u, s'.threads[u])
  {
    forall u | 0 <= u < |s'.threads| ensures ThreadOk(s', u, s'.threads[u]) {
      if u != t {
        assert ThreadOk(s, u, s.threads[u]);
        OtherThreadKeeps(s, s', u, s.threads[u]);
      }
    }
  }

  lemma LogPrefix(s: State, s': State)
    requires |s.log| <= |s'.log| && s'.log[..|s.log|] == s.log
    ensures forall i :: 0 <= i < |s.log| ==> s'.log[i] == s.log[i]
  {
    forall i | 0 <= i < |s.log| ensures s'.log[i] == s.log[i] {
      assert s'.log[i] == s'.log[..|s.log|][i];
    }
  }

  lemma ResponsesKept(s: State, s': State, t: nat)
    requires Inv(s) && t < |s.threads| == |s'.threads|
    requires HistoryStep(s, s', t)
    ensures forall i :: 0 <= i < |s'.done| ==> Agrees(s'.log, s'.done[i])
    ensures forall i :: 0 <= i < |s.done| ==> s'.done[i] == s.done[i]
  {
    forall i | 0 <= i < |s.done| ensures s'.done[i] == s.done[i] && Agrees(s'.log, s.done[i]) {
      assert s'.done[i] == s'.done[..|s.done|][i];
      assert Agrees(s.log, s.done[i]);
      if s'.log != s.log {
        var e := s'.log[|s.log|];
        assert s'.log == s.log + [e];
        ResponseKeeps(s.log, e, s.done[i]);
      }
    }
  }

  lemma CallsKept(s: State, s': State, t: nat)
    requires UniqueEffects(s.log) && CallsOk(s) && t < |s.threads| == |s'.threads|
    requires HistoryStep(s, s', t)
    requires forall u :: 0 <= u < |s.threads| && u != t ==> s'.threads[u] == s.threads[u]
    requires |s'.done| >= |s.done| && forall i :: 0 <= i < |s.done| ==> s'.done[i] == s.done[i]
    requires |s'.log| >= |s.log| && forall i :: 0 <= i < |s.log| ==> s'.log[i] == s.log[i]
    ensures UniqueEffects(s'.log) && CallsOk(s')
  {
    forall i | 0 <= i < |s'.log|
      ensures s'.log[i].tid < |s'.threads| && s'.log[i].call <= s'.threads[s'.log[i].tid].call
    {
      if i < |s.log| {
        assert s'.log[i] == s.log[i];
      }
    }
    forall i | 0 <= i < |s'.done|
      ensures s'.done[i].tid < |s.threads|
      ensures s'.done[i].call <= s'.threads[s'.done[i].tid].call
      ensures s'.done[i].call == s'.threads[s'.done[i].tid].call ==> s'.threads[s'.done[i].tid].pc.Idle?
    {
      if i < |s.done| {
        assert s'.done[i] == s.done[i];
      }
    }
    forall i, j | 0 <= i < j < |s'.log|
      ensures !(s'.log[i].tid == s'.log[j].tid && s'.log[i].call == s'.log[j].call)
    {
      if j < |s.log| {
        assert s'.log[i] == s.log[i] && s'.log[j] == s.log[j];
      } else {
        assert s'.log[i] == s.log[i];
      }
    }
  }

  lemma ExclusiveKept(s: State, s': State, t: nat)
    requires Exclusive(s) && t < |s.threads| == |s'.threads|
    requires forall u :: 0 <= u < |s.threads| ==> ThreadOk(s, u, s.threads[u])
    requires |s.nodes| <= |s'.nodes| && OthersUntouched(s, s', t)
    requires Shape(s)
    ensures Exclusive(s')
  {
    forall u | 0 <= u < |s.threads| && u != t
      ensures !(PrivateNode(s.threads[u].pc).Some? && PrivateNode(s'.threads[t].pc) == PrivateNode(s.threads[u].pc))
      ensures !(s'.threads[t].pc.DeqMove? && s.threads[u].pc.DeqMove? && s'.threads[t].pc.taken == s.threads[u].pc.taken)
    {
      assert ThreadOk(s, u, s.threads[u]);
    }
  }

  lemma InvKept(s: State, s': State, t: nat)
    requires Inv(s) && t < |s.threads| == |s'.threads|
    requires Grows(s, s') && Shape(s') && Abstraction(s')
    requires HistoryStep(s, s', t) && OthersUntouched(s, s', t)
    requires ThreadOk(s', t, s'.threads[t])
    ensures Inv(s')
  {
    ThreadsKept(s, s', t);
    ResponsesKept(s, s', t);
    LogPrefix(s, s');
    CallsKept(s, s', t);
    ExclusiveKept(s, s', t);
  }

  // ---------- Each kind of step keeps the invariant ----------

  // When no node changes, other threads' nodes are left alone.
  lemma OtherNodes(s: State, s': State, t: nat)
    requires forall u :: 0 <= u < |s.threads| ==> ThreadOk(s, u, s.threads[u])
    requires Exclusive(s) && t < |s.threads| == |s'.threads|
    requires s'.nodes == s.nodes && s'.pos == s.pos
    requires forall u :: 0 <= u < |s.threads| && u != t ==> s'.threads[u] == s.threads[u]
    requires PrivateNode(s'.threads[t].pc) in {None, PrivateNode(s.threads[t].pc)}
    requires s'.threads[t].pc.DeqMove? ==>
               || s'.threads[t].pc == s.threads[t].pc
               || (s'.threads[t].pc.taken in s.pos && s.pos[s'.threads[t].pc.taken] > s.headPos)
    ensures OthersUntouched(s, s', t)
  {
    forall u | 0 <= u < |s.threads| && u != t
      ensures var p := PrivateNode(s.threads[u].pc);
              p.Some? ==> p.value !in s'.pos && PrivateNode(s'.threads[t].pc) != p
      ensures var pc := s.threads[u].pc;
              pc.DeqMove? ==>
                && !s.nodes[pc.taken].moved
                && !(s'.threads[t].pc.DeqMove? && s'.threads[t].pc.taken == pc.taken)
    {
      assert ThreadOk(s, u, s.threads[u]);
    }
  }

  // A load or a comparison: only the program counter and locals of thread t change.
  lemma LocalKept(s: State, t: nat, th': Thread)
    requires Inv(s) && t < |s.threads|
    requires var th := s.threads[t];
             && th'.call == th.call && th'.start == th.start && th'.arg == th.arg
             && !PastEffect(th.pc) && !PastEffect(th'.pc)
             && PrivateNode(th'.pc) == PrivateNode(th.pc)
    requires LocalsOk(s, t, th')
    ensures Inv(s.(threads := s.threads[t := th']))
  {
    var s' := s.(threads := s.threads[t := th']);
    assert ThreadOk(s, t, s.threads[t]);
    SharedSame(s, s');
    LocalsSame(s, s', t, th');
    OtherNodes(s, s', t);
    InvKept(s, s', t);
  }

  lemma LocalsSame(s: State, s': State, t: nat, th: Thread)
    requires s'.nodes == s.nodes && s'.chain == s.chain && s'.pos == s.pos && s'.log == s.log
    requires s'.headPos == s.headPos && s'.tailPos == s.tailPos
    ensures LocalsOk(s, t, th) == LocalsOk(s', t, th)
    ensures ThreadOk(s, t, th) == ThreadOk(s', t, th)
  {}

  // The list is unchanged where only data, moved flags or unlinked nodes change.
  lemma ChainSame(s: State, s': State)
    requires Shape(s) && s'.chain == s.chain && s'.pos == s.pos && |s.nodes| <= |s'.nodes|
    requires forall n :: 0 <= n < |s.nodes| ==> s'.nodes[n].next == s.nodes[n].next
    ensures forall n {:trigger NextIsChained(s', n)} :: n in s'.pos ==> NextIsChained(s', n)
  {
    forall n | n in s'.pos ensures NextIsChained(s', n) {
      assert NextIsChained(s, n);
    }
  }

  // When neither list nor log change, the abstraction does not either.
  lemma SharedSame(s: State, s': State)
    requires Shape(s) && Abstraction(s)
    requires s'.nodes == s.nodes && s'.chain == s.chain && s'.pos == s.pos && s'.log == s.log
    requires s'.headPos == s.headPos && s'.head == s.head
    requires (s'.tailPos == s.tailPos && s'.tail == s.tail)
          || (s'.tailPos == s.tailPos + 1 < |s.chain| && s'.tail == s.chain[s'.tailPos])
    ensures Shape(s') && Abstraction(s') && Grows(s, s')
  {
    ChainSame(s, s');
  }

  lemma CasTailKept(s: State, last: nat, to: nat, t: nat)
    requires Inv(s) && t < |s.threads| && Follows(s, last, to)
    ensures Inv(CasTail(s, last, to))
  {
    if s.tail == last {
      var s' := CasTail(s, last, to);
      var th := s.threads[t];
      assert s.chain[s.pos[last]] == last && s.chain[s.pos[to]] == to;
      SharedSame(s, s');
      TailThread(s, s', t, th);
      OtherNodes(s, s', t);
      InvKept(s, s', t);
    }
  }

  lemma TailThread(s: State, s': State, t: nat, th: Thread)
    requires Grows(s, s') && s'.nodes == s.nodes && s'.pos == s.pos && s'.log == s.log
    requires ThreadOk(s, t, th)
    ensures ThreadOk(s', t, th)
  {
    OtherThreadKeeps(s, s', t, th);
  }

  lemma FinishKept(s: State, t: nat, r: Response)
    requires Inv(s) && t < |s.threads| && !s.threads[t].pc.Idle?
    requires r.tid == t && r.call == s.threads[t].call && Agrees(s.log, r)
    ensures Inv(Finish(s, t, r))
  {
    var s' := Finish(s, t, r);
    assert ThreadOk(s, t, s.threads[t]);
    SharedSame(s, s');
    OtherNodes(s, s', t);
    InvKept(s, s', t);
  }

  lemma BeginKept(s: State, t: nat, op: Op)
    requires Inv(s) && t < |s.threads| && s.threads[t].pc.Idle?
    ensures Inv(BeginCall(s, t, op))
  {
    var s' := BeginCall(s, t, op);
    BeginShared(s, s');
    BeginOthers(s, t, op);
    BeginThread(s, t, op);
    InvKept(s, s', t);
  }

  lemma BeginShared(s: State, s': State)
    requires Shape(s) && Abstraction(s)
    requires |s.nodes| <= |s'.nodes| && forall n :: 0 <= n < |s.nodes| ==> s'.nodes[n] == s.nodes[n]
    requires s'.chain == s.chain && s'.pos == s.pos && s'.log == s.log
    requires s'.headPos == s.headPos && s'.head == s.head && s'.tailPos == s.tailPos && s'.tail == s.tail
    ensures Shape(s') && Abstraction(s') && Grows(s, s')
  {
    ChainSame(s, s');
    assert Shape(s');
  }

  lemma BeginOthers(s: State, t: nat, op: Op)
    requires forall u :: 0 <= u < |s.threads| ==> ThreadOk(s, u, s.threads[u])
    requires t < |s.threads| && s.threads[t].pc.Idle?
    ensures OthersUntouched(s, BeginCall(s, t, op), t)
  {
    forall u | 0 <= u < |s.threads| ensures ThreadOk(s, u, s.threads[u]) {}
  }

  lemma BeginThread(s: State, t: nat, op: Op)
    requires Shape(s) && CallsOk(s) && t < |s.threads|
    ensures ThreadOk(BeginCall(s, t, op), t, BeginCall(s, t, op).threads[t])
  {
    assert NoEffect(s.log, t, s.threads[t].call + 1);
  }

  lemma LinkKept(s: State, t: nat, node: nat, last: nat)
    requires Inv(s) && t < |s.threads| && s.threads[t].pc == EnqLink(node, last)
    requires last < |s.nodes| && s.nodes[last].next == None
    ensures Inv(LinkNode(s, t, node, last))
  {
    var s' := LinkNode(s, t, node, last);
    assert ThreadOk(s, t, s.threads[t]);
    LinkShared(s, t, node, last);
    LinkOthers(s, t, node, last);
    InvKept(s, s', t);
  }

  lemma LinkShared(s: State, t: nat, node: nat, last: nat)
    requires Shape(s) && Abstraction(s) && t < |s.threads|
    requires node < |s.nodes| && node !in s.pos && s.nodes[node] == Node(s.threads[t].arg, None, false)
    requires last in s.pos && last < |s.nodes| && s.nodes[last].next == None && At(s, last, s.tailPos)
    ensures var s' := LinkNode(s, t, node, last);
            Shape(s') && Abstraction(s') && Grows(s, s') && Follows(s', last, node)
  {
    LinkShape(s, t, node, last);
    ReplayAppend(s.log, Put(t, s.threads[t].call, s.threads[t].arg));
  }

  lemma LinkShape(s: State, t: nat, node: nat, last: nat)
    requires Shape(s) && t < |s.threads|
    requires node < |s.nodes| && node !in s.pos && s.nodes[node].next == None
    requires last in s.pos && last < |s.nodes| && s.nodes[last].next == None && At(s, last, s.tailPos)
    ensures var s' := LinkNode(s, t, node, last);
            Shape(s') && Follows(s', last, node)
  {
    var s' := LinkNode(s, t, node, last);
    assert NextIsChained(s, last);
    forall n | n in s'.pos ensures NextIsChained(s', n) {
      if n in s.pos {
        assert NextIsChained(s, n);
        assert s.chain[s.pos[n]] == n;
      }
    }
  }

  lemma LinkOthers(s: State, t: nat, node: nat, last: nat)
    requires forall u :: 0 <= u < |s.threads| ==> ThreadOk(s, u, s.threads[u])
    requires Exclusive(s) && t < |s.threads| && s.threads[t].pc == EnqLink(node, last)
    requires last in s.pos && last < |s.nodes|
    ensures OthersUntouched(s, LinkNode(s, t, node, last), t)
  {
    forall u | 0 <= u < |s.threads| ensures ThreadOk(s, u, s.threads[u]) {}
  }

  lemma SwingKept(s: State, t: nat, first: nat, next: nat)
    requires Inv(s) && t < |s.threads| && s.threads[t].pc == DeqSwing(first, Some(next))
    requires s.head == first && next < |s.nodes|
    ensures Inv(SwingHead(s, t, next))
  {
    var s' := SwingHead(s, t, next);
    assert ThreadOk(s, t, s.threads[t]);
    SwingShared(s, t, first, next);
    OtherNodes(s, s', t);
    InvKept(s, s', t);
  }

  lemma SwingShared(s: State, t: nat, first: nat, next: nat)
    requires Shape(s) && Abstraction(s) && t < |s.threads|
    requires s.head == first && Follows(s, first, next) && At(s, next, s.tailPos) && next < |s.nodes|
    ensures var s' := SwingHead(s, t, next);
            && Shape(s') && Abstraction(s') && Grows(s, s')
            && s.pos[next] == s.headPos + 1 && !s.nodes[next].moved
  {
    var s' := SwingHead(s, t, next);
    assert s.chain[s.pos[next]] == next;
    ChainSame(s, s');
    ReplayAppend(s.log, Take(t, s.threads[t].call, DataOf(s, next)));
  }

  lemma MoveKept(s: State, t: nat, taken: nat, at: nat)
    requires Inv(s) && t < |s.threads| && s.threads[t].pc == DeqMove(taken, at)
    requires taken < |s.nodes|
    ensures var th := s.threads[t];
            Inv(Finish(MarkMoved(s, taken), t,
                       Dequeued(t, th.call, DataOf(s, taken), th.start, at, |s.log|)))
  {
    var th := s.threads[t];
    var s' := Finish(MarkMoved(s, taken), t, Dequeued(t, th.call, DataOf(s, taken), th.start, at, |s.log|));
    assert ThreadOk(s, t, th);
    MoveShared(s, s', taken);
    MoveOthers(s, s', t, taken);
    InvKept(s, s', t);
  }

  lemma MoveShared(s: State, s': State, taken: nat)
    requires Shape(s) && Abstraction(s) && taken < |s.nodes| && At(s, taken, s.headPos)
    requires s'.nodes == MarkMoved(s, taken).nodes && s'.chain == s.chain && s'.pos == s.pos && s'.log == s.log
    requires s'.headPos == s.headPos && s'.head == s.head && s'.tailPos == s.tailPos && s'.tail == s.tail
    ensures Shape(s') && Abstraction(s') && Grows(s, s')
  {
    ChainSame(s, s');
    assert Shape(s');
  }

  lemma MoveOthers(s: State, s': State, t: nat, taken: nat)
    requires forall u :: 0 <= u < |s.threads| ==> ThreadOk(s, u, s.threads[u])
    requires Exclusive(s) && t < |s.threads| == |s'.threads|
    requires s.threads[t].pc.DeqMove? && s.threads[t].pc.taken == taken && taken in s.pos && taken < |s.nodes|
    requires s'.nodes == MarkMoved(s, taken).nodes && s'.pos == s.pos && s'.threads[t].pc.Idle?
    requires forall u :: 0 <= u < |s.threads| && u != t ==> s'.threads[u] == s.threads[u]
    ensures OthersUntouched(s, s', t)
  {
    forall u | 0 <= u < |s.threads| ensures ThreadOk(s, u, s.threads[u]) {}
  }

  // A dummy without a successor is the last node, hence head's and tail's as well.
  lemma EmptyWhenNoNext(s: State, first: nat, last: nat)
    requires Shape(s) && Abstraction(s) && At(s, first, s.headPos) && At(s, last, s.tailPos)
    requires s.pos[first] <= s.pos[last] && NextOf(s, first) == None
    ensures first == last && Replay(s.log[..|s.log|]) == Some([])
  {
    assert NextIsChained(s, first);
    assert s.chain[s.pos[first]] == first && s.chain[s.pos[last]] == last;
    assert s.log[..|s.log|] == s.log;
  }

  lemma LookOk(s: State, t: nat, th: Thread)
    requires Shape(s) && Abstraction(s) && LocalsOk(s, t, th) && Looking(s, th.pc) && th.start <= |s.log|
    ensures LocalsOk(s, t, Look(s, th))
  {
    match th.pc
    case EnqLoadNext(node, last) => assert NextIsChained(s, last);
    case DeqLoadNext(first, last) =>
      assert NextIsChained(s, first);
      if NextOf(s, first) == None {
        EmptyWhenNoNext(s, first, last);
      }
    case DeqCheck(first, last, next) =>
      assert s.chain[s.pos[first]] == first && s.chain[s.pos[last]] == last;
    case _ =>
  }

  lemma LookKept(s: State, t: nat)
    requires Inv(s) && t < |s.threads| && Looking(s, s.threads[t].pc)
    ensures Inv(s.(threads := s.threads[t := Look(s, s.threads[t])]))
  {
    var th := s.threads[t];
    assert ThreadOk(s, t, th);
    LookOk(s, t, th);
    LocalKept(s, t, Look(s, th));
  }

  lemma LinkActKept(s: State, t: nat, spurious: bool)
    requires Inv(s) && t < |s.threads| && s.threads[t].pc.EnqLink?
    ensures Inv(Act(s, t, spurious))
  {
    var th := s.threads[t];
    assert ThreadOk(s, t, th);
    var EnqLink(node, last) := th.pc;
    if spurious || s.nodes[last].next != None {
      LocalKept(s, t, th.(pc := EnqLoadTail(node)));
    } else {
      LinkKept(s, t, node, last);
    }
  }

  lemma EnqueueTailActKept(s: State, t: nat, spurious: bool)
    requires Inv(s) && t < |s.threads|
    requires var pc := s.threads[t].pc; pc.EnqHelp? || pc.EnqSwing?
    ensures Inv(Act(s, t, spurious))
  {
    var th := s.threads[t];
    assert ThreadOk(s, t, th);
    match th.pc
    case EnqHelp(node, last, after) =>
      CasTailKept(s, last, after, t);
      var s1 := if spurious then s else CasTail(s, last, after);
      LocalKept(s1, t, th.(pc := EnqLoadTail(node)));
    case EnqSwing(node, last, at) =>
      CasTailKept(s, last, node, t);
      FinishKept(CasTail(s, last, node), t, Enqueued(t, th.call, th.arg, th.start, at, |s.log|));
  }

  lemma DequeueActKept(s: State, t: nat, spurious: bool)
    requires Inv(s) && t < |s.threads| && !Looking(s, s.threads[t].pc)
    requires var pc := s.threads[t].pc; pc.DeqCheck? || pc.DeqHelp? || pc.DeqMove?
    ensures Inv(Act(s, t, spurious))
  {
    var th := s.threads[t];
    assert ThreadOk(s, t, th);
    match th.pc
    case DeqCheck(first, last, next) =>
      FinishKept(s, t, FoundEmpty(t, th.call, th.start, th.sawEmptyAt, |s.log|));
    case DeqHelp(last, after) =>
      CasTailKept(s, last, after, t);
      var s1 := if spurious then s else CasTail(s, last, after);
      LocalKept(s1, t, th.(pc := DeqLoadHead));
    case DeqMove(taken, at) => MoveKept(s, t, taken, at);
  }

  lemma DequeueSwingKept(s: State, t: nat, spurious: bool)
    requires Inv(s) && t < |s.threads| && s.threads[t].pc.DeqSwing?
    ensures Inv(Act(s, t, spurious))
  {
    var th := s.threads[t];
    assert ThreadOk(s, t, th);
    var next := th.pc.next;
    assert s.chain[s.pos[next.value]] == next.value;
    if spurious || s.head != th.pc.first {
      LocalKept(s, t, th.(pc := DeqLoadHead));
    } else {
      SwingKept(s, t, th.pc.first, next.value);
    }
  }

  lemma StepKept(s: State, t: nat, a: Action)
    requires Inv(s) && t < |s.threads|
    ensures Inv(Step(s, t, a))
  {
    var pc := s.threads[t].pc;
    match a
    case Begin(op) =>
      if pc.Idle? {
        BeginKept(s, t, op);
      }
    case Go(spurious) =>
      if Looking(s, pc) {
        LookKept(s, t);
      } else if pc.EnqLink? {
        LinkActKept(s, t, spurious);
      } else if pc.EnqHelp? || pc.EnqSwing? {
        EnqueueTailActKept(s, t, spurious);
      } else if pc.DeqSwing? {
        DequeueSwingKept(s, t, spurious);
      } else if pc.DeqCheck? || pc.DeqHelp? || pc.DeqMove? {
        DequeueActKept(s, t, spurious);
      }
  }

  lemma {:induction false} RunKeeps(threads: nat, blank: Value, schedule: seq<(nat, Action)>)
    ensures Inv(Run(threads, blank, schedule))
  {
    if schedule == [] {
      assert NextIsChained(Init(threads, blank), 0);
    } else {
      var (t, a) := schedule[|schedule| - 1];
      RunKeeps(threads, blank, schedule[..|schedule| - 1]);
      if t < threads {
        StepKept(Run(threads, blank, schedule[..|schedule| - 1]), t, a);
      }
    }
  }

  // ---------- Main results ----------

  /** Every run of any number of threads is linearizable to a FIFO queue. */
  lemma QueueIsLinearizable(threads: nat, blank: Value, schedule: seq<(nat, Action)>)
    ensures var s := Run(threads, blank, schedule);
            && Linearizable(s.log, s.done)
            && Holds(s, Replay(s.log).value)
  {
    RunKeeps(threads, blank, schedule);
  }

  // By the positions in the log, a call that ended before another began takes effect before it.
  lemma EffectsInOrder(threads: nat, blank: Value, schedule: seq<(nat, Action)>, i: nat, j: nat)
    requires i < |Run(threads, blank, schedule).done| && j < |Run(threads, blank, schedule).done|
    requires var done := Run(threads, blank, schedule).done;
             done[i].end <= done[j].start
    ensures var done := Run(threads, blank, schedule).done;
            && done[i].at <= done[j].at
            && (!done[i].FoundEmpty? ==> done[i].at < done[j].at)
  {
    RunKeeps(threads, blank, schedule);
    var s := Run(threads, blank, schedule);
    assert Agrees(s.log, s.done[i]) && Agrees(s.log, s.done[j]);
  }

  /** No thread dereferences null, head never passes tail, tail is at most one node behind the
      end of the list, and no two threads move data out of one node. */
  lemma QueueIsSafe(threads: nat, blank: Value, schedule: seq<(nat, Action)>)
    ensures var s := Run(threads, blank, schedule);
            && s.headPos <= s.tailPos && |s.chain| - 2 <= s.tailPos < |s.chain|
            && s.head == s.chain[s.headPos] && s.tail == s.chain[s.tailPos]
            && forall t :: 0 <= t < |s.threads| ==> MoveIsExclusive(s, t) && !s.threads[t].pc.Crashed?
  {
    RunKeeps(threads, blank, schedule);
    var s := Run(threads, blank, schedule);
    forall t | 0 <= t < |s.threads| ensures MoveIsExclusive(s, t) && !s.threads[t].pc.Crashed? {
      assert ThreadOk(s, t, s.threads[t]);
    }
  }

  // The node thread t is about to move data out of still holds it, and is t's alone.
  ghost predicate MoveIsExclusive(s: State, t: nat)
    requires t < |s.threads|
  {
    s.threads[t].pc.DeqMove? ==>
      && s.threads[t].pc.taken < |s.nodes| && !s.nodes[s.threads[t].pc.taken].moved
      && forall u :: 0 <= u < |s.threads| && u != t && s.threads[u].pc.DeqMove? ==>
           s.threads[u].pc.taken != s.threads[t].pc.taken
  }

  // Call c of thread t has been issued and has returned.
  predicate Returned(s: State, t: nat, c: nat) {
    t < |s.threads| && 1 <= c <= s.threads[t].call && (c == s.threads[t].call ==> s.threads[t].pc.Idle?)
  }

  // What a step may do to call numbers and responses.
  ghost predicate AnswersStep(s: State, s': State, t: nat)
    requires t < |s.threads| == |s'.threads|
  {
    var (th, th') := (s.threads[t], s'.threads[t]);
    && s'.threads == s.threads[t := th']
    && if th.pc.Idle? then
         th'.call <= th.call + 1 && (th'.call == th.call + 1 ==> !th'.pc.Idle?) && s'.done == s.done
       else
         && th'.call == th.call
         && if th'.pc.Idle? then
              exists r :: s'.done == s.done + [r] && r.tid == t && r.call == th.call
            else s'.done == s.done
  }

  lemma FinishAnswers(s: State, t: nat, r: Response)
    requires t < |s.threads| && !s.threads[t].pc.Idle? && r.tid == t && r.call == s.threads[t].call
    ensures AnswersStep(s, Finish(s, t, r), t)
  {
    assert Finish(s, t, r).done == s.done + [r];
  }

  lemma ActAnswers(s: State, t: nat, spurious: bool)
    requires t < |s.threads| && !s.threads[t].pc.Idle? && !Looking(s, s.threads[t].pc)
    ensures AnswersStep(s, Act(s, t, spurious), t)
  {
    var th := s.threads[t];
    match th.pc
    case EnqSwing(node, last, at) =>
      FinishAnswers(CasTail(s, last, node), t, Enqueued(t, th.call, th.arg, th.start, at, |s.log|));
    case DeqCheck(_, _, _) =>
      FinishAnswers(s, t, FoundEmpty(t, th.call, th.start, th.sawEmptyAt, |s.log|));
    case DeqMove(taken, at) =>
      if taken < |s.nodes| {
        FinishAnswers(MarkMoved(s, taken), t, Dequeued(t, th.call, DataOf(s, taken), th.start, at, |s.log|));
      }
    case _ =>
  }

  lemma StepAnswers(s: State, t: nat, a: Action)
    requires t < |s.threads|
    ensures AnswersStep(s, Step(s, t, a), t)
  {
    if a.Go? && !s.threads[t].pc.Idle? && !Looking(s, s.threads[t].pc) {
      ActAnswers(s, t, a.spurious);
    }
  }

  ghost predicate Answered(done: seq<Response>, t: nat, c: nat) {
    exists i :: 0 <= i < |done| && done[i].tid == t && done[i].call == c
  }

  lemma AnsweredMore(done: seq<Response>, r: Response, t: nat, c: nat)
    requires Answered(done, t, c) || (r.tid == t && r.call == c)
    ensures Answered(done + [r], t, c)
  {
    if Answered(done, t, c) {
      var i :| 0 <= i < |done| && done[i].tid == t && done[i].call == c;
      assert (done + [r])[i] == done[i];
    } else {
      assert (done + [r])[|done|] == r;
    }
  }

  /** Every call that has returned has a response, which QueueIsLinearizable judges. */
  lemma {:induction false} ReturnedCallsAnswered(threads: nat, blank: Value, schedule: seq<(nat, Action)>, t: nat, c: nat)
    requires Returned(Run(threads, blank, schedule), t, c)
    ensures Answered(Run(threads, blank, schedule).done, t, c)
  {
    var (u, a) := schedule[|schedule| - 1];
    var s := Run(threads, blank, schedule[..|schedule| - 1]);
    if Returned(s, t, c) {
      ReturnedCallsAnswered(threads, blank, schedule[..|schedule| - 1], t, c);
    }
    if u < threads {
      StepAnswers(s, u, a);
      var s' := Step(s, u, a);
      if s'.done != s.done {
        var r :| s'.done == s.done + [r] && r.tid == u && r.call == s.threads[u].call;
        AnsweredMore(s.done, r, t, c);
      }
    }
  }

  // ---------- What the calls were asked for ----------

  /** The operations that thread t was asked for, first call first: those that the schedule begins
      while t is idle. */
  function Asked(threads: nat, blank: Value, schedule: seq<(nat, Action)>, t: nat): seq<Op> {
    if schedule == [] then []
    else
      var ((u, a), front) := (schedule[|schedule| - 1], schedule[..|schedule| - 1]);
      Asked(threads, blank, front, t) +
      if u == t < threads && a.Begin? && Run(threads, blank, front).threads[t].pc.Idle? then [a.op] else []
  }

  // What a thread that is inside a call is working on.
  predicate Doing(th: Thread, op: Op) {
    match th.pc
    case Idle => true
    case Crashed => true
    case EnqLoadTail(_) => op == Enqueue(th.arg)
    case EnqLoadNext(_, _) => op == Enqueue(th.arg)
    case EnqCheck(_, _, _) => op == Enqueue(th.arg)
    case EnqLink(_, _) => op == Enqueue(th.arg)
    case EnqHelp(_, _, _) => op == Enqueue(th.arg)
    case EnqSwing(_, _, _) => op == Enqueue(th.arg)
    case _ => op == Dequeue
  }

  // An effect, and a response, of a call that was asked for this operation.
  predicate EffectOf(e: Effect, op: Op) {
    match e
    case Put(_, _, v) => op == Enqueue(v)
    case Take(_, _, _) => op == Dequeue
  }

  predicate ResponseTo(r: Response, op: Op) {
    match r
    case Enqueued(_, _, v, _, _, _) => op == Enqueue(v)
    case Dequeued(_, _, _, _, _, _) => op == Dequeue
    case FoundEmpty(_, _, _, _, _) => op == Dequeue
  }

  // Inside a call for op, thread t goes on with it, and what it adds to the history is about it.
  ghost predicate WorksOn(s: State, s': State, t: nat, op: Op)
    requires t < |s.threads| == |s'.threads|
  {
    var (th, th') := (s.threads[t], s'.threads[t]);
    && th'.call == th.call && th'.start == th.start && Doing(th', op)
    && (s'.log == s.log || exists e :: s'.log == s.log + [e] && e.tid == t && e.call == th.call && EffectOf(e, op))
    && (s'.done == s.done || exists r :: s'.done == s.done + [r] && r.tid == t && r.call == th.call && r.start == th.start && ResponseTo(r, op))
    && forall u :: 0 <= u < |s.threads| && u != t ==> s'.threads[u] == s.threads[u]
  }

  lemma EnqueueWorksOn(s: State, t: nat, spurious: bool, op: Op)
    requires t < |s.threads| && Doing(s.threads[t], op)
    requires s.threads[t].pc.EnqLink? || s.threads[t].pc.EnqHelp? || s.threads[t].pc.EnqSwing?
    ensures WorksOn(s, Act(s, t, spurious), t, op)
  {}

  lemma DequeueWorksOn(s: State, t: nat, spurious: bool, op: Op)
    requires t < |s.threads| && Doing(s.threads[t], op) && !s.threads[t].pc.Idle?
    requires !s.threads[t].pc.EnqLink? && !s.threads[t].pc.EnqHelp? && !s.threads[t].pc.EnqSwing? && !Looking(s, s.threads[t].pc)
    ensures WorksOn(s, Act(s, t, spurious), t, op)
  {}

  lemma CallWorksOn(s: State, t: nat, a: Action, op: Op)
    requires t < |s.threads| && Doing(s.threads[t], op) && !s.threads[t].pc.Idle?
    ensures WorksOn(s, Step(s, t, a), t, op)
  {
    hide Act;
    var pc := s.threads[t].pc;
    if a.Go? && !Looking(s, pc) {
      if pc.EnqLink? || pc.EnqHelp? || pc.EnqSwing? {
        EnqueueWorksOn(s, t, a.spurious, op);
      } else {
        DequeueWorksOn(s, t, a.spurious, op);
      }
    }
  }

  // The history of thread t is about what it was asked for.
  ghost predicate AnswersTo(s: State, t: nat, asked: seq<Op>)
    requires t < |s.threads|
  {
    && |asked| == s.threads[t].call
    && (!s.threads[t].pc.Idle? ==> |asked| > 0 && Doing(s.threads[t], asked[|asked| - 1]))
    && (forall i :: 0 <= i < |s.log| && s.log[i].tid == t ==>
          1 <= s.log[i].call <= |asked| && EffectOf(s.log[i], asked[s.log[i].call - 1]))
    && (forall i :: 0 <= i < |s.done| && s.done[i].tid == t ==>
          1 <= s.done[i].call <= |asked| && ResponseTo(s.done[i], asked[s.done[i].call - 1]))
  }

  // Every thread inside a call is working on something.
  function SomeOp(th: Thread): (op: Op)
    ensures Doing(th, op)
  {
    if th.pc.EnqSwing? || PrivateNode(th.pc).Some? then Enqueue(th.arg) else Dequeue
  }

  lemma StepAnswersTo(s: State, u: nat, a: Action, t: nat, asked: seq<Op>)
    requires t < |s.threads| && u < |s.threads| && AnswersTo(s, t, asked)
    ensures AnswersTo(Step(s, u, a), t, asked + if u == t && a.Begin? && s.threads[t].pc.Idle? then [a.op] else [])
  {
    hide Act, Look;
    if s.threads[u].pc.Idle? {
      IdleStep(s, u, a);
    } else {
      assert asked + [] == asked;
      CallWorksOn(s, u, a, if u == t then asked[|asked| - 1] else SomeOp(s.threads[u]));
      hide Step;
    }
  }

  lemma IdleStep(s: State, u: nat, a: Action)
    requires u < |s.threads| && s.threads[u].pc.Idle?
    ensures var s' := Step(s, u, a);
            && s'.log == s.log && s'.done == s.done
            && (forall k :: 0 <= k < |s.threads| && k != u ==> s'.threads[k] == s.threads[k])
            && (a.Go? ==> s'.threads[u] == s.threads[u])
            && (a.Begin? ==>
                  && s'.threads[u].call == s.threads[u].call + 1 && s'.threads[u].start == |s.log|
                  && !s'.threads[u].pc.Idle? && Doing(s'.threads[u], a.op))
  {}

  /** Over every run: thread t has begun exactly the calls it was asked for, and every effect and
      every response of one of its calls is of the operation, with the value, that this very call
      was asked for. */
  lemma {:induction false} AnswersWhatWasAsked(threads: nat, blank: Value, schedule: seq<(nat, Action)>, t: nat)
    requires t < threads
    ensures AnswersTo(Run(threads, blank, schedule), t, Asked(threads, blank, schedule, t))
  {
    if schedule != [] {
      var ((u, a), front) := (schedule[|schedule| - 1], schedule[..|schedule| - 1]);
      var asked := Asked(threads, blank, front, t);
      assert asked + [] == asked;
      AnswersWhatWasAsked(threads, blank, front, t);
      hide Step, AnswersTo;
      if u < threads {
        StepAnswersTo(Run(threads, blank, front), u, a, t, asked);
      }
    }
  }

  // Call c of thread t has a response to this operation.
  ghost predicate AnsweredTo(done: seq<Response>, t: nat, c: nat, op: Op) {
    exists i :: 0 <= i < |done| && done[i].tid == t && done[i].call == c && ResponseTo(done[i], op)
  }

  /** Every call that thread t was asked for, but for the one it is still inside, has a response to
      what was asked. */
  lemma CallsAnswered(threads: nat, blank: Value, schedule: seq<(nat, Action)>, t: nat, c: nat)
    requires t < threads && 1 <= c <= |Asked(threads, blank, schedule, t)|
    requires c == |Asked(threads, blank, schedule, t)| ==> Run(threads, blank, schedule).threads[t].pc.Idle?
    ensures AnsweredTo(Run(threads, blank, schedule).done, t, c, Asked(threads, blank, schedule, t)[c - 1])
  {
    hide Run, Returned, Answered, AnswersTo, AnsweredTo;
    var (s, asked) := (Run(threads, blank, schedule), Asked(threads, blank, schedule, t));
    AnswersWhatWasAsked(threads, blank, schedule, t);
    AllReturned(s, t, asked, c);
    ReturnedCallsAnswered(threads, blank, schedule, t, c);
    AnsweredAsAsked(s, t, asked, c);
  }

  lemma AllReturned(s: State, t: nat, asked: seq<Op>, c: nat)
    requires t < |s.threads| && AnswersTo(s, t, asked) && 1 <= c <= |asked| && (c == |asked| ==> s.threads[t].pc.Idle?)
    ensures Returned(s, t, c)
  {}

  lemma AnsweredAsAsked(s: State, t: nat, asked: seq<Op>, c: nat)
    requires t < |s.threads| && AnswersTo(s, t, asked) && 1 <= c <= |asked| && Answered(s.done, t, c)
    ensures AnsweredTo(s.done, t, c, asked[c - 1])
  {
    var i :| 0 <= i < |s.done| && s.done[i].tid == t && s.done[i].call == c;
    assert ResponseTo(s.done[i], asked[s.done[i].call - 1]);
  }

  // What thread t has begun since `before` began after all that was in the log then.
  ghost predicate LaterThan(before: State, s: State, t: nat)
    requires t < |before.threads| && t < |s.threads|
  {
    var c := before.threads[t].call;
    && |before.log| <= |s.log| && c <= s.threads[t].call
    && |before.done| <= |s.done| && before.done == s.done[..|before.done|]
    && (s.threads[t].call > c ==> |before.log| <= s.threads[t].start)
    && forall i :: 0 <= i < |s.done| && s.done[i].tid == t && s.done[i].call > c ==> |before.log| <= s.done[i].start
  }

  lemma StepLater(before: State, s: State, u: nat, a: Action, t: nat)
    requires t < |before.threads| && t < |s.threads| && u < |s.threads| && LaterThan(before, s, t)
    ensures LaterThan(before, Step(s, u, a), t)
  {
    if s.threads[u].pc.Idle? {
      IdleStep(s, u, a);
    } else {
      CallWorksOn(s, u, a, SomeOp(s.threads[u]));
    }
    hide Step, Doing, EffectOf, ResponseTo;
  }

  lemma {:induction false} RunLater(threads: nat, blank: Value, schedule: seq<(nat, Action)>, more: seq<(nat, Action)>, t: nat)
    requires t < threads
    ensures LaterThan(Run(threads, blank, schedule), Run(threads, blank, schedule + more), t)
    decreases |more|
  {
    hide Run, Step, LaterThan;
    if more == [] {
      assert schedule + more == schedule;
      RunKeeps(threads, blank, schedule);
      LaterAtOnce(Run(threads, blank, schedule), t);
    } else {
      var (front, (u, a)) := (more[..|more| - 1], more[|more| - 1]);
      RunLater(threads, blank, schedule, front, t);
      RunNext(threads, blank, schedule, more);
      if u < threads {
        StepLater(Run(threads, blank, schedule), Run(threads, blank, schedule + front), u, a, t);
      }
    }
  }

  lemma LaterAtOnce(s: State, t: nat)
    requires t < |s.threads| && CallsOk(s)
    ensures LaterThan(s, s, t)
  {}

  /** Real-time order: a call that has returned after `schedule` takes effect before any call that
      is begun later. */
  lemma RealTimeOrder(threads: nat, blank: Value, schedule: seq<(nat, Action)>, more: seq<(nat, Action)>, i: nat, j: nat)
    requires i < |Run(threads, blank, schedule).done| && j < |Run(threads, blank, schedule + more).done|
    requires var r := Run(threads, blank, schedule + more).done[j];
             r.tid < threads && r.call > Run(threads, blank, schedule).threads[r.tid].call
    ensures var done := Run(threads, blank, schedule + more).done;
            && i < |done| && done[i] == Run(threads, blank, schedule).done[i]
            && done[i].at <= done[j].at && (!done[i].FoundEmpty? ==> done[i].at < done[j].at)
  {
    var (s, s') := (Run(threads, blank, schedule), Run(threads, blank, schedule + more));
    RunKeeps(threads, blank, schedule);
    RunKeeps(threads, blank, schedule + more);
    assert Agrees(s.log, s.done[i]) && Agrees(s'.log, s'.done[j]);
    hide Run, Inv;
    RunLater(threads, blank, schedule, more, s'.done[j].tid);
  }

  // ---------- Progress of a thread that runs alone ----------

  // Thread t takes n steps, none of which fails spuriously, while all others are stopped.
  function Alone(s: State, t: nat, n: nat): (s': State)
    requires t < |s.threads|
    ensures |s'.threads| == |s.threads|
    decreases n
  {
    if n == 0 then s else Alone(Step(s, t, Go(false)), t, n - 1)
  }

  // The most steps an enqueue needs from its first load; twice round if tail lags.
  ghost function EnqueueCost(s: State): nat {
    if s.tailPos + 1 < |s.chain| then 9 else 5
  }

  ghost function DequeueCost(s: State): nat {
    if s.headPos < s.tailPos then 6 else if s.tailPos + 1 < |s.chain| then 11 else 4
  }

  const MOST := 14

  /** An upper bound on the steps thread t needs, running alone, to finish its call. */
  ghost function Cost(s: State, pc: Pc): nat {
    match pc
    case Idle => 0
    case EnqLoadTail(_) => EnqueueCost(s)
    case EnqLoadNext(_, last) => if last == s.tail then EnqueueCost(s) - 1 else 2 + EnqueueCost(s)
    case EnqCheck(_, last, next) =>
      if last != s.tail then 1 + EnqueueCost(s)
      else if next == NextOf(s, last) then EnqueueCost(s) - 2
      else 2 + EnqueueCost(s)
    case EnqLink(_, last) => if NextOf(s, last) == None then 2 else 1 + EnqueueCost(s)
    case EnqHelp(_, last, _) => if last == s.tail then 6 else 1 + EnqueueCost(s)
    case EnqSwing(_, _, _) => 1
    case DeqLoadHead => DequeueCost(s)
    case DeqLoadTail(first) => if first == s.head then DequeueCost(s) - 1 else 3 + DequeueCost(s)
    case DeqLoadNext(first, last) =>
      if first != s.head then 2 + DequeueCost(s)
      else if last == s.tail then DequeueCost(s) - 2
      else if first == last then 3 + DequeueCost(s)
      else 4
    case DeqCheck(first, last, next) =>
      if first != s.head then 1 + DequeueCost(s)
      else if first != last then 3
      else if next == None then 1
      else 1 + HelpCost(s, last)
    case DeqHelp(last, _) => HelpCost(s, last)
    case DeqSwing(first, _) => if first == s.head then 2 else 1 + DequeueCost(s)
    case DeqMove(_, _) => 1
    case Crashed => 0
  }

  ghost function HelpCost(s: State, last: nat): nat {
    if last == s.tail then 7 else 1 + DequeueCost(s)
  }

  lemma EnqueueCostDrops(s: State, t: nat)
    requires Shape(s) && t < |s.threads| && ThreadOk(s, t, s.threads[t])
    requires PrivateNode(s.threads[t].pc).Some? || s.threads[t].pc.EnqSwing?
    ensures var s' := Step(s, t, Go(false));
            Cost(s', s'.threads[t].pc) < Cost(s, s.threads[t].pc)
  {
    assert NextIsChained(s, s.tail);
    match s.threads[t].pc
    case EnqLoadNext(_, last) => assert NextIsChained(s, last);
    case EnqCheck(_, last, _) => assert NextIsChained(s, last);
    case EnqLink(_, last) =>
      assert NextIsChained(s, last);
      assert s.chain[s.pos[last]] == last;
    case EnqHelp(_, last, after) =>
      assert s.chain[s.pos[last]] == last && s.chain[s.pos[after]] == after;
    case _ =>
  }

  lemma DequeueLoadCosts(s: State, t: nat)
    requires Shape(s) && t < |s.threads| && ThreadOk(s, t, s.threads[t])
    requires var pc := s.threads[t].pc; pc.DeqLoadHead? || pc.DeqLoadTail? || pc.DeqLoadNext?
    ensures var s' := Step(s, t, Go(false));
            Cost(s', s'.threads[t].pc) < Cost(s, s.threads[t].pc)
  {
    assert NextIsChained(s, s.head);
    if s.threads[t].pc.DeqLoadNext? {
      var DeqLoadNext(first, last) := s.threads[t].pc;
      assert s.chain[s.pos[first]] == first && s.chain[s.pos[last]] == last;
      assert NextIsChained(s, first);
    }
  }

  lemma DequeueActCosts(s: State, t: nat)
    requires Shape(s) && t < |s.threads| && ThreadOk(s, t, s.threads[t])
    requires var pc := s.threads[t].pc; pc.DeqCheck? || pc.DeqHelp? || pc.DeqSwing? || pc.DeqMove?
    ensures var s' := Step(s, t, Go(false));
            Cost(s', s'.threads[t].pc) < Cost(s, s.threads[t].pc)
  {
    assert NextIsChained(s, s.head);
    match s.threads[t].pc
    case DeqCheck(first, last, _) =>
      assert s.chain[s.pos[first]] == first && s.chain[s.pos[last]] == last;
    case DeqHelp(last, after) =>
      assert s.chain[s.pos[last]] == last && s.chain[s.pos[after]] == after;
    case DeqSwing(first, next) =>
      assert s.chain[s.pos[next.value]] == next.value;
    case _ =>
  }

  lemma DequeueCostDrops(s: State, t: nat)
    requires Shape(s) && t < |s.threads| && ThreadOk(s, t, s.threads[t]) && PrivateNode(s.threads[t].pc).None?
    requires !s.threads[t].pc.Idle? && !s.threads[t].pc.EnqSwing?
    ensures var s' := Step(s, t, Go(false));
            Cost(s', s'.threads[t].pc) < Cost(s, s.threads[t].pc)
  {
    hide Step, Cost, Shape;
    if s.threads[t].pc.DeqLoadHead? || s.threads[t].pc.DeqLoadTail? || s.threads[t].pc.DeqLoadNext? {
      DequeueLoadCosts(s, t);
    } else {
      DequeueActCosts(s, t);
    }
  }

  lemma CostDrops(s: State, t: nat)
    requires Inv(s) && t < |s.threads|
    ensures Cost(s, s.threads[t].pc) <= MOST
    ensures Cost(s, s.threads[t].pc) == 0 ==> s.threads[t].pc.Idle?
    ensures !s.threads[t].pc.Idle? ==>
              var s' := Step(s, t, Go(false));
              Cost(s', s'.threads[t].pc) < Cost(s, s.threads[t].pc)
  {
    assert ThreadOk(s, t, s.threads[t]);
    if s.threads[t].pc.Idle? {
    } else if PrivateNode(s.threads[t].pc).Some? || s.threads[t].pc.EnqSwing? {
      EnqueueCostDrops(s, t);
    } else {
      DequeueCostDrops(s, t);
    }
  }

  lemma {:induction false} AloneFinishes(s: State, t: nat, budget: nat) returns (n: nat)
    requires Inv(s) && t < |s.threads| && Cost(s, s.threads[t].pc) <= budget
    ensures n <= budget && Alone(s, t, n).threads[t].pc.Idle?
    decreases budget
  {
    hide Inv, Step;
    CostDrops(s, t);
    if s.threads[t].pc.Idle? {
      n := 0;
    } else {
      StepKept(s, t, Go(false));
      var m := AloneFinishes(Step(s, t, Go(false)), t, budget - 1);
      n := m + 1;
    }
  }

  /** Obstruction freedom: from every reachable state, a thread that runs alone, with
      compare-and-swaps that do not fail spuriously, finishes its call within 14 of its own steps. */
  lemma ObstructionFree(threads: nat, blank: Value, schedule: seq<(nat, Action)>, t: nat)
    requires t < threads
    ensures exists n :: 0 <= n <= MOST && Alone(Run(threads, blank, schedule), t, n).threads[t].pc.Idle?
  {
    RunKeeps(threads, blank, schedule);
    CostDrops(Run(threads, blank, schedule), t);
    var n := AloneFinishes(Run(threads, blank, schedule), t, MOST);
  }

  // ---------- Progress of all threads together ----------

  // What the first k threads still need, if nobody gets in their way.
  ghost function Total(s: State, k: nat): nat
    requires k <= |s.threads|
  {
    if k == 0 then 0 else Total(s, k - 1) + Cost(s, s.threads[k - 1].pc)
  }

  // Is tail one node behind, so that helping it along is still to come?
  ghost predicate Lags(s: State) {
    s.tailPos + 1 < |s.chain|
  }

  /** How many steps threads inside calls can still take before some call takes effect or
      returns: helping tail along can send every thread round once more, but only once. */
  ghost function Potential(s: State): nat {
    Total(s, |s.threads|) + if Lags(s) then MOST * |s.threads| else 0
  }

  // The effects and the returns of calls so far.
  function Progress(s: State): nat {
    |s.log| + |s.done|
  }

  lemma {:induction false} TotalAtMost(s: State, k: nat)
    requires Inv(s) && k <= |s.threads|
    ensures Total(s, k) <= MOST * k
  {
    hide Inv, Cost;
    if k > 0 {
      TotalAtMost(s, k - 1);
      CostDrops(s, k - 1);
    }
  }

  lemma {:induction false} TotalAtLeast(s: State, t: nat, k: nat)
    requires t < k <= |s.threads|
    ensures Cost(s, s.threads[t].pc) <= Total(s, k)
  {
    if t < k - 1 {
      TotalAtLeast(s, t, k - 1);
    }
  }

  // Nothing that Cost looks at is changed.
  ghost predicate SameView(s: State, s': State) {
    && (forall p: nat :: NextOf(s', p) == NextOf(s, p)) && s'.chain == s.chain && s'.head == s.head && s'.headPos == s.headPos
    && s'.tail == s.tail && s'.tailPos == s.tailPos
  }

  lemma SameCost(s: State, s': State, pc: Pc)
    requires SameView(s, s')
    ensures Cost(s', pc) == Cost(s, pc)
  {}

  lemma {:induction false} TotalChanges(s: State, s': State, t: nat, k: nat)
    requires SameView(s, s') && t < |s.threads| && k <= |s.threads|
    requires |s'.threads| == |s.threads| && forall u :: 0 <= u < |s.threads| && u != t ==> s'.threads[u] == s.threads[u]
    ensures Total(s', k) ==
            Total(s, k) + if t < k then Cost(s', s'.threads[t].pc) - Cost(s, s.threads[t].pc) else 0
  {
    hide Cost, SameView;
    if k > 0 {
      SameCost(s, s', s.threads[k - 1].pc);
      TotalChanges(s, s', t, k - 1);
    }
  }

  // Nothing but the thread that took the step, and perhaps tail, has changed.
  ghost predicate QuietlyMoved(s: State, s': State, t: nat) {
    && |s'.threads| == |s.threads|
    && (forall u :: 0 <= u < |s.threads| && u != t ==> s'.threads[u] == s.threads[u])
    && s'.chain == s.chain && (s'.tailPos == s.tailPos ==> SameView(s, s')) && s.tailPos <= s'.tailPos <= s.tailPos + 1
  }

  lemma QuietStep(s: State, t: nat, spurious: bool)
    requires t < |s.threads| && !s.threads[t].pc.Idle?
    requires Progress(Step(s, t, Go(spurious))) == Progress(s)
    ensures QuietlyMoved(s, Step(s, t, Go(spurious)), t)
  {
    hide Look, Act;
    var pc := s.threads[t].pc;
    if !Looking(s, pc) {
      if pc.EnqLink? || pc.EnqHelp? || pc.EnqSwing? {
        QuietEnqueue(s, t, spurious);
      } else {
        QuietDequeue(s, t, spurious);
      }
    }
  }

  lemma QuietEnqueue(s: State, t: nat, spurious: bool)
    requires t < |s.threads| && Progress(Act(s, t, spurious)) == Progress(s)
    requires s.threads[t].pc.EnqLink? || s.threads[t].pc.EnqHelp? || s.threads[t].pc.EnqSwing?
    ensures QuietlyMoved(s, Act(s, t, spurious), t)
  {}

  lemma QuietDequeue(s: State, t: nat, spurious: bool)
    requires t < |s.threads| && Progress(Act(s, t, spurious)) == Progress(s)
    requires !s.threads[t].pc.EnqLink? && !s.threads[t].pc.EnqHelp? && !s.threads[t].pc.EnqSwing?
    ensures QuietlyMoved(s, Act(s, t, spurious), t)
  {}

  /** A step of a thread inside a call uses up some of the potential, unless some call takes
      effect or returns, or a compare-and-swap fails spuriously. */
  lemma StepIsPaidFor(s: State, t: nat, spurious: bool)
    requires Inv(s) && t < |s.threads| && !s.threads[t].pc.Idle?
    ensures var s' := Step(s, t, Go(spurious));
            Progress(s') == Progress(s) ==>
              Potential(s') + 1 <= Potential(s) + if spurious then MOST + 1 else 0
  {
    var s' := Step(s, t, Go(spurious));
    StepKept(s, t, Go(spurious));
    var n := |s.threads|;
    assert Shape(s) && Shape(s');
    hide Inv, Step, Cost, Total, Shape;
    if Progress(s') == Progress(s) {
      QuietStep(s, t, spurious);
      CostDrops(s, t);
      CostDrops(s', t);
      if s'.tailPos == s.tailPos {
        TotalChanges(s, s', t, n);
      } else {
        assert Lags(s) && !Lags(s') by {
          assert |s'.chain| <= s.tailPos + 2 && s'.tailPos < |s'.chain|;
        }
        TotalAtLeast(s, t, n);
        TotalAtMost(s', n);
      }
    }
  }

  // The steps in `more` that threads inside calls take, after `schedule`.
  function Steps(threads: nat, blank: Value, schedule: seq<(nat, Action)>, more: seq<(nat, Action)>): nat {
    if more == [] then 0
    else
      var (front, step) := (more[..|more| - 1], more[|more| - 1]);
      Steps(threads, blank, schedule, front)
      + if step.1.Go? && InCall(Run(threads, blank, schedule + front), step.0) then 1 else 0
  }

  predicate InCall(s: State, t: nat) {
    t < |s.threads| && !s.threads[t].pc.Idle?
  }

  // What new calls and spurious failures may add to the potential.
  function Added(more: seq<(nat, Action)>): nat {
    if more == [] then 0
    else
      Added(more[..|more| - 1]) +
      match more[|more| - 1].1
      case Begin(_) => MOST
      case Go(spurious) => if spurious then MOST + 1 else 0
  }

  ghost function Round(threads: nat): nat {
    2 * MOST * threads + 1
  }

  lemma PotentialAtMost(s: State)
    requires Inv(s)
    ensures Potential(s) < Round(|s.threads|)
  {
    TotalAtMost(s, |s.threads|);
  }

  lemma ActAdds(s: State, t: nat, spurious: bool)
    requires t < |s.threads|
    ensures Progress(s) <= Progress(Act(s, t, spurious)) <= Progress(s) + 1
  {}

  lemma AtMostOne(s: State, t: nat, a: Action)
    requires t < |s.threads|
    ensures Progress(s) <= Progress(Step(s, t, a)) <= Progress(s) + 1
  {
    hide Act;
    if a.Go? {
      ActAdds(s, t, a.spurious);
    }
  }

  lemma BeginAdds(s: State, t: nat, op: Op)
    requires Inv(s) && t < |s.threads|
    ensures Potential(Step(s, t, Begin(op))) <= Potential(s) + MOST && Progress(Step(s, t, Begin(op))) == Progress(s)
  {
    var s' := Step(s, t, Begin(op));
    StepKept(s, t, Begin(op));
    CostDrops(s', t);
    hide Inv, Cost;
    TotalChanges(s, s', t, |s.threads|);
  }

  // One more action by any thread.
  lemma ActionIsPaidFor(s: State, t: nat, a: Action)
    requires Inv(s) && t < |s.threads|
    ensures var s' := Step(s, t, a);
            && Progress(s) <= Progress(s') <= Progress(s) + 1
            && Potential(s') + (if a.Go? && InCall(s, t) then 1 else 0) <=
               Potential(s) + (if Progress(s') == Progress(s) then 0 else Round(|s.threads|)) + Added([(t, a)])
  {
    var s' := Step(s, t, a);
    StepKept(s, t, a);
    AtMostOne(s, t, a);
    PotentialAtMost(s');
    assert Added([(t, a)]) == if a.Begin? then MOST else if a.spurious then MOST + 1 else 0;
    if a.Begin? {
      BeginAdds(s, t, a.op);
    } else if !s.threads[t].pc.Idle? {
      StepIsPaidFor(s, t, a.spurious);
    }
  }

  lemma RunNext(threads: nat, blank: Value, schedule: seq<(nat, Action)>, more: seq<(nat, Action)>)
    requires more != []
    ensures var (front, (t, a)) := (more[..|more| - 1], more[|more| - 1]);
            var s := Run(threads, blank, schedule + front);
            Run(threads, blank, schedule + more) == if t < threads then Step(s, t, a) else s
  {
    hide Step;
    assert (schedule + more)[..|schedule + more| - 1] == schedule + more[..|more| - 1];
  }

  // For a further action: what it changes by, when `was` and `now` are the progress before it and after.
  lemma OneMore(round: nat, first: nat, was: nat, now: nat)
    requires first <= was <= now <= was + 1
    ensures round * (now - first) == round * (was - first) + if now == was then 0 else round
  {}

  /** Lock freedom, over any run with any number of spurious failures: the steps that threads
      inside calls take are paid for by the calls that take effect or return, by the calls begun
      and by the spurious failures. */
  lemma {:induction false} StepsArePaidFor(threads: nat, blank: Value, schedule: seq<(nat, Action)>, more: seq<(nat, Action)>)
    ensures var (s, s') := (Run(threads, blank, schedule), Run(threads, blank, schedule + more));
            && Progress(s) <= Progress(s')
            && Steps(threads, blank, schedule, more) + Potential(s') <=
               Potential(s) + Round(threads) * (Progress(s') - Progress(s)) + Added(more)
    decreases |more|
  {
    hide Step, Run, Potential, Round, Progress, Inv;
    if more == [] {
      assert schedule + more == schedule;
    } else {
      var (front, (t, a)) := (more[..|more| - 1], more[|more| - 1]);
      var (s0, s) := (Run(threads, blank, schedule), Run(threads, blank, schedule + front));
      StepsArePaidFor(threads, blank, schedule, front);
      RunKeeps(threads, blank, schedule + front);
      RunNext(threads, blank, schedule, more);
      if t < threads {
        ActionIsPaidFor(s, t, a);
        OneMore(Round(threads), Progress(s0), Progress(s), Progress(Step(s, t, a)));
      }
    }
  }

  /** Lock freedom: from every reachable state, when threads inside calls take more steps than
      28 for each thread, in any order and with no spurious failure, then meanwhile some call has
      taken effect or returned. */
  lemma LockFree(threads: nat, blank: Value, schedule: seq<(nat, Action)>, more: seq<(nat, Action)>)
    requires forall i :: 0 <= i < |more| ==>
               more[i].1 == Go(false) && InCall(Run(threads, blank, schedule + more[..i]), more[i].0)
    requires |more| > 2 * MOST * threads
    ensures Progress(Run(threads, blank, schedule)) < Progress(Run(threads, blank, schedule + more))
  {
    hide Run, Inv, Potential, Progress;
    StepsArePaidFor(threads, blank, schedule, more);
    RunKeeps(threads, blank, schedule);
    PotentialAtMost(Run(threads, blank, schedule));
    AllSteps(threads, blank, schedule, more);
  }

  lemma {:induction false} AllSteps(threads: nat, blank: Value, schedule: seq<(nat, Action)>, more: seq<(nat, Action)>)
    requires forall i :: 0 <= i < |more| ==>
               more[i].1 == Go(false) && InCall(Run(threads, blank, schedule + more[..i]), more[i].0)
    ensures Steps(threads, blank, schedule, more) == |more| && Added(more) == 0
    decreases |more|
  {
    hide Run;
    if more != [] {
      var front := more[..|more| - 1];
      assert forall i :: 0 <= i < |front| ==> front[..i] == more[..i];
      AllSteps(threads, blank, schedule, front);
    }
  }
}
