/**
  The stamped ring of examples/lock_free/lockfree_mpmc_queue.hpp as a transition system
  over an arbitrary number of threads.

  The code claims a position by compare-and-swap first and only afterwards compares the
  stamp it had loaded before, and it filters stamps by parity.  `enq`, `deq` (one record
  per claimed position) and the `lapped` mark of a program counter are history.
  Positions are unbounded, as the source's comment on head_ assumes.
 */
module MpmcRing {
  import opened Wrappers
  import opened Residues

  type Value(==, !new, 0)

  datatype Slot = Slot(stamp: nat, data: Option<Value>)

  // A claimed position: by which thread, and whether its stamp has been stored since.
  datatype Write = Write(v: Value, owner: nat, stored: bool)
  datatype Read = Read(v: Option<Value>, owner: nat, stored: bool)

  datatype Response =
    | Enqueued(pos: nat, v: Value)
    | Hole(pos: nat, v: Value)             // claimed, but the stamp did not match: returned false
    | Dequeued(pos: nat, v: Value)
    | FoundEmpty(headSeen: nat, tailNow: nat)

  datatype Pc =
    | Idle
    | EnqLoad(v: Value)
    | EnqStamp(v: Value, pos: nat)
    | EnqCas(v: Value, pos: nat, stamp: nat, lapped: bool)
    | EnqConstruct(v: Value, pos: nat)
    | EnqPublish(v: Value, pos: nat)
    | DeqLoad
    | DeqStamp(pos: nat)
    | DeqHead(pos: nat)
    | DeqCas(pos: nat, stamp: nat, lapped: bool)
    | DeqTake(pos: nat)
    | DeqRelease(pos: nat, v: Value)
    | Broken                               // moved data out of an empty slot

  datatype State = State(
    slots: seq<Slot>, head: nat, tail: nat, threads: seq<Pc>,
    enq: seq<Write>, deq: seq<Read>, done: seq<Response>)

  datatype Action = Enqueue(v: Value) | Dequeue | Go(spurious: bool)

  // The constructor's test, as arithmetic.  The test lets a capacity of zero through as well, with
  // which every call indexes an empty buffer; that is not modelled.
  predicate PowerOfTwo(n: nat) {
    n == 1 || (n > 0 && n % 2 == 0 && PowerOfTwo(n / 2))
  }

  function Init(capacity: nat, threads: nat): State {
    State(seq(capacity, (i: nat) => Slot(i, None)), 0, 0, seq(threads, _ => Idle), [], [], [])
  }

  function SlotAt(s: State, pos: nat): Slot
    requires |s.slots| > 0
  {
    s.slots[pos % |s.slots|]
  }

  function PutSlot(s: State, pos: nat, slot: Slot): State
    requires |s.slots| > 0
  {
    s.(slots := s.slots[pos % |s.slots| := slot])
  }

  // The enqueue (or dequeue) of position pos - capacity has not stored its stamp yet.
  predicate EnqueueLaps(s: State, pos: nat) {
    pos >= |s.slots| && pos - |s.slots| < |s.enq| && !s.enq[pos - |s.slots|].stored
  }

  predicate DequeueLaps(s: State, pos: nat) {
    pos >= |s.slots| && pos - |s.slots| < |s.deq| && !s.deq[pos - |s.slots|].stored
  }

  // The next step of this thread wins its compare-and-swap.
  predicate Claims(s: State, pc: Pc, spurious: bool) {
    !spurious && ((pc.EnqCas? && pc.pos == s.head) || (pc.DeqCas? && pc.pos == s.tail))
  }

  function Effect(s: State, t: nat, spurious: bool): State
    requires t < |s.threads| && |s.slots| > 0
  {
    match s.threads[t]
    case EnqCas(v, pos, stamp, _) =>
      if !Claims(s, s.threads[t], spurious) then s
      else
        var s' := s.(head := s.head + 1, enq := s.enq + [Write(v, t, false)]);
        if stamp == pos then s' else s'.(done := s.done + [Hole(pos, v)])
    case EnqConstruct(v, pos) => PutSlot(s, pos, SlotAt(s, pos).(data := Some(v)))
    case EnqPublish(v, pos) =>
      var s' := PutSlot(s, pos, SlotAt(s, pos).(stamp := pos + 1)).(done := s.done + [Enqueued(pos, v)]);
      if pos < |s.enq| then s'.(enq := s.enq[pos := s.enq[pos].(stored := true)]) else s'
    case DeqHead(pos) =>
      if s.head <= pos then s.(done := s.done + [FoundEmpty(s.head, s.tail)]) else s
    case DeqCas(pos, stamp, _) =>
      if !Claims(s, s.threads[t], spurious) then s
      else
        var s' := s.(tail := s.tail + 1, deq := s.deq + [Read(None, t, false)]);
        if stamp != pos then s' else s'.(done := s.done + [FoundEmpty(s.head, s.tail)])
    case DeqTake(pos) =>
      var s' := PutSlot(s, pos, SlotAt(s, pos).(data := None));
      if pos < |s.deq| then s'.(deq := s.deq[pos := s.deq[pos].(v := SlotAt(s, pos).data)]) else s'
    case DeqRelease(pos, v) =>
      var s' := PutSlot(s, pos, SlotAt(s, pos).(stamp := pos + |s.slots|)).(done := s.done + [Dequeued(pos, v)]);
      if pos < |s.deq| then s'.(deq := s.deq[pos := s.deq[pos].(stored := true)]) else s'
    case _ => s
  }

  function Next(s: State, pc: Pc, spurious: bool): Pc
    requires |s.slots| > 0
  {
    match pc
    case EnqLoad(v) => EnqStamp(v, s.head)
    case EnqStamp(v, pos) =>
      var stamp := SlotAt(s, pos).stamp;
      if pos % 2 != stamp % 2 then EnqLoad(v) else EnqCas(v, pos, stamp, EnqueueLaps(s, pos))
    case EnqCas(v, pos, stamp, _) =>
      if !Claims(s, pc, spurious) then EnqLoad(v)
      else if stamp == pos then EnqConstruct(v, pos) else Idle
    case EnqConstruct(v, pos) => EnqPublish(v, pos)
    case DeqLoad => DeqStamp(s.tail)
    case DeqStamp(pos) =>
      var stamp := SlotAt(s, pos).stamp;
      if pos % 2 == stamp % 2 then DeqHead(pos) else DeqCas(pos, stamp, DequeueLaps(s, pos))
    case DeqHead(pos) => if s.head <= pos then Idle else DeqLoad
    case DeqCas(pos, stamp, _) =>
      if !Claims(s, pc, spurious) then DeqLoad
      else if stamp != pos then DeqTake(pos) else Idle
    case DeqTake(pos) =>
      if SlotAt(s, pos).data.Some? then DeqRelease(pos, SlotAt(s, pos).data.value) else Broken
    case Broken => Broken
    case _ => Idle
  }

  function Step(s: State, t: nat, a: Action): (s': State)
    requires t < |s.threads| && |s.slots| > 0
    ensures |s'.threads| == |s.threads| && |s'.slots| == |s.slots|
  {
    var pc := s.threads[t];
    match a
    case Enqueue(v) => if pc.Idle? then s.(threads := s.threads[t := EnqLoad(v)]) else s
    case Dequeue => if pc.Idle? then s.(threads := s.threads[t := DeqLoad]) else s
    case Go(spurious) => Effect(s, t, spurious).(threads := s.threads[t := Next(s, pc, spurious)])
  }

  function Run(capacity: nat, threads: nat, schedule: seq<(nat, Action)>): (s: State)
    requires capacity > 0
    ensures |s.threads| == threads && |s.slots| == capacity
  {
    if schedule == [] then Init(capacity, threads)
    else
      var (t, a) := schedule[|schedule| - 1];
      var before := Run(capacity, threads, schedule[..|schedule| - 1]);
      if t < threads then Step(before, t, a) else before
  }

  predicate Written(s: State, p: nat) {
    p < |s.enq| && s.enq[p].stored
  }

  /** The next step claims a position that it cannot use: the stamp it goes by was loaded while
      the same side's operation one lap earlier had not stored its own, and, on the dequeue side,
      the position has not been written since either. */
  predicate LostClaim(s: State, t: nat, a: Action)
    requires t < |s.threads|
  {
    && a.Go? && Claims(s, s.threads[t], a.spurious) && s.threads[t].lapped
    && (s.threads[t].DeqCas? ==> !Written(s, s.tail))
  }

  predicate LossFree(capacity: nat, threads: nat, schedule: seq<(nat, Action)>)
    requires capacity > 0
  {
    schedule == [] ||
    (var (t, a) := schedule[|schedule| - 1];
     var earlier := schedule[..|schedule| - 1];
     && LossFree(capacity, threads, earlier)
     && (t < threads ==> !LostClaim(Run(capacity, threads, earlier), t, a)))
  }

  // ---------- The invariant of loss-free runs ----------

  ghost predicate Writing(pc: Pc, pos: nat) {
    (pc.EnqConstruct? || pc.EnqPublish?) && pc.pos == pos
  }

  ghost predicate Reading(pc: Pc, pos: nat) {
    (pc.DeqTake? || pc.DeqRelease?) && pc.pos == pos
  }

  // Position q has been claimed by a dequeuer that has given the slot back.
  predicate Released(s: State, q: nat) {
    q < |s.deq| && s.deq[q].stored
  }

  /** The life of the slot of position q between its claim and its release: its stamp is q,
      then q + 1; it holds the value from the construction until it is taken. */
  ghost predicate PositionOk(s: State, q: nat)
    requires q < |s.enq| && |s.slots| > 0
  {
    var w := s.enq[q];
    var slot := SlotAt(s, q);
    if !w.stored then
      && q >= s.tail && slot.stamp == q
      && w.owner < |s.threads| && Writing(s.threads[w.owner], q) && s.threads[w.owner].v == w.v
      && slot.data == (if s.threads[w.owner].EnqPublish? then Some(w.v) else None)
    else if q >= s.tail then
      slot == Slot(q + 1, Some(w.v))
    else if q < |s.deq| && !s.deq[q].stored then
      var r := s.deq[q];
      && slot.stamp == q + 1
      && r.owner < |s.threads| && Reading(s.threads[r.owner], q)
      && (s.threads[r.owner].DeqTake? ==> slot.data == Some(w.v) && r.v == None)
      && (s.threads[r.owner].DeqRelease? ==> slot.data == None && r.v == Some(w.v) && s.threads[r.owner].v == w.v)
    else
      // written, read and given back for the position one lap later
      && q < |s.deq| && s.deq[q].v == Some(w.v)
      && (q + |s.slots| >= s.head ==> slot == Slot(q + |s.slots|, None))
  }

  ghost predicate ThreadOk(s: State, t: nat, pc: Pc)
    requires |s.slots| > 0
  {
    match pc
    case EnqStamp(_, pos) => pos <= s.head
    case EnqCas(_, pos, stamp, lapped) =>
      && pos <= s.head
      && (lapped ==> stamp != pos)
      && (!lapped && pos == s.head ==> stamp == pos && SlotAt(s, pos) == Slot(pos, None))
    case EnqConstruct(_, pos) => pos < |s.enq| && !s.enq[pos].stored && s.enq[pos].owner == t
    case EnqPublish(_, pos) => pos < |s.enq| && !s.enq[pos].stored && s.enq[pos].owner == t
    case DeqStamp(pos) => pos <= s.tail
    case DeqHead(pos) => pos <= s.tail
    case DeqCas(pos, stamp, lapped) =>
      && pos <= s.tail && stamp != pos
      && (lapped ==> stamp != pos + 1)
      && (!lapped && pos == s.tail ==> stamp == pos + 1 && SlotAt(s, pos).stamp == pos + 1)
    case DeqTake(pos) => pos < |s.deq| && !s.deq[pos].stored && s.deq[pos].owner == t
    case DeqRelease(pos, _) => pos < |s.deq| && !s.deq[pos].stored && s.deq[pos].owner == t
    case Broken => false
    case _ => true
  }

  ghost predicate ResponseOk(s: State, r: Response) {
    match r
    case Enqueued(pos, v) => pos < |s.enq| && s.enq[pos].stored && s.enq[pos].v == v
    case Hole(_, _) => false
    case Dequeued(pos, v) => Released(s, pos) && pos < |s.enq| && s.enq[pos].v == v
    case FoundEmpty(headSeen, tailNow) => headSeen == tailNow
  }

  ghost predicate Inv(s: State) {
    && |s.slots| >= 2 && |s.slots| % 2 == 0
    && s.head == |s.enq| && s.tail == |s.deq| && s.tail <= s.head
    && (forall q :: 0 <= q < s.head ==> PositionOk(s, q))
    && (forall q :: 0 <= q && q + |s.slots| < s.head ==> Released(s, q))
    && (forall i :: s.head <= i < |s.slots| ==> s.slots[i] == Slot(i, None))
    && (forall t :: 0 <= t < |s.threads| ==> ThreadOk(s, t, s.threads[t]))
    && (forall i :: 0 <= i < |s.done| ==> ResponseOk(s, s.done[i]))
  }

  // ---------- Steps that work on one claimed position ----------

  // Thread t works on position p: nothing else of the history, and only p's slot, changes.
  ghost predicate WorksOn(s: State, s': State, t: nat, p: nat)
    requires |s.slots| > 0
  {
    && t < |s.threads| == |s'.threads| && p < |s.enq|
    && s'.threads == s.threads[t := s'.threads[t]]
    && |s'.slots| == |s.slots| && s'.slots == s.slots[p % |s.slots| := s'.slots[p % |s.slots|]]
    && s'.head == s.head && s'.tail == s.tail
    && |s'.enq| == |s.enq| && s'.enq == s.enq[p := s'.enq[p]]
    && s'.enq[p].v == s.enq[p].v && (s.enq[p].stored ==> s'.enq[p].stored)
    && |s'.deq| == |s.deq|
    && (if p < |s.deq| then
          s'.deq == s.deq[p := s'.deq[p]] && (s.deq[p].stored ==> s'.deq[p].stored)
        else s'.deq == s.deq)
    && (forall q :: q != p ==> !Writing(s.threads[t], q) && !Reading(s.threads[t], q))
  }

  lemma SlotUntouched(s: State, s': State, p: nat, q: nat)
    requires 0 < |s.slots| == |s'.slots| && s'.slots == s.slots[p % |s.slots| := s'.slots[p % |s.slots|]]
    requires p < q < p + |s.slots| || q < p < q + |s.slots|
    ensures SlotAt(s', q) == SlotAt(s, q)
  {
    if p < q {
      DifferentSlots(p, q, |s.slots|);
    } else {
      DifferentSlots(q, p, |s.slots|);
    }
  }

  // A position is unaffected by a change that spares its slot, its records and its thread.
  lemma PositionFrame(s: State, s': State, q: nat)
    requires q < |s.enq| && q < |s'.enq| && 0 < |s.slots| == |s'.slots| && PositionOk(s, q)
    requires s'.head == s.head && s'.tail == s.tail && s'.enq[q] == s.enq[q]
    requires |s'.deq| == |s.deq| && (q < |s.deq| ==> s'.deq[q] == s.deq[q])
    requires q + |s.slots| >= s.head ==> SlotAt(s', q) == SlotAt(s, q)
    requires |s'.threads| == |s.threads|
    requires forall u :: 0 <= u < |s.threads| && (Writing(s.threads[u], q) || Reading(s.threads[u], q)) ==>
               s'.threads[u] == s.threads[u]
    requires q + |s.slots| < s.head ==> Released(s, q) && s.enq[q].stored && q < s.tail
    ensures PositionOk(s', q)
  {}

  lemma PositionUntouched(s: State, s': State, t: nat, p: nat, q: nat)
    requires Inv(s) && WorksOn(s, s', t, p) && p + |s.slots| >= s.head
    requires q < s.head && q != p
    ensures PositionOk(s', q)
  {
    assert PositionOk(s, q);
    if q + |s.slots| >= s.head {
      SlotUntouched(s, s', p, q);
    } else {
      assert Released(s, q);
    }
    PositionFrame(s, s', q);
  }

  // Where a claim is about to be made, the slot is not one that is being worked on.
  lemma ThreadUntouched(s: State, s': State, t: nat, p: nat, u: nat)
    requires Inv(s) && WorksOn(s, s', t, p) && p + |s.slots| >= s.head
    requires u < |s.threads| && u != t
    requires !s.enq[p].stored || (p < s.tail && !s.deq[p].stored)
    requires s'.enq[p].owner == s.enq[p].owner == t || s'.enq[p] == s.enq[p]
    requires p < |s.deq| ==> s'.deq[p] == s.deq[p] || s'.deq[p].owner == s.deq[p].owner == t
    ensures ThreadOk(s', u, s.threads[u])
  {
    assert ThreadOk(s, u, s.threads[u]);
    assert PositionOk(s, p);
    match s.threads[u]
    case EnqCas(_, pos, _, lapped) =>
      if !lapped && pos == s.head {
        if p + |s.slots| == s.head {
          OneLapLater(p, |s.slots|);
        } else {
          DifferentSlots(p, s.head, |s.slots|);
        }
      }
    case DeqCas(pos, _, lapped) =>
      if !lapped && pos == s.tail && pos != p {
        if p + |s.slots| == s.tail {
          OneLapLater(p, |s.slots|);
        } else if p < s.tail {
          DifferentSlots(p, s.tail, |s.slots|);
        } else {
          TailNear(s, p);
          DifferentSlots(s.tail, p, |s.slots|);
        }
      }
    case _ =>
  }

  // A claimed position is less than a lap beyond the tail.
  lemma TailNear(s: State, p: nat)
    requires Inv(s) && p < s.head
    ensures p < s.tail + |s.slots|
  {
    assert p >= |s.slots| ==> Released(s, p - |s.slots|);
  }

  lemma ResponsesGrow(s: State, s': State)
    requires forall i :: 0 <= i < |s.done| ==> ResponseOk(s, s.done[i])
    requires |s.enq| <= |s'.enq| && |s.deq| <= |s'.deq|
    requires forall q :: 0 <= q < |s.enq| ==> s'.enq[q].v == s.enq[q].v && (s.enq[q].stored ==> s'.enq[q].stored)
    requires forall q :: 0 <= q < |s.deq| ==> (s.deq[q].stored ==> s'.deq[q].stored)
    requires s'.done == s.done || (exists r :: s'.done == s.done + [r] && ResponseOk(s', r))
    ensures forall i :: 0 <= i < |s'.done| ==> ResponseOk(s', s'.done[i])
  {
    forall i | 0 <= i < |s.done| ensures ResponseOk(s', s.done[i]) {
      assert ResponseOk(s, s.done[i]);
    }
  }

  lemma WorkKept(s: State, s': State, t: nat, p: nat)
    requires Inv(s) && WorksOn(s, s', t, p) && p + |s.slots| >= s.head
    requires !s.enq[p].stored || (p < s.tail && !s.deq[p].stored)
    requires s'.enq[p].owner == s.enq[p].owner == t || s'.enq[p] == s.enq[p]
    requires p < |s.deq| ==> s'.deq[p] == s.deq[p] || s'.deq[p].owner == s.deq[p].owner == t
    requires s'.done == s.done || (exists r :: s'.done == s.done + [r] && ResponseOk(s', r))
    requires PositionOk(s', p) && ThreadOk(s', t, s'.threads[t])
    ensures Inv(s')
  {
    hide PositionOk, ThreadOk, ResponseOk, SlotAt;
    forall q | 0 <= q < s'.head ensures PositionOk(s', q) {
      if q != p {
        PositionUntouched(s, s', t, p, q);
      }
    }
    forall u | 0 <= u < |s'.threads| ensures ThreadOk(s', u, s'.threads[u]) {
      if u != t {
        ThreadUntouched(s, s', t, p, u);
      }
    }
    forall q | 0 <= q && q + |s.slots| < s.head ensures Released(s', q) {
      assert Released(s, q);
    }
    ResponsesGrow(s, s');
    UnclaimedUntouched(s, s', t, p);
  }

  lemma UnclaimedUntouched(s: State, s': State, t: nat, p: nat)
    requires Inv(s) && WorksOn(s, s', t, p)
    ensures forall i :: s'.head <= i < |s'.slots| ==> s'.slots[i] == Slot(i, None)
  {
    forall i | s'.head <= i < |s'.slots| ensures s'.slots[i] == s.slots[i] {
      assert p < |s.slots|;
      QuotientUnique(p, |s.slots|, 0, p);
    }
  }

  // A claimed position that is still being worked on is within a lap of the head.
  lemma WorkIsRecent(s: State, p: nat)
    requires Inv(s) && p < s.head && !Released(s, p)
    ensures p + |s.slots| >= s.head
  {}

  lemma ConstructKept(s: State, t: nat, spurious: bool)
    requires Inv(s) && t < |s.threads| && s.threads[t].EnqConstruct?
    ensures Inv(Step(s, t, Go(spurious)))
  {
    var p := s.threads[t].pos;
    assert ThreadOk(s, t, s.threads[t]) && PositionOk(s, p);
    WorkIsRecent(s, p);
    WorkKept(s, Step(s, t, Go(spurious)), t, p);
  }

  lemma PublishKept(s: State, t: nat, spurious: bool)
    requires Inv(s) && t < |s.threads| && s.threads[t].EnqPublish?
    ensures Inv(Step(s, t, Go(spurious)))
  {
    var EnqPublish(v, p) := s.threads[t];
    assert ThreadOk(s, t, s.threads[t]) && PositionOk(s, p);
    WorkIsRecent(s, p);
    var s' := Step(s, t, Go(spurious));
    assert s'.done == s.done + [Enqueued(p, v)] && ResponseOk(s', Enqueued(p, v));
    WorkKept(s, s', t, p);
  }

  lemma TakeKept(s: State, t: nat, spurious: bool)
    requires Inv(s) && t < |s.threads| && s.threads[t].DeqTake?
    ensures Inv(Step(s, t, Go(spurious)))
  {
    var p := s.threads[t].pos;
    assert ThreadOk(s, t, s.threads[t]) && PositionOk(s, p);
    WorkIsRecent(s, p);
    WorkKept(s, Step(s, t, Go(spurious)), t, p);
  }

  lemma ReleaseKept(s: State, t: nat, spurious: bool)
    requires Inv(s) && t < |s.threads| && s.threads[t].DeqRelease?
    ensures Inv(Step(s, t, Go(spurious)))
  {
    var DeqRelease(p, v) := s.threads[t];
    assert ThreadOk(s, t, s.threads[t]) && PositionOk(s, p);
    WorkIsRecent(s, p);
    var s' := Step(s, t, Go(spurious));
    assert s'.done == s.done + [Dequeued(p, v)] && ResponseOk(s', Dequeued(p, v));
    WorkKept(s, s', t, p);
  }

  // ---------- Steps that only move a thread ----------

  lemma MoveKept(s: State, t: nat, pc: Pc)
    requires Inv(s) && t < |s.threads| && ThreadOk(s, t, pc)
    requires forall q :: !Writing(s.threads[t], q) && !Reading(s.threads[t], q)
    ensures Inv(s.(threads := s.threads[t := pc]))
  {
    var s' := s.(threads := s.threads[t := pc]);
    MovedPositions(s, t, pc);
    forall u | 0 <= u < |s'.threads| ensures ThreadOk(s', u, s'.threads[u]) {
      assert ThreadOk(s, u, s.threads[u]);
    }
    forall i | 0 <= i < |s.done| ensures ResponseOk(s', s.done[i]) {
      assert ResponseOk(s, s.done[i]);
    }
  }

  lemma MovedPositions(s: State, t: nat, pc: Pc)
    requires Inv(s) && t < |s.threads|
    requires forall q :: !Writing(s.threads[t], q) && !Reading(s.threads[t], q)
    ensures var s' := s.(threads := s.threads[t := pc]);
            && (forall q :: 0 <= q < s.head ==> PositionOk(s', q))
            && (forall q :: 0 <= q && q + |s.slots| < s.head ==> Released(s', q))
  {
    var s' := s.(threads := s.threads[t := pc]);
    forall q | 0 <= q < s.head ensures PositionOk(s', q) {
      assert PositionOk(s, q);
      if q + |s.slots| < s.head {
        assert Released(s, q);
      }
      PositionFrame(s, s', q);
    }
    forall q | 0 <= q && q + |s.slots| < s.head ensures Released(s', q) {
      assert Released(s, q);
    }
  }

  lemma EnqStampKept(s: State, t: nat, spurious: bool)
    requires Inv(s) && t < |s.threads| && s.threads[t].EnqStamp?
    ensures Inv(Step(s, t, Go(spurious)))
  {
    var pos := s.threads[t].pos;
    assert ThreadOk(s, t, s.threads[t]);
    if pos % 2 == SlotAt(s, pos).stamp % 2 {
      EnqStampOk(s, pos);
    }
    MoveKept(s, t, Next(s, s.threads[t], spurious));
  }

  /** The stamp in the slot of the next position to be written: that position itself if the
      slot is free for it, else it still belongs to the position one lap earlier. */
  lemma HeadSlot(s: State)
    requires Inv(s)
    ensures var slot := SlotAt(s, s.head);
            var n := |s.slots|;
            if s.head < n || Released(s, s.head - n) then slot == Slot(s.head, None)
            else slot.stamp == s.head - n + if s.enq[s.head - n].stored then 1 else 0
  {
    EarlierSlot(s, s.head);
  }

  lemma EarlierSlot(s: State, pos: nat)
    requires Inv(s) && pos <= s.head
    ensures pos < |s.slots| ==> SlotAt(s, pos) == s.slots[pos]
    ensures pos >= |s.slots| ==> PositionOk(s, pos - |s.slots|) && SlotAt(s, pos) == SlotAt(s, pos - |s.slots|)
  {
    var n := |s.slots|;
    if pos < n {
      QuotientUnique(pos, n, 0, pos);
    } else {
      OneLapLater(pos - n, n);
    }
  }

  lemma SameParity(x: int, n: int)
    requires n % 2 == 0
    ensures (x - n) % 2 == x % 2 && (x - n + 1) % 2 != x % 2 && (x + 1) % 2 != x % 2
  {}

  /** The parity test lets an enqueuer of the next position through with the right stamp exactly
      when the enqueue a lap earlier has stored its own. */
  lemma EnqStampOk(s: State, pos: nat)
    requires Inv(s) && pos <= s.head && pos % 2 == SlotAt(s, pos).stamp % 2
    ensures EnqueueLaps(s, pos) ==> SlotAt(s, pos).stamp != pos
    ensures !EnqueueLaps(s, pos) && pos == s.head ==> SlotAt(s, pos) == Slot(pos, None)
  {
    EarlierSlot(s, pos);
    SameParity(pos, |s.slots|);
    HeadSlot(s);
  }

  /** Likewise for a dequeuer of the position at the tail. */
  lemma DeqStampOk(s: State, pos: nat)
    requires Inv(s) && pos <= s.tail && pos % 2 != SlotAt(s, pos).stamp % 2
    ensures SlotAt(s, pos).stamp != pos
    ensures DequeueLaps(s, pos) ==> SlotAt(s, pos).stamp != pos + 1
    ensures !DequeueLaps(s, pos) && pos == s.tail ==> SlotAt(s, pos).stamp == pos + 1
  {
    EarlierSlot(s, pos);
    SameParity(pos, |s.slots|);
    HeadSlot(s);
    if pos < s.head {
      assert PositionOk(s, pos);
    }
  }

  lemma DeqStampKept(s: State, t: nat, spurious: bool)
    requires Inv(s) && t < |s.threads| && s.threads[t].DeqStamp?
    ensures Inv(Step(s, t, Go(spurious)))
  {
    var pos := s.threads[t].pos;
    assert ThreadOk(s, t, s.threads[t]);
    if pos % 2 != SlotAt(s, pos).stamp % 2 {
      DeqStampOk(s, pos);
    }
    MoveKept(s, t, Next(s, s.threads[t], spurious));
  }

  // ---------- Claims ----------

  // A claim of position s.head by thread t, whose stamp matched.
  function EnqClaimed(s: State, t: nat, v: Value): State
    requires t < |s.threads|
  {
    s.(head := s.head + 1, enq := s.enq + [Write(v, t, false)],
       threads := s.threads[t := EnqConstruct(v, s.head)])
  }

  lemma EnqClaimKept(s: State, t: nat, v: Value, stamp: nat)
    requires Inv(s) && t < |s.threads| && s.threads[t] == EnqCas(v, s.head, stamp, false)
    ensures Inv(EnqClaimed(s, t, v))
  {
    var s' := EnqClaimed(s, t, v);
    var n := |s.slots|;
    assert ThreadOk(s, t, s.threads[t]);
    EnqClaimSlots(s, t);
    forall q | 0 <= q < s'.head ensures PositionOk(s', q) {
      if q < s.head {
        assert PositionOk(s, q);
        assert s'.enq[q] == s.enq[q] && SlotAt(s', q) == SlotAt(s, q);
      }
    }
    forall q | 0 <= q && q + |s.slots| < s'.head ensures Released(s', q) {
      assert Released(s, q);
    }
    forall u | 0 <= u < |s'.threads| ensures ThreadOk(s', u, s'.threads[u]) {
      assert ThreadOk(s, u, s.threads[u]);
    }
    ResponsesGrow(s, s');
  }

  // The slot being claimed has been released by the dequeue a lap earlier.
  lemma EnqClaimSlots(s: State, t: nat)
    requires Inv(s) && SlotAt(s, s.head) == Slot(s.head, None)
    ensures forall q :: 0 <= q && q + |s.slots| <= s.head ==> Released(s, q)
  {
    HeadSlot(s);
  }

  function DeqClaimed(s: State, t: nat): State
    requires t < |s.threads|
  {
    s.(tail := s.tail + 1, deq := s.deq + [Read(None, t, false)],
       threads := s.threads[t := DeqTake(s.tail)])
  }

  lemma DeqClaimKept(s: State, t: nat, stamp: nat, lapped: bool)
    requires Inv(s) && t < |s.threads| && s.threads[t] == DeqCas(s.tail, stamp, lapped)
    requires lapped ==> Written(s, s.tail)
    ensures Inv(DeqClaimed(s, t))
  {
    var s' := DeqClaimed(s, t);
    assert ThreadOk(s, t, s.threads[t]);
    DeqClaimReady(s);
    forall q | 0 <= q < s'.head ensures PositionOk(s', q) {
      assert PositionOk(s, q);
      assert SlotAt(s', q) == SlotAt(s, q);
      if q < s.tail {
        assert s'.deq[q] == s.deq[q];
      }
    }
    forall u | 0 <= u < |s'.threads| ensures ThreadOk(s', u, s'.threads[u]) {
      assert ThreadOk(s, u, s.threads[u]);
    }
    forall q | 0 <= q && q + |s.slots| < s.head ensures Released(s', q) {
      assert Released(s, q);
    }
    ResponsesGrow(s, s');
  }

  // A stamp one past the tail is the mark of a written, unread position.
  lemma DeqClaimReady(s: State)
    requires Inv(s) && (SlotAt(s, s.tail).stamp == s.tail + 1 || Written(s, s.tail))
    ensures s.tail < s.head && s.enq[s.tail].stored
    ensures SlotAt(s, s.tail) == Slot(s.tail + 1, Some(s.enq[s.tail].v))
  {
    HeadSlot(s);
    if s.tail < s.head {
      assert PositionOk(s, s.tail);
    }
  }

  lemma EnqCasKept(s: State, t: nat, spurious: bool)
    requires Inv(s) && t < |s.threads| && s.threads[t].EnqCas? && !LostClaim(s, t, Go(spurious))
    ensures Inv(Step(s, t, Go(spurious)))
  {
    var EnqCas(v, pos, stamp, lapped) := s.threads[t];
    assert ThreadOk(s, t, s.threads[t]);
    if Claims(s, s.threads[t], spurious) {
      EnqClaimKept(s, t, v, stamp);
    } else {
      MoveKept(s, t, EnqLoad(v));
    }
  }

  lemma DeqCasKept(s: State, t: nat, spurious: bool)
    requires Inv(s) && t < |s.threads| && s.threads[t].DeqCas? && !LostClaim(s, t, Go(spurious))
    ensures Inv(Step(s, t, Go(spurious)))
  {
    var DeqCas(pos, stamp, lapped) := s.threads[t];
    assert ThreadOk(s, t, s.threads[t]);
    if Claims(s, s.threads[t], spurious) {
      DeqClaimKept(s, t, stamp, lapped);
    } else {
      MoveKept(s, t, DeqLoad);
    }
  }

  lemma DeqHeadKept(s: State, t: nat, spurious: bool)
    requires Inv(s) && t < |s.threads| && s.threads[t].DeqHead?
    ensures Inv(Step(s, t, Go(spurious)))
  {
    var pos := s.threads[t].pos;
    assert ThreadOk(s, t, s.threads[t]);
    var pc := Next(s, s.threads[t], spurious);
    MoveKept(s, t, pc);
    var s1 := s.(threads := s.threads[t := pc]);
    if s.head <= pos {
      var r := FoundEmpty(s.head, s.tail);
      RecordKept(s1, r);
    }
  }

  lemma RecordKept(s: State, r: Response)
    requires Inv(s) && ResponseOk(s, r)
    ensures Inv(s.(done := s.done + [r]))
  {
    var s' := s.(done := s.done + [r]);
    forall q | 0 <= q < s'.head ensures PositionOk(s', q) {
      assert PositionOk(s, q);
    }
    forall u | 0 <= u < |s'.threads| ensures ThreadOk(s', u, s'.threads[u]) {
      assert ThreadOk(s, u, s.threads[u]);
    }
    forall q | 0 <= q && q + |s.slots| < s.head ensures Released(s', q) {
      assert Released(s, q);
    }
    forall i | 0 <= i < |s'.done| ensures ResponseOk(s', s'.done[i]) {
      if i < |s.done| {
        assert ResponseOk(s, s.done[i]);
      }
    }
  }

  lemma StepKept(s: State, t: nat, a: Action)
    requires Inv(s) && t < |s.threads| && !LostClaim(s, t, a)
    ensures Inv(Step(s, t, a))
  {
    assert ThreadOk(s, t, s.threads[t]);
    match a
    case Enqueue(v) =>
      if s.threads[t].Idle? {
        MoveKept(s, t, EnqLoad(v));
      }
    case Dequeue =>
      if s.threads[t].Idle? {
        MoveKept(s, t, DeqLoad);
      }
    case Go(spurious) => GoKept(s, t, spurious);
  }

  lemma GoKept(s: State, t: nat, spurious: bool)
    requires Inv(s) && t < |s.threads| && !LostClaim(s, t, Go(spurious))
    ensures Inv(Step(s, t, Go(spurious)))
  {
    match s.threads[t]
    case EnqStamp(_, _) => EnqStampKept(s, t, spurious);
    case EnqCas(_, _, _, _) => EnqCasKept(s, t, spurious);
    case EnqConstruct(_, _) => ConstructKept(s, t, spurious);
    case EnqPublish(_, _) => PublishKept(s, t, spurious);
    case DeqStamp(_) => DeqStampKept(s, t, spurious);
    case DeqHead(_) => DeqHeadKept(s, t, spurious);
    case DeqCas(_, _, _) => DeqCasKept(s, t, spurious);
    case DeqTake(_) => TakeKept(s, t, spurious);
    case DeqRelease(_, _) => ReleaseKept(s, t, spurious);
    case Broken => assert ThreadOk(s, t, s.threads[t]);
    case _ => MoveKept(s, t, Next(s, s.threads[t], spurious));
  }

  // ---------- Every loss-free run ----------

  lemma InitInv(capacity: nat, threads: nat)
    requires PowerOfTwo(capacity) && capacity >= 2
    ensures Inv(Init(capacity, threads))
  {}

  lemma {:induction false} RunKeeps(capacity: nat, threads: nat, schedule: seq<(nat, Action)>)
    requires PowerOfTwo(capacity) && capacity >= 2 && LossFree(capacity, threads, schedule)
    ensures Inv(Run(capacity, threads, schedule))
  {
    if schedule == [] {
      InitInv(capacity, threads);
    } else {
      var (t, a) := schedule[|schedule| - 1];
      RunKeeps(capacity, threads, schedule[..|schedule| - 1]);
      if t < threads {
        StepKept(Run(capacity, threads, schedule[..|schedule| - 1]), t, a);
      }
    }
  }

  // How many calls have returned having written (or read) position p.
  function TimesWritten(done: seq<Response>, p: nat): nat {
    if done == [] then 0
    else
      var r := done[|done| - 1];
      TimesWritten(done[..|done| - 1], p) + if r.Enqueued? && r.pos == p then 1 else 0
  }

  function TimesRead(done: seq<Response>, p: nat): nat {
    if done == [] then 0
    else
      var r := done[|done| - 1];
      TimesRead(done[..|done| - 1], p) + if r.Dequeued? && r.pos == p then 1 else 0
  }

  lemma CountAppend(done: seq<Response>, r: Response, p: nat)
    ensures TimesWritten(done + [r], p) == TimesWritten(done, p) + if r.Enqueued? && r.pos == p then 1 else 0
    ensures TimesRead(done + [r], p) == TimesRead(done, p) + if r.Dequeued? && r.pos == p then 1 else 0
  {
    assert (done + [r])[..|done|] == done;
  }

  ghost predicate Counted(s: State, p: nat) {
    && TimesWritten(s.done, p) == (if Written(s, p) then 1 else 0)
    && TimesRead(s.done, p) == (if Released(s, p) then 1 else 0)
  }

  lemma StepCounts(s: State, t: nat, a: Action, p: nat)
    requires t < |s.threads| && |s.slots| > 0 && ThreadOk(s, t, s.threads[t])
    requires !LostClaim(s, t, a) && Counted(s, p)
    ensures Counted(Step(s, t, a), p)
  {
    hide Step, Counted, ThreadOk;
    var pc := s.threads[t];
    if a.Go? && pc.EnqPublish? {
      PublishCounts(s, t, a.spurious, p);
    } else if a.Go? && pc.DeqRelease? {
      ReleaseCounts(s, t, a.spurious, p);
    } else if a.Go? && pc.EnqCas? {
      EnqCasCounts(s, t, a.spurious, p);
    } else if a.Go? && pc.DeqCas? {
      DeqCasCounts(s, t, a.spurious, p);
    } else {
      SilentCounts(s, t, a, p);
    }
  }

  lemma PublishCounts(s: State, t: nat, spurious: bool, p: nat)
    requires t < |s.threads| && |s.slots| > 0 && ThreadOk(s, t, s.threads[t]) && s.threads[t].EnqPublish?
    requires Counted(s, p)
    ensures Counted(Step(s, t, Go(spurious)), p)
  {
    CountAppend(s.done, Enqueued(s.threads[t].pos, s.threads[t].v), p);
    hide TimesWritten, TimesRead;
  }

  lemma ReleaseCounts(s: State, t: nat, spurious: bool, p: nat)
    requires t < |s.threads| && |s.slots| > 0 && ThreadOk(s, t, s.threads[t]) && s.threads[t].DeqRelease?
    requires Counted(s, p)
    ensures Counted(Step(s, t, Go(spurious)), p)
  {
    CountAppend(s.done, Dequeued(s.threads[t].pos, s.threads[t].v), p);
    hide TimesWritten, TimesRead;
  }

  lemma SilentCounts(s: State, t: nat, a: Action, p: nat)
    requires t < |s.threads| && |s.slots| > 0 && ThreadOk(s, t, s.threads[t])
    requires a.Go? ==> var pc := s.threads[t]; !pc.EnqPublish? && !pc.DeqRelease? && !pc.EnqCas? && !pc.DeqCas?
    requires Counted(s, p)
    ensures Counted(Step(s, t, a), p)
  {
    CountAppend(s.done, FoundEmpty(s.head, s.tail), p);
    if a.Go? && s.threads[t].DeqTake? {
      var pos := s.threads[t].pos;
      assert Step(s, t, a).deq[pos].stored == s.deq[pos].stored;
    }
  }

  lemma EnqCasCounts(s: State, t: nat, spurious: bool, p: nat)
    requires t < |s.threads| && |s.slots| > 0 && ThreadOk(s, t, s.threads[t]) && s.threads[t].EnqCas?
    requires !LostClaim(s, t, Go(spurious)) && Counted(s, p)
    ensures Counted(Step(s, t, Go(spurious)), p)
  {}

  lemma DeqCasCounts(s: State, t: nat, spurious: bool, p: nat)
    requires t < |s.threads| && |s.slots| > 0 && ThreadOk(s, t, s.threads[t]) && s.threads[t].DeqCas?
    requires !LostClaim(s, t, Go(spurious)) && Counted(s, p)
    ensures Counted(Step(s, t, Go(spurious)), p)
  {}

  lemma {:induction false} RunCounts(capacity: nat, threads: nat, schedule: seq<(nat, Action)>, p: nat)
    requires PowerOfTwo(capacity) && capacity >= 2 && LossFree(capacity, threads, schedule)
    ensures Counted(Run(capacity, threads, schedule), p)
  {
    if schedule != [] {
      var (t, a) := schedule[|schedule| - 1];
      var earlier := schedule[..|schedule| - 1];
      RunCounts(capacity, threads, earlier, p);
      RunKeeps(capacity, threads, earlier);
      if t < threads {
        assert ThreadOk(Run(capacity, threads, earlier), t, Run(capacity, threads, earlier).threads[t]);
        StepCounts(Run(capacity, threads, earlier), t, a, p);
      }
    }
  }

  // ---------- Main results ----------

  /** Exactly once, in order: in every loss-free run, with a capacity that is a power of two and
      at least two, positions are claimed by both sides in increasing order, every claimed
      position is written by one call and read by one call, what is read there is what was
      written there, no claim leaves a hole, and stamps go p, p + 1, p + capacity. */
  lemma ExactlyOnceInOrder(capacity: nat, threads: nat, schedule: seq<(nat, Action)>, p: nat)
    requires PowerOfTwo(capacity) && capacity >= 2 && LossFree(capacity, threads, schedule)
    ensures var s := Run(capacity, threads, schedule);
            && s.head == |s.enq| && s.tail == |s.deq| && s.tail <= s.head <= s.tail + capacity
            && TimesWritten(s.done, p) == (if Written(s, p) then 1 else 0)
            && TimesRead(s.done, p) == (if Released(s, p) then 1 else 0)
            && (forall i :: 0 <= i < |s.done| ==> ResponseOk(s, s.done[i]))
            && (forall t :: 0 <= t < threads ==> s.threads[t] != Broken)
            && (p < s.head ==> PositionOk(s, p))
            && (p < s.tail ==> Written(s, p))
  {
    RunKeeps(capacity, threads, schedule);
    RunCounts(capacity, threads, schedule, p);
    var s := Run(capacity, threads, schedule);
    forall t | 0 <= t < threads ensures s.threads[t] != Broken {
      assert ThreadOk(s, t, s.threads[t]);
    }
    if p < s.head {
      assert PositionOk(s, p);
    }
    if s.head > 0 {
      TailNear(s, s.head - 1);
    }
  }

  // ---------- Every call and its answer ----------

  /** The calls that thread t was asked for, first call first: those that the schedule makes while
      t is idle. */
  function Asked(capacity: nat, threads: nat, schedule: seq<(nat, Action)>, t: nat): seq<Action>
    requires capacity > 0
  {
    if schedule == [] then []
    else
      var ((u, a), front) := (schedule[|schedule| - 1], schedule[..|schedule| - 1]);
      Asked(capacity, threads, front, t) +
      if u == t < threads && !a.Go? && Run(capacity, threads, front).threads[t].Idle? then [a] else []
  }

  /** The responses that thread t's steps have added, oldest first. */
  function Answers(capacity: nat, threads: nat, schedule: seq<(nat, Action)>, t: nat): seq<Response>
    requires capacity > 0
  {
    if schedule == [] then []
    else
      var ((u, _), front) := (schedule[|schedule| - 1], schedule[..|schedule| - 1]);
      var (before, now) := (Run(capacity, threads, front).done, Run(capacity, threads, schedule).done);
      Answers(capacity, threads, front, t) + if u == t && |before| <= |now| then now[|before|..] else []
  }

  predicate AnswerTo(r: Response, call: Action) {
    match r
    case Enqueued(_, v) => call == Enqueue(v)
    case Hole(_, v) => call == Enqueue(v)
    case Dequeued(_, _) => call == Dequeue
    case FoundEmpty(_, _) => call == Dequeue
  }

  // The thread is inside this call.
  predicate Doing(pc: Pc, call: Action) {
    match pc
    case Idle => false
    case EnqLoad(v) => call == Enqueue(v)
    case EnqStamp(v, _) => call == Enqueue(v)
    case EnqCas(v, _, _, _) => call == Enqueue(v)
    case EnqConstruct(v, _) => call == Enqueue(v)
    case EnqPublish(v, _) => call == Enqueue(v)
    case _ => call == Dequeue
  }

  // A step inside a call goes on with it, or answers it and ends it.
  ghost predicate GoesOn(s: State, s': State, t: nat, call: Action)
    requires t < |s'.threads|
  {
    || (s'.done == s.done && Doing(s'.threads[t], call))
    || (s'.threads[t].Idle? && exists r :: s'.done == s.done + [r] && AnswerTo(r, call))
  }

  lemma CallGoesOn(s: State, t: nat, a: Action, call: Action)
    requires t < |s.threads| && |s.slots| > 0 && Doing(s.threads[t], call)
    ensures GoesOn(s, Step(s, t, a), t, call)
  {
    hide SlotAt;
    var s' := Step(s, t, a);
    match s.threads[t]
    case EnqCas(v, pos, _, _) => assert s'.done == s.done || s'.done == s.done + [Hole(pos, v)];
    case EnqPublish(v, pos) => assert s'.done == s.done || s'.done == s.done + [Enqueued(pos, v)];
    case DeqHead(_) => assert s'.done == s.done || s'.done == s.done + [FoundEmpty(s.head, s.tail)];
    case DeqCas(_, _, _) => assert s'.done == s.done || s'.done == s.done + [FoundEmpty(s.head, s.tail)];
    case DeqRelease(pos, v) => assert s'.done == s.done || s'.done == s.done + [Dequeued(pos, v)];
    case _ =>
  }

  // A thread and the calls it has been asked for, and has answered.
  ghost predicate Answering(pc: Pc, asked: seq<Action>, answers: seq<Response>) {
    && |asked| == |answers| + (if pc.Idle? then 0 else 1)
    && (!pc.Idle? ==> Doing(pc, asked[|asked| - 1]))
    && forall k :: 0 <= k < |answers| ==> AnswerTo(answers[k], asked[k])
  }

  lemma StepAnswering(s: State, t: nat, a: Action, asked: seq<Action>, answers: seq<Response>)
    requires t < |s.threads| && |s.slots| > 0 && Answering(s.threads[t], asked, answers)
    ensures var s' := Step(s, t, a);
            && |s.done| <= |s'.done|
            && Answering(s'.threads[t], asked + (if !a.Go? && s.threads[t].Idle? then [a] else []), answers + s'.done[|s.done|..])
  {
    assert asked + [] == asked && answers + [] == answers;
    if s.threads[t].Idle? {
      IdleIsQuiet(s, t, a);
    } else {
      CallGoesOn(s, t, a, asked[|asked| - 1]);
      hide Step;
      var s' := Step(s, t, a);
      if s'.threads[t].Idle? {
        var r :| s'.done == s.done + [r] && AnswerTo(r, asked[|asked| - 1]);
        assert s'.done[|s.done|..] == [r];
      }
    }
  }

  /** Over every run, whatever is lost: each call of thread t but the one it is inside, if any, has
      had one answer, in order, of its own kind and with its own value; and a thread inside a call
      works on the last one it was asked for. */
  lemma {:induction false} CallsAnswered(capacity: nat, threads: nat, schedule: seq<(nat, Action)>, t: nat)
    requires capacity > 0 && t < threads
    ensures Answering(Run(capacity, threads, schedule).threads[t],
                      Asked(capacity, threads, schedule, t), Answers(capacity, threads, schedule, t))
  {
    hide Answering, Step;
    if schedule != [] {
      var ((u, a), front) := (schedule[|schedule| - 1], schedule[..|schedule| - 1]);
      var (asked, answers) := (Asked(capacity, threads, front, t), Answers(capacity, threads, front, t));
      CallsAnswered(capacity, threads, front, t);
      if u == t {
        StepAnswering(Run(capacity, threads, front), t, a, asked, answers);
      } else {
        assert asked + [] == asked && answers + [] == answers;
        if u < threads {
          OthersStay(Run(capacity, threads, front), u, a, t);
        }
      }
    } else {
      AtFirst(capacity, threads, t);
    }
  }

  lemma AtFirst(capacity: nat, threads: nat, t: nat)
    requires capacity > 0 && t < threads
    ensures Answering(Init(capacity, threads).threads[t], [], [])
  {}

  lemma OthersStay(s: State, u: nat, a: Action, t: nat)
    requires u < |s.threads| && |s.slots| > 0 && t < |s.threads| && t != u
    ensures Step(s, u, a).threads[t] == s.threads[t]
  {
    hide SlotAt, Next;
  }

  lemma IdleIsQuiet(s: State, t: nat, a: Action)
    requires t < |s.threads| && |s.slots| > 0 && s.threads[t].Idle?
    ensures var s' := Step(s, t, a);
            s'.done == s.done && (if a.Go? then s'.threads[t].Idle? else Doing(s'.threads[t], a))
  {}

  /** Exactly when an enqueue's claim leaves a hole: after any loss-free run, the call that wins
      the compare-and-swap on head_ gives up its position unwritten if and only if the enqueue
      one lap earlier had not stored its stamp when this call loaded the stamp. */
  lemma HoleIffLapped(capacity: nat, threads: nat, schedule: seq<(nat, Action)>, t: nat)
    requires PowerOfTwo(capacity) && capacity >= 2 && LossFree(capacity, threads, schedule) && t < threads
    requires var s := Run(capacity, threads, schedule);
             s.threads[t].EnqCas? && Claims(s, s.threads[t], false)
    ensures var s := Run(capacity, threads, schedule);
            var EnqCas(v, pos, _, lapped) := s.threads[t];
            lapped <==> Step(s, t, Go(false)).done == s.done + [Hole(pos, v)]
  {
    RunKeeps(capacity, threads, schedule);
    var s := Run(capacity, threads, schedule);
    assert ThreadOk(s, t, s.threads[t]);
    assert s.done != s.done + [Hole(s.head, s.threads[t].v)];
  }

  /** Exactly when a dequeue's claim is good: after any loss-free run, the call that wins the
      compare-and-swap on tail_ finds the value written there if and only if its stamp load was
      not lapped or the position has been written since. */
  lemma ReadyIffWritten(capacity: nat, threads: nat, schedule: seq<(nat, Action)>, t: nat)
    requires PowerOfTwo(capacity) && capacity >= 2 && LossFree(capacity, threads, schedule) && t < threads
    requires var s := Run(capacity, threads, schedule);
             s.threads[t].DeqCas? && Claims(s, s.threads[t], false)
    ensures var s := Run(capacity, threads, schedule);
            && (!s.threads[t].lapped || Written(s, s.tail) <==>
                  s.tail < |s.enq| && SlotAt(s, s.tail) == Slot(s.tail + 1, Some(s.enq[s.tail].v)))
            && (Written(s, s.tail) <==> !LostClaim(s, t, Go(false)))
  {
    RunKeeps(capacity, threads, schedule);
    var s := Run(capacity, threads, schedule);
    assert ThreadOk(s, t, s.threads[t]);
    if !s.threads[t].lapped || Written(s, s.tail) {
      DeqClaimReady(s);
    } else if s.tail < |s.enq| {
      assert PositionOk(s, s.tail);
    }
  }

  /** No enqueue has given up a position, and every position claimed by a dequeue was written. */
  ghost predicate Orderly(s: State) {
    && (forall i :: 0 <= i < |s.done| ==> !s.done[i].Hole?)
    && (forall q :: 0 <= q < s.tail ==> Written(s, q))
  }

  /** Loss freedom is exact: a run is loss-free if and only if it is orderly all along. */
  lemma {:induction false} LossFreeIffOrderly(capacity: nat, threads: nat, schedule: seq<(nat, Action)>)
    requires PowerOfTwo(capacity) && capacity >= 2
    ensures LossFree(capacity, threads, schedule) <==>
            forall n :: 0 <= n <= |schedule| ==> Orderly(Run(capacity, threads, schedule[..n]))
  {
    assert schedule[..|schedule|] == schedule;
    if LossFree(capacity, threads, schedule) {
      forall n | 0 <= n <= |schedule| ensures Orderly(Run(capacity, threads, schedule[..n])) {
        LossFreePrefix(capacity, threads, schedule, n);
        LossFreeIsOrderly(capacity, threads, schedule[..n]);
      }
    } else {
      var (t, a) := schedule[|schedule| - 1];
      var earlier := schedule[..|schedule| - 1];
      LossFreeIffOrderly(capacity, threads, earlier);
      if LossFree(capacity, threads, earlier) {
        LossIsNotOrderly(capacity, threads, earlier, t, a);
      } else {
        var n :| 0 <= n <= |earlier| && !Orderly(Run(capacity, threads, earlier[..n]));
        assert earlier[..n] == schedule[..n];
      }
    }
  }

  lemma {:induction false} LossFreePrefix(capacity: nat, threads: nat, schedule: seq<(nat, Action)>, n: nat)
    requires capacity > 0 && LossFree(capacity, threads, schedule) && n <= |schedule|
    ensures LossFree(capacity, threads, schedule[..n])
  {
    if n == |schedule| {
      assert schedule[..n] == schedule;
    } else {
      assert schedule[..|schedule| - 1][..n] == schedule[..n];
      LossFreePrefix(capacity, threads, schedule[..|schedule| - 1], n);
    }
  }

  lemma LossFreeIsOrderly(capacity: nat, threads: nat, schedule: seq<(nat, Action)>)
    requires PowerOfTwo(capacity) && capacity >= 2 && LossFree(capacity, threads, schedule)
    ensures Orderly(Run(capacity, threads, schedule))
  {
    RunKeeps(capacity, threads, schedule);
    var s := Run(capacity, threads, schedule);
    forall i | 0 <= i < |s.done| ensures !s.done[i].Hole? {
      assert ResponseOk(s, s.done[i]);
    }
    forall q | 0 <= q < s.tail ensures Written(s, q) {
      assert PositionOk(s, q);
    }
  }

  lemma LossIsNotOrderly(capacity: nat, threads: nat, earlier: seq<(nat, Action)>, t: nat, a: Action)
    requires PowerOfTwo(capacity) && capacity >= 2 && LossFree(capacity, threads, earlier) && t < threads
    requires LostClaim(Run(capacity, threads, earlier), t, a)
    ensures !Orderly(Step(Run(capacity, threads, earlier), t, a))
  {
    var s := Run(capacity, threads, earlier);
    RunKeeps(capacity, threads, earlier);
    assert ThreadOk(s, t, s.threads[t]);
    var s' := Step(s, t, a);
    if s.threads[t].EnqCas? {
      assert s'.done[|s.done|].Hole?;
    } else {
      assert !Written(s', s.tail) && s'.tail == s.tail + 1;
    }
  }

  // ---------- One producer and one consumer ----------

  predicate OnEnqueueSide(pc: Pc) {
    pc.EnqLoad? || pc.EnqStamp? || pc.EnqCas? || pc.EnqConstruct? || pc.EnqPublish?
  }

  predicate OnDequeueSide(pc: Pc) {
    pc.DeqLoad? || pc.DeqStamp? || pc.DeqHead? || pc.DeqCas? || pc.DeqTake? || pc.DeqRelease?
  }

  // Only one thread enqueues and only one dequeues.
  ghost predicate OneEach(schedule: seq<(nat, Action)>, producer: nat, consumer: nat) {
    forall k :: 0 <= k < |schedule| ==>
      && (schedule[k].1.Enqueue? ==> schedule[k].0 == producer)
      && (schedule[k].1.Dequeue? ==> schedule[k].0 == consumer)
  }

  ghost predicate Roles(s: State, producer: nat, consumer: nat) {
    forall t :: 0 <= t < |s.threads| ==>
      && (OnEnqueueSide(s.threads[t]) ==> t == producer)
      && (OnDequeueSide(s.threads[t]) ==> t == consumer)
      && (s.threads[t].EnqCas? || s.threads[t].DeqCas? ==> !s.threads[t].lapped)
  }

  lemma RolesKept(s: State, t: nat, a: Action, producer: nat, consumer: nat)
    requires Inv(s) && Roles(s, producer, consumer) && t < |s.threads|
    requires (a.Enqueue? ==> t == producer) && (a.Dequeue? ==> t == consumer)
    ensures Roles(Step(s, t, a), producer, consumer)
  {
    if a.Go? && s.threads[t].EnqStamp? {
      NoEnqueueLap(s, t, producer, consumer);
    } else if a.Go? && s.threads[t].DeqStamp? {
      NoDequeueLap(s, t, producer, consumer);
    }
  }

  lemma NoEnqueueLap(s: State, t: nat, producer: nat, consumer: nat)
    requires Inv(s) && Roles(s, producer, consumer) && t < |s.threads| && s.threads[t].EnqStamp?
    ensures !EnqueueLaps(s, s.threads[t].pos)
  {
    var q: int := s.threads[t].pos - |s.slots|;
    if 0 <= q < |s.enq| {
      assert PositionOk(s, q);
    }
  }

  lemma NoDequeueLap(s: State, t: nat, producer: nat, consumer: nat)
    requires Inv(s) && Roles(s, producer, consumer) && t < |s.threads| && s.threads[t].DeqStamp?
    ensures !DequeueLaps(s, s.threads[t].pos)
  {
    var q: int := s.threads[t].pos - |s.slots|;
    if 0 <= q < |s.deq| {
      assert PositionOk(s, q);
    }
  }

  /** With one producer and one consumer no stamp load is ever lapped, so ExactlyOnceInOrder
      applies to every run. */
  lemma {:induction false} OneEachIsLossFree(capacity: nat, threads: nat, schedule: seq<(nat, Action)>,
                                            producer: nat, consumer: nat)
    requires PowerOfTwo(capacity) && capacity >= 2 && OneEach(schedule, producer, consumer)
    ensures LossFree(capacity, threads, schedule)
    ensures Roles(Run(capacity, threads, schedule), producer, consumer)
  {
    if schedule != [] {
      var (t, a) := schedule[|schedule| - 1];
      var earlier := schedule[..|schedule| - 1];
      assert forall k :: 0 <= k < |earlier| ==> earlier[k] == schedule[k];
      OneEachIsLossFree(capacity, threads, earlier, producer, consumer);
      RunKeeps(capacity, threads, earlier);
      if t < threads {
        RolesKept(Run(capacity, threads, earlier), t, a, producer, consumer);
      }
    }
  }

  // ---------- What goes wrong with more of them, and with a capacity of one ----------

  // The same thread t takes n steps without spurious failures.
  function Steps(s: State, t: nat, n: nat): (s': State)
    requires t < |s.threads| && |s.slots| > 0
    ensures |s'.threads| == |s.threads| && |s'.slots| == |s.slots|
    decreases n
  {
    if n == 0 then s else Steps(Step(s, t, Go(false)), t, n - 1)
  }

  // Only these threads enqueue and only those dequeue.
  ghost predicate ByRoles(schedule: seq<(nat, Action)>, producers: set<nat>, consumers: set<nat>) {
    forall k :: 0 <= k < |schedule| ==>
      && (schedule[k].1.Enqueue? ==> schedule[k].0 in producers)
      && (schedule[k].1.Dequeue? ==> schedule[k].0 in consumers)
  }

  // How a run came about: its parameters and who takes part.
  datatype Setting = Setting(capacity: nat, threads: nat, producers: set<nat>, consumers: set<nat>)

  ghost predicate Reachable(c: Setting, s: State)
    requires c.capacity > 0
  {
    exists schedule :: ByRoles(schedule, c.producers, c.consumers) && s == Run(c.capacity, c.threads, schedule)
  }

  ghost predicate Within(c: Setting, s: State, t: nat)
    requires c.capacity > 0
  {
    Reachable(c, s) && t < c.threads == |s.threads| && |s.slots| == c.capacity
  }

  lemma Start(c: Setting, t: nat)
    requires c.capacity > 0 && t < c.threads
    ensures Within(c, Init(c.capacity, c.threads), t)
  {
    assert ByRoles([], c.producers, c.consumers) && Init(c.capacity, c.threads) == Run(c.capacity, c.threads, []);
  }

  lemma ReachStep(c: Setting, s: State, t: nat, a: Action)
    requires c.capacity > 0 && Within(c, s, t)
    requires (a.Enqueue? ==> t in c.producers) && (a.Dequeue? ==> t in c.consumers)
    ensures Within(c, Step(s, t, a), t)
  {
    var schedule :| ByRoles(schedule, c.producers, c.consumers) && s == Run(c.capacity, c.threads, schedule);
    assert (schedule + [(t, a)])[..|schedule|] == schedule;
    assert ByRoles(schedule + [(t, a)], c.producers, c.consumers);
    assert Step(s, t, a) == Run(c.capacity, c.threads, schedule + [(t, a)]);
  }

  lemma {:induction false} ReachSteps(c: Setting, s: State, t: nat, n: nat)
    requires c.capacity > 0 && Within(c, s, t)
    ensures Within(c, Steps(s, t, n), t)
    decreases n
  {
    if n > 0 {
      ReachStep(c, s, t, Go(false));
      ReachSteps(c, Step(s, t, Go(false)), t, n - 1);
    }
  }

  // From a state with a free slot at the head, thread t enqueues without interruption.
  lemma EnqueueRuns(s: State, t: nat, v: Value)
    requires |s.slots| > 0 && t < |s.threads| && s.threads[t] == Idle && s.head == |s.enq|
    requires SlotAt(s, s.head).stamp == s.head
    ensures Steps(Step(s, t, Enqueue(v)), t, 3) ==
            s.(threads := s.threads[t := EnqConstruct(v, s.head)], head := s.head + 1, enq := s.enq + [Write(v, t, false)])
    ensures Steps(Step(s, t, Enqueue(v)), t, 5) ==
            s.(slots := s.slots[s.head % |s.slots| := Slot(s.head + 1, Some(v))], head := s.head + 1,
               enq := s.enq + [Write(v, t, true)], done := s.done + [Enqueued(s.head, v)])
  {
    var a := Step(s, t, Enqueue(v));
    var b := Step(a, t, Go(false));
    var c := Step(b, t, Go(false));
    var d := Step(c, t, Go(false));
    assert d.threads == s.threads[t := EnqConstruct(v, s.head)] && d.slots == s.slots;
    var e := Step(d, t, Go(false));
    var f := Step(e, t, Go(false));
    assert f.threads == s.threads && f.enq == s.enq + [Write(v, t, true)];
    assert Steps(d, t, 0) == d && Steps(c, t, 1) == d && Steps(b, t, 2) == d && Steps(a, t, 3) == d;
    assert Steps(f, t, 0) == f && Steps(e, t, 1) == f && Steps(d, t, 2) == f;
    assert Steps(c, t, 3) == f && Steps(b, t, 4) == f && Steps(a, t, 5) == f;
  }

  lemma {:induction false} StepsAdd(s: State, t: nat, m: nat, n: nat)
    requires t < |s.threads| && |s.slots| > 0
    ensures Steps(s, t, m + n) == Steps(Steps(s, t, m), t, n)
    decreases m
  {
    if m > 0 {
      StepsAdd(Step(s, t, Go(false)), t, m - 1, n);
    }
  }

  // From a state with a value at the tail, thread t dequeues without interruption.
  lemma DequeueRuns(s: State, t: nat, v: Value)
    requires |s.slots| > 0 && t < |s.threads| && s.threads[t] == Idle && s.tail == |s.deq|
    requires SlotAt(s, s.tail) == Slot(s.tail + 1, Some(v))
    ensures Steps(Step(s, t, Dequeue), t, 3) ==
            s.(threads := s.threads[t := DeqTake(s.tail)], tail := s.tail + 1, deq := s.deq + [Read(None, t, false)])
    ensures Steps(Step(s, t, Dequeue), t, 5) ==
            s.(slots := s.slots[s.tail % |s.slots| := Slot(s.tail + |s.slots|, None)], tail := s.tail + 1,
               deq := s.deq + [Read(Some(v), t, true)], done := s.done + [Dequeued(s.tail, v)])
  {
    hide Step, Steps;
    DequeueClaims(s, t, v);
    StepsAdd(Step(s, t, Dequeue), t, 3, 2);
    var d := Steps(Step(s, t, Dequeue), t, 3);
    DequeueEnds(d, t, s.tail, v);
    assert d.threads[t := Idle] == s.threads;
    assert d.deq[s.tail := Read(Some(v), t, true)] == s.deq + [Read(Some(v), t, true)];
  }

  lemma DequeueClaims(s: State, t: nat, v: Value)
    requires |s.slots| > 0 && t < |s.threads| && s.threads[t] == Idle && s.tail == |s.deq|
    requires SlotAt(s, s.tail) == Slot(s.tail + 1, Some(v))
    ensures Steps(Step(s, t, Dequeue), t, 3) ==
            s.(threads := s.threads[t := DeqTake(s.tail)], tail := s.tail + 1, deq := s.deq + [Read(None, t, false)])
  {
    var a := Step(s, t, Dequeue);
    var b := Step(a, t, Go(false));
    var c := Step(b, t, Go(false));
    assert c.threads[t].DeqCas? && c.threads[t].stamp == s.tail + 1;
    var d := Step(c, t, Go(false));
    assert Steps(d, t, 0) == d && Steps(c, t, 1) == d && Steps(b, t, 2) == d && Steps(a, t, 3) == d;
    assert d.threads == s.threads[t := DeqTake(s.tail)];
  }

  lemma DequeueEnds(d: State, t: nat, pos: nat, v: Value)
    requires |d.slots| > 0 && t < |d.threads| && d.threads[t] == DeqTake(pos) && pos < |d.deq|
    requires d.deq[pos] == Read(None, t, false) && SlotAt(d, pos) == Slot(pos + 1, Some(v))
    ensures Steps(d, t, 2) ==
            d.(slots := d.slots[pos % |d.slots| := Slot(pos + |d.slots|, None)], threads := d.threads[t := Idle],
               deq := d.deq[pos := Read(Some(v), t, true)], done := d.done + [Dequeued(pos, v)])
  {
    var e := Step(d, t, Go(false));
    var f := Step(e, t, Go(false));
    assert Steps(f, t, 0) == f && Steps(e, t, 1) == f && Steps(d, t, 2) == f;
    assert f.slots == d.slots[pos % |d.slots| := Slot(pos + |d.slots|, None)];
    assert f.threads == d.threads[t := Idle];
  }

  // ---------- Calls that run alone ----------

  /** The values written and not yet claimed by a dequeue, oldest first. */
  function Contents(s: State): seq<Value>
    requires s.tail <= s.head == |s.enq|
  {
    seq(s.head - s.tail, (i: nat) requires s.tail + i < |s.enq| => s.enq[s.tail + i].v)
  }

  // What the slots at the two ends hold when no call is in progress.
  ghost predicate EndsOk(s: State) {
    && |s.slots| > 0 && |s.slots| % 2 == 0 && s.tail == |s.deq| <= s.head == |s.enq| <= s.tail + |s.slots|
    && (s.head - s.tail < |s.slots| ==> SlotAt(s, s.head) == Slot(s.head, None))
    && (s.head - s.tail == |s.slots| ==> SlotAt(s, s.head).stamp == s.tail + 1)
    && (s.tail < s.head ==> SlotAt(s, s.tail) == Slot(s.tail + 1, Some(s.enq[s.tail].v)))
  }

  lemma EndsAtRest(s: State)
    requires Inv(s) && forall t :: 0 <= t < |s.threads| ==> s.threads[t] == Idle
    ensures EndsOk(s)
  {
    var q: int := s.head - |s.slots|;
    if q < 0 {
      QuotientUnique(s.head, |s.slots|, 0, s.head);
    } else {
      assert PositionOk(s, q);
      OneLapLater(q, |s.slots|);
      if q > 0 {
        assert PositionOk(s, q - 1) && Released(s, q - 1);
      }
    }
    if s.tail < s.head {
      assert PositionOk(s, s.tail);
    }
  }

  // An enqueue that finds the ring full goes round without a change.
  lemma FullSpins(s: State, t: nat, v: Value)
    requires |s.slots| > 0 && |s.slots| % 2 == 0 && t < |s.threads| && s.threads[t] == EnqLoad(v)
    requires s.head >= |s.slots| && SlotAt(s, s.head).stamp == s.head - |s.slots| + 1
    ensures Steps(s, t, 2) == s
  {
    SameParity(s.head, |s.slots|);
    var b := Step(s, t, Go(false));
    var c := Step(b, t, Go(false));
    assert c.threads == s.threads;
    assert Steps(c, t, 0) == c && Steps(b, t, 1) == c && Steps(s, t, 2) == c;
  }

  lemma EmptyAnswers(s: State, t: nat)
    requires |s.slots| > 0 && t < |s.threads| && s.threads[t] == Idle && s.head == s.tail && SlotAt(s, s.tail).stamp == s.tail
    ensures Steps(Step(s, t, Dequeue), t, 3) == s.(done := s.done + [FoundEmpty(s.head, s.tail)])
  {
    var a := Step(s, t, Dequeue);
    var b := Step(a, t, Go(false));
    var c := Step(b, t, Go(false));
    var d := Step(c, t, Go(false));
    assert d.threads == s.threads;
    assert Steps(d, t, 0) == d && Steps(c, t, 1) == d && Steps(b, t, 2) == d && Steps(a, t, 3) == d;
  }

  // A loss-free run that leaves no call in progress.
  ghost predicate Rests(capacity: nat, threads: nat, schedule: seq<(nat, Action)>) {
    && PowerOfTwo(capacity) && capacity >= 2 && LossFree(capacity, threads, schedule)
    && forall u :: 0 <= u < threads ==> Run(capacity, threads, schedule).threads[u] == Idle
  }

  // s is followed by s', which differs from it by this response, and by these contents.
  ghost predicate Answered(s: State, s': State, r: Response, contents: seq<Value>) {
    && s'.threads == s.threads && s'.done == s.done + [r]
    && s'.tail <= s'.head == |s'.enq| && Contents(s') == contents
  }

  // What enqueue does when it runs alone.
  ghost predicate Enqueues(s: State, t: nat, v: Value)
    requires |s.slots| > 0 && t < |s.threads| && s.tail <= s.head == |s.enq|
  {
    var begun := Step(s, t, Enqueue(v));
    if |Contents(s)| < |s.slots| then Answered(s, Steps(begun, t, 5), Enqueued(s.head, v), Contents(s) + [v])
    else Steps(begun, t, 2) == begun
  }

  ghost predicate Dequeues(s: State, t: nat)
    requires |s.slots| > 0 && t < |s.threads| && s.tail <= s.head == |s.enq|
  {
    var begun := Step(s, t, Dequeue);
    if Contents(s) != [] then Answered(s, Steps(begun, t, 5), Dequeued(s.tail, Contents(s)[0]), Contents(s)[1..])
    else Answered(s, Steps(begun, t, 3), FoundEmpty(s.head, s.tail), [])
  }

  lemma EnqueueAtRest(s: State, t: nat, v: Value)
    requires EndsOk(s) && t < |s.threads| && s.threads[t] == Idle
    ensures Enqueues(s, t, v)
  {
    var begun := Step(s, t, Enqueue(v));
    assert begun.threads[t] == EnqLoad(v) && begun.slots == s.slots && begun.head == s.head;
    hide Steps, Step;
    if |Contents(s)| < |s.slots| {
      EnqueueRuns(s, t, v);
      assert Contents(Steps(begun, t, 5)) == Contents(s) + [v];
    } else {
      FullSpins(begun, t, v);
    }
  }

  lemma DequeueAtRest(s: State, t: nat)
    requires EndsOk(s) && t < |s.threads| && s.threads[t] == Idle
    ensures Dequeues(s, t)
  {
    hide Steps, Step;
    if Contents(s) != [] {
      DequeueRuns(s, t, Contents(s)[0]);
      assert Contents(Steps(Step(s, t, Dequeue), t, 5)) == Contents(s)[1..];
    } else {
      EmptyAnswers(s, t);
    }
  }

  /** After every loss-free run that leaves no call in progress, the ring is a bounded first-in
      first-out queue to a caller that is alone: enqueue appends its value in five steps or, when
      the ring is full, comes round to where it began; dequeue takes the oldest value in five
      steps, or reports in three that there is none. */
  lemma AloneIsAQueue(capacity: nat, threads: nat, schedule: seq<(nat, Action)>, t: nat, v: Value)
    requires Rests(capacity, threads, schedule) && t < threads
    ensures var s := Run(capacity, threads, schedule);
            s.tail <= s.head == |s.enq| && |Contents(s)| <= capacity && Enqueues(s, t, v) && Dequeues(s, t)
  {
    hide Enqueues, Dequeues;
    var s := Run(capacity, threads, schedule);
    RunKeeps(capacity, threads, schedule);
    EndsAtRest(s);
    EnqueueAtRest(s, t, v);
    DequeueAtRest(s, t);
  }

  // Slots i .. j hold v at the positions of the first lap.
  ghost predicate Full(s: State, i: nat, j: nat, v: Value) {
    j <= |s.slots| && forall k :: i <= k < j ==> s.slots[k] == Slot(k + 1, Some(v))
  }

  // Thread t fills the slots from the head on, up to n, in the first lap.
  lemma {:induction false} FillUp(c: Setting, s: State, t: nat, v: Value, n: nat) returns (s': State)
    requires c.capacity > 0 && Within(c, s, t) && t in c.producers && s.threads[t] == Idle
    requires s.head == |s.enq| <= n <= |s.slots| && forall i :: s.head <= i < n ==> s.slots[i] == Slot(i, None)
    ensures Within(c, s', t) && s'.threads == s.threads && s'.tail == s.tail && s'.deq == s.deq
    ensures s'.head == |s'.enq| == n && s'.enq[..s.head] == s.enq && Full(s', s.head, n, v)
    ensures forall i :: 0 <= i < |s.slots| && !(s.head <= i < n) ==> s'.slots[i] == s.slots[i]
    decreases n - s.head
  {
    if s.head == n {
      s' := s;
    } else {
      hide Step, Steps;
      QuotientUnique(s.head, |s.slots|, 0, s.head);
      EnqueueRuns(s, t, v);
      ReachStep(c, s, t, Enqueue(v));
      ReachSteps(c, Step(s, t, Enqueue(v)), t, 5);
      var s1 := Steps(Step(s, t, Enqueue(v)), t, 5);
      s' := FillUp(c, s1, t, v, n);
      assert s'.enq[..s.head] == s'.enq[..s1.head][..s.head] == s.enq;
    }
  }

  // Thread t empties the slots from the tail on, up to n, in the first lap.
  lemma {:induction false} Empty(c: Setting, s: State, t: nat, v: Value, n: nat) returns (s': State)
    requires c.capacity > 0 && Within(c, s, t) && t in c.consumers && s.threads[t] == Idle
    requires s.tail == |s.deq| <= n && Full(s, s.tail, n, v)
    ensures Within(c, s', t) && s'.threads == s.threads && s'.head == s.head && s'.enq == s.enq
    ensures s'.tail == |s'.deq| == n && s'.deq[..s.tail] == s.deq
    ensures forall i :: 0 <= i < |s.slots| && !(s.tail <= i < n) ==> s'.slots[i] == s.slots[i]
    decreases n - s.tail
  {
    if s.tail == n {
      s' := s;
    } else {
      hide Step, Steps;
      QuotientUnique(s.tail, |s.slots|, 0, s.tail);
      DequeueRuns(s, t, v);
      ReachStep(c, s, t, Dequeue);
      ReachSteps(c, Step(s, t, Dequeue), t, 5);
      var s1 := Steps(Step(s, t, Dequeue), t, 5);
      s' := Empty(c, s1, t, v, n);
      assert s'.deq[..s.tail] == s'.deq[..s1.tail][..s.tail] == s.deq;
    }
  }

  // The slot of the first position of the second lap.
  lemma SecondLap(s: State)
    requires |s.slots| > 0
    ensures SlotAt(s, |s.slots|) == s.slots[0]
  {
    QuotientUnique(|s.slots|, |s.slots|, 1, 0);
  }

  /** With two producers a position can be lost, whatever the capacity: p claims position 0 and
      pauses, q fills the rest of the ring, and then claims the next position by the stale stamp
      of slot 0.  Its call returns false although it has used up a position that nobody will
      ever fill. */
  lemma LappedClaimLeavesHole(c: Setting, p: nat, q: nat, v: Value)
    requires PowerOfTwo(c.capacity) && c.capacity >= 2
    requires p < c.threads && q < c.threads && p != q && p in c.producers && q in c.producers
    ensures exists s :: Reachable(c, s) && s.head == c.capacity + 1 && s.done != [] && s.done[|s.done| - 1] == Hole(c.capacity, v)
  {
    var n := c.capacity;
    var s1 := PauseFirst(c, p, v);
    var s2 := FillUp(c, s1, q, v, n);
    assert s2.enq[0] == s1.enq[0];
    SecondLap(s2);
    var a := Step(s2, q, Enqueue(v));
    var b := Step(a, q, Go(false));
    var d := Step(b, q, Go(false));
    assert d.threads[q] == EnqCas(v, n, 0, true);
    ReachStep(c, s2, q, Enqueue(v));
    ReachStep(c, a, q, Go(false));
    ReachStep(c, b, q, Go(false));
    ReachStep(c, d, q, Go(false));
    assert Step(d, q, Go(false)).done == s2.done + [Hole(n, v)];
  }

  // p claims position 0 and pauses.
  lemma PauseFirst(c: Setting, p: nat, v: Value) returns (s: State)
    requires c.capacity > 0 && p < c.threads && p in c.producers
    ensures Within(c, s, p) && s.head == 1 && s.tail == 0 && s.deq == [] && s.enq == [Write(v, p, false)]
    ensures s.slots == Init(c.capacity, c.threads).slots
    ensures s.threads == Init(c.capacity, c.threads).threads[p := EnqConstruct(v, 0)]
  {
    hide Step, Steps;
    var s0 := Init(c.capacity, c.threads);
    Start(c, p);
    QuotientUnique(0, c.capacity, 0, 0);
    EnqueueRuns(s0, p, v);
    ReachStep(c, s0, p, Enqueue(v));
    ReachSteps(c, Step(s0, p, Enqueue(v)), p, 3);
    s := Steps(Step(s0, p, Enqueue(v)), p, 3);
  }

  /** With two consumers a slot can be read twice, whatever the capacity: p fills the ring, t
      claims position 0 and pauses, u empties the rest, and then claims the next position, which
      nobody has written, by the stale stamp of slot 0.  Both are about to move out of slot 0,
      and tail_ has overtaken head_. */
  lemma LappedClaimReadsTwice(c: Setting, p: nat, t: nat, u: nat, v: Value)
    requires PowerOfTwo(c.capacity) && c.capacity >= 2 && p in c.producers && p < c.threads
    requires t < c.threads && u < c.threads && t != u && t in c.consumers && u in c.consumers
    ensures exists s :: Reachable(c, s) && s.head == c.capacity && s.tail == c.capacity + 1
              && |s.threads| == c.threads && s.threads[t] == DeqTake(0) && s.threads[u] == DeqTake(c.capacity)
              && |s.slots| == c.capacity && SlotAt(s, c.capacity) == SlotAt(s, 0) == Slot(1, Some(v))
  {
    var n := c.capacity;
    var s1 := PauseReader(c, p, t, v);
    var s2 := Empty(c, s1, u, v, n);
    assert s2.deq[0] == s1.deq[0];
    SecondLap(s2);
    QuotientUnique(0, n, 0, 0);
    var a := Step(s2, u, Dequeue);
    var b := Step(a, u, Go(false));
    var d := Step(b, u, Go(false));
    assert d.threads[u] == DeqCas(n, 1, true);
    ReachStep(c, s2, u, Dequeue);
    ReachStep(c, a, u, Go(false));
    ReachStep(c, b, u, Go(false));
    ReachStep(c, d, u, Go(false));
    assert Step(d, u, Go(false)).threads[u] == DeqTake(n);
  }

  // p fills the ring, and t claims position 0 and pauses.
  lemma PauseReader(c: Setting, p: nat, t: nat, v: Value) returns (s: State)
    requires c.capacity > 0 && p < c.threads && p in c.producers && t < c.threads && t in c.consumers
    ensures Within(c, s, t) && s.head == c.capacity && s.tail == 1 && s.deq == [Read(None, t, false)]
    ensures s.slots[0] == Slot(1, Some(v)) && Full(s, 1, c.capacity, v)
    ensures s.threads == Init(c.capacity, c.threads).threads[t := DeqTake(0)]
  {
    hide Step, Steps;
    var s0 := Init(c.capacity, c.threads);
    Start(c, p);
    var s1 := FillUp(c, s0, p, v, c.capacity);
    QuotientUnique(0, c.capacity, 0, 0);
    DequeueRuns(s1, t, v);
    ReachStep(c, s1, t, Dequeue);
    ReachSteps(c, Step(s1, t, Dequeue), t, 3);
    s := Steps(Step(s1, t, Dequeue), t, 3);
  }

  // Without producers there is nothing to claim.
  ghost predicate Untouched(s: State) {
    && s.head == 0 && s.tail == 0
    && (forall i :: 0 <= i < |s.slots| ==> s.slots[i] == Slot(i, None))
    && (forall t :: 0 <= t < |s.threads| ==>
          var pc := s.threads[t];
          pc.Idle? || pc.DeqLoad? || ((pc.DeqStamp? || pc.DeqHead?) && pc.pos == 0))
  }

  lemma {:induction false} NoProducersIsLossFree(c: Setting, schedule: seq<(nat, Action)>)
    requires c.capacity > 0 && c.producers == {} && ByRoles(schedule, c.producers, c.consumers)
    ensures LossFree(c.capacity, c.threads, schedule) && Untouched(Run(c.capacity, c.threads, schedule))
  {
    if schedule != [] {
      var n := |schedule| - 1;
      assert forall k :: 0 <= k < n ==> schedule[..n][k] == schedule[k];
      NoProducersIsLossFree(c, schedule[..n]);
      QuotientUnique(0, c.capacity, 0, 0);
    }
  }

  lemma OneMember(a: set<nat>, x: nat)
    requires x in a && |a| <= 1
    ensures forall y :: y in a ==> y == x
  {
    assert |a - {x}| == 0;
  }

  lemma TwoMembers(a: set<nat>) returns (x: nat, y: nat)
    requires |a| >= 2
    ensures x in a && y in a && x != y
  {
    x :| x in a;
    assert |a - {x}| >= 1;
    y :| y in a - {x};
  }

  /** The condition that a client can meet: every run of these producers and consumers is
      loss-free, so that ExactlyOnceInOrder applies to it, if and only if there are at most one of
      each, or nobody who enqueues. */
  lemma ExactlyOnceIffOneEach(c: Setting)
    requires PowerOfTwo(c.capacity) && c.capacity >= 2
    requires forall t :: t in c.producers || t in c.consumers ==> t < c.threads
    ensures (forall schedule :: ByRoles(schedule, c.producers, c.consumers) ==>
               LossFree(c.capacity, c.threads, schedule))
            <==> c.producers == {} || (|c.producers| <= 1 && |c.consumers| <= 1)
  {
    if c.producers == {} {
      forall schedule | ByRoles(schedule, c.producers, c.consumers)
        ensures LossFree(c.capacity, c.threads, schedule)
      {
        NoProducersIsLossFree(c, schedule);
      }
    } else if |c.producers| <= 1 && |c.consumers| <= 1 {
      forall schedule | ByRoles(schedule, c.producers, c.consumers)
        ensures LossFree(c.capacity, c.threads, schedule)
      {
        FewIsLossFree(c, schedule);
      }
    } else {
      var schedule := ManyCanLose(c);
    }
  }

  lemma FewIsLossFree(c: Setting, schedule: seq<(nat, Action)>)
    requires PowerOfTwo(c.capacity) && c.capacity >= 2 && ByRoles(schedule, c.producers, c.consumers)
    requires c.producers != {} && |c.producers| <= 1 && |c.consumers| <= 1
    ensures LossFree(c.capacity, c.threads, schedule)
  {
    var p :| p in c.producers;
    OneMember(c.producers, p);
    if c.consumers == {} {
      OneEachIsLossFree(c.capacity, c.threads, schedule, p, 0);
    } else {
      var q :| q in c.consumers;
      OneMember(c.consumers, q);
      OneEachIsLossFree(c.capacity, c.threads, schedule, p, q);
    }
  }

  lemma ManyCanLose(c: Setting) returns (schedule: seq<(nat, Action)>)
    requires PowerOfTwo(c.capacity) && c.capacity >= 2
    requires forall t :: t in c.producers || t in c.consumers ==> t < c.threads
    requires c.producers != {} && (|c.producers| > 1 || |c.consumers| > 1)
    ensures ByRoles(schedule, c.producers, c.consumers) && !LossFree(c.capacity, c.threads, schedule)
  {
    var v: Value := *;
    var s: State;
    if |c.producers| > 1 {
      var p, q := TwoMembers(c.producers);
      LappedClaimLeavesHole(c, p, q, v);
      s :| Reachable(c, s) && s.done != [] && s.done[|s.done| - 1] == Hole(c.capacity, v);
    } else {
      var p :| p in c.producers;
      var t, u := TwoMembers(c.consumers);
      LappedClaimReadsTwice(c, p, t, u, v);
      s :| Reachable(c, s) && s.head < s.tail;
    }
    schedule :| ByRoles(schedule, c.producers, c.consumers) && s == Run(c.capacity, c.threads, schedule);
    LossFreeFacts(c.capacity, c.threads, schedule);
  }

  lemma LossFreeFacts(capacity: nat, threads: nat, schedule: seq<(nat, Action)>)
    requires PowerOfTwo(capacity) && capacity >= 2
    ensures var s := Run(capacity, threads, schedule);
            LossFree(capacity, threads, schedule) ==> Orderly(s) && s.tail <= s.head
  {
    if LossFree(capacity, threads, schedule) {
      RunKeeps(capacity, threads, schedule);
      LossFreeIsOrderly(capacity, threads, schedule);
    }
  }

  /** The constructor accepts a capacity of one, where the stamps of a full and of a free slot
      coincide: a second enqueue overwrites the first value, unread, and both return true. */
  lemma CapacityOneOverwrites(v: Value, w: Value)
    ensures PowerOfTwo(1)
    ensures exists s :: Reachable(Setting(1, 1, {0}, {}), s)
              && s.done == [Enqueued(0, v), Enqueued(1, w)] && s.slots == [Slot(2, Some(w))]
  {
    hide Step, Steps;
    var c := Setting(1, 1, {0}, {});
    var s0 := Init(1, 1);
    Start(c, 0);
    EnqueueRuns(s0, 0, v);
    var s1 := Steps(Step(s0, 0, Enqueue(v)), 0, 5);
    ReachStep(c, s0, 0, Enqueue(v));
    ReachSteps(c, Step(s0, 0, Enqueue(v)), 0, 5);
    EnqueueRuns(s1, 0, w);
    var s2 := Steps(Step(s1, 0, Enqueue(w)), 0, 5);
    ReachStep(c, s1, 0, Enqueue(w));
    ReachSteps(c, Step(s1, 0, Enqueue(w)), 0, 5);
  }
}
