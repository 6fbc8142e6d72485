/**
  The single-producer single-consumer ring of examples/lock_free/lockfree_spsc_queue.hpp.

  The two counters are machine words of `bits` bits that wrap around; each load, store,
  construction and move is one step of the producer or of the consumer.  `produced` and
  `consumed` are history: the values published and the values returned, oldest first.
 */
module SpscRing {
  import opened Wrappers
  import opened Residues

  type Value(==, !new, 0)

  datatype Producer =
    | Resting
    | LoadRead(v: Value, w: nat)
    | Construct(v: Value, w: nat)
    | Publish(v: Value, w: nat)

  datatype Consumer =
    | Waiting
    | LoadWrite(r: nat)
    | Take(r: nat)
    | Release(r: nat, v: Value)

  datatype State = State(
    bits: nat, slots: seq<Option<Value>>, write: nat, read: nat,
    producer: Producer, consumer: Consumer,
    produced: seq<Value>, consumed: seq<Value>, refused: nat, misses: nat)

  datatype Action = Enqueue(v: Value) | ProducerStep | ConsumerStep

  function Pow2(k: nat): nat
    ensures Pow2(k) > 0
  {
    if k == 0 then 1 else 2 * Pow2(k - 1)
  }

  // Words are numbers below Word(s); their arithmetic wraps around.
  function Word(s: State): nat {
    Pow2(s.bits)
  }

  function Init(bits: nat, capacity: nat): State {
    State(bits, seq(capacity, _ => None), 0, 0, Resting, Waiting, [], [], 0, 0)
  }

  // enqueue, from the load of write_ on.
  function ProducerNext(s: State): State {
    match s.producer
    case Resting => s
    case LoadRead(v, w) =>
      if (w - s.read) % Word(s) >= |s.slots| then s.(producer := Resting, refused := s.refused + 1)
      else s.(producer := Construct(v, w))
    case Construct(v, w) =>
      if |s.slots| == 0 then s
      else s.(slots := s.slots[w % |s.slots| := Some(v)], producer := Publish(v, w))
    case Publish(v, w) =>
      s.(write := (w + 1) % Word(s), producer := Resting, produced := s.produced + [v])
  }

  // dequeue; its first step is the load of read_.
  function ConsumerNext(s: State): State {
    match s.consumer
    case Waiting => s.(consumer := LoadWrite(s.read))
    case LoadWrite(r) =>
      if r == s.write then s.(consumer := Waiting, misses := s.misses + 1) else s.(consumer := Take(r))
    case Take(r) =>
      if |s.slots| == 0 || s.slots[r % |s.slots|] == None then s
      else s.(slots := s.slots[r % |s.slots| := None],
              consumer := Release(r, s.slots[r % |s.slots|].value))
    case Release(r, v) =>
      s.(read := (r + 1) % Word(s), consumer := Waiting, consumed := s.consumed + [v])
  }

  function Step(s: State, a: Action): (s': State)
    ensures |s'.slots| == |s.slots| && s'.bits == s.bits
  {
    match a
    case Enqueue(v) => if s.producer == Resting then s.(producer := LoadRead(v, s.write)) else s
    case ProducerStep => ProducerNext(s)
    case ConsumerStep => ConsumerNext(s)
  }

  function Run(bits: nat, capacity: nat, actions: seq<Action>): (s: State)
    ensures |s.slots| == capacity && s.bits == bits
  {
    if actions == [] then Init(bits, capacity)
    else Step(Run(bits, capacity, actions[..|actions| - 1]), actions[|actions| - 1])
  }

  // ---------- The invariant ----------

  ghost predicate ProducerOk(s: State) {
    match s.producer
    case Resting => true
    case LoadRead(_, w) => w == s.write
    case Construct(_, w) => w == s.write && |s.produced| - |s.consumed| < |s.slots|
    case Publish(_, w) => w == s.write && |s.produced| - |s.consumed| < |s.slots|
  }

  ghost predicate ConsumerOk(s: State) {
    match s.consumer
    case Waiting => true
    case LoadWrite(r) => r == s.read
    case Take(r) => r == s.read && |s.consumed| < |s.produced|
    case Release(r, v) => r == s.read && |s.consumed| < |s.produced| && v == s.produced[|s.consumed|]
  }

  // The number of the value that belongs in the slot of position i, if any, is i itself.
  ghost predicate SlotOk(s: State, i: nat)
    requires |s.slots| > 0
  {
    var slot := s.slots[i % |s.slots|];
    if i < |s.consumed| then true
    else if i < |s.produced| then
      slot == (if i == |s.consumed| && s.consumer.Release? then None else Some(s.produced[i]))
    else if i == |s.produced| && s.producer.Publish? then slot == Some(s.producer.v)
    else i < |s.consumed| + |s.slots| ==> slot == None
  }

  ghost predicate Inv(s: State) {
    && 0 < |s.slots| && 2 * |s.slots| <= Word(s) && Word(s) % |s.slots| == 0
    && |s.consumed| <= |s.produced| <= |s.consumed| + |s.slots|
    && s.consumed == s.produced[..|s.consumed|]
    && s.write == |s.produced| % Word(s) && s.read == |s.consumed| % Word(s)
    && ProducerOk(s) && ConsumerOk(s)
    && forall i :: |s.consumed| <= i < |s.consumed| + |s.slots| ==> SlotOk(s, i)
  }

  // ---------- Arithmetic of wrapping counters ----------

  lemma Distance(w: nat, r: nat, m: nat)
    requires m > 0 && r <= w < r + m
    ensures (w % m - r % m) % m == w - r
    ensures w % m == r % m <==> w == r
  {
    var wq, wr := DivMod(w, m);
    var rq, rr := DivMod(r, m);
    DistanceOf(wq, wr, rq, rr, w - r, m);
  }

  lemma DivMod(w: nat, m: nat) returns (q: nat, r: nat)
    requires m > 0
    ensures w == q * m + r && r == w % m < m
  {
    q, r := w / m, w % m;
  }

  // With the quotients and remainders named.
  lemma DistanceOf(wq: nat, wr: nat, rq: nat, rr: nat, y: nat, m: nat)
    requires wr < m && rr < m && y < m && wq * m + wr == rq * m + rr + y
    ensures (wr - rr) % m == y
    ensures wr == rr <==> y == 0
  {
    var d := wq - rq;
    assert wq * m - rq * m == d * m;
    MultipleBounds(d, m);
    MultipleBounds(d - 1, m);
    assert (d - 1) * m == d * m - m;
    if d == 0 {
      QuotientUnique(y, m, 0, y);
    } else {
      assert d == 1;
      ShiftedResidue(wr - rr, m, y);
    }
  }

  lemma ShiftedResidue(x: int, m: nat, y: nat)
    requires m > 0 && x + m == y && y < m
    ensures x % m == y
  {
    assert x == (x / m) * m + x % m;
    assert (x / m + 1) * m == (x / m) * m + m;
    QuotientUnique(y, m, x / m + 1, x % m);
  }

  lemma Increment(w: nat, m: nat)
    requires m > 0
    ensures (w % m + 1) % m == (w + 1) % m
  {
    assert w == (w / m) * m + w % m;
    if w % m + 1 < m {
      QuotientUnique(w + 1, m, w / m, w % m + 1);
      QuotientUnique(w % m + 1, m, 0, w % m + 1);
    } else {
      assert (w / m + 1) * m == (w / m) * m + m;
      QuotientUnique(w + 1, m, w / m + 1, 0);
      QuotientUnique(m, m, 1, 0);
    }
  }

  lemma Regroup(a: nat, k: nat, n: nat, b: nat)
    ensures a * (k * n) + b * n == (a * k + b) * n
  {
    assert a * (k * n) == (a * k) * n;
  }

  // Masking a wrapped counter gives the slot of the unwrapped one.
  lemma Masked(w: nat, m: nat, n: nat)
    requires 0 < n <= m && m % n == 0
    ensures (w % m) % n == w % n
  {
    MaskedParts(w, n, w / m, m / n, w % m, m);
  }

  lemma MaskedParts(w: nat, n: nat, a: nat, k: nat, x: nat, m: nat)
    requires n > 0 && m == k * n && w == a * m + x
    ensures x % n == w % n
  {
    var b := x / n;
    Regroup(a, k, n, b);
    QuotientUnique(w, n, a * k + b, x % n);
  }

  lemma SlotDistinct(p: nat, q: nat, n: nat)
    requires p < q < p + n || q < p < q + n
    ensures p % n != q % n
  {
    DifferentSlots(if p < q then p else q, if p < q then q else p, n);
  }

  // ---------- The invariant is kept ----------

  // A change to the slot of position p alone, p being in the window of one lap.
  lemma OtherSlotsKept(s: State, s': State, p: nat)
    requires Inv(s) && |s.consumed| <= p < |s.consumed| + |s.slots|
    requires s'.produced == s.produced && s'.consumed == s.consumed && |s'.slots| == |s.slots|
    requires s'.slots == s.slots[p % |s.slots| := s'.slots[p % |s.slots|]]
    requires s'.consumer != s.consumer ==> p == |s.consumed|
    requires s'.producer != s.producer ==> p == |s.produced|
    requires SlotOk(s', p)
    ensures forall i :: |s.consumed| <= i < |s.consumed| + |s.slots| ==> SlotOk(s', i)
  {
    forall i | |s.consumed| <= i < |s.consumed| + |s.slots| ensures SlotOk(s', i) {
      assert SlotOk(s, i);
      if i != p {
        SlotDistinct(i, p, |s.slots|);
      }
    }
  }

  lemma SlotsKept(s: State, s': State)
    requires Inv(s)
    requires s'.produced == s.produced && s'.consumed == s.consumed && s'.slots == s.slots
    requires s'.producer.Publish? == s.producer.Publish? && s'.consumer.Release? == s.consumer.Release?
    requires s.producer.Publish? ==> s'.producer == s.producer
    ensures forall i :: |s.consumed| <= i < |s.consumed| + |s.slots| ==> SlotOk(s', i)
  {
    forall i | |s.consumed| <= i < |s.consumed| + |s.slots| ensures SlotOk(s', i) {
      assert SlotOk(s, i);
    }
  }

  lemma LoadReadKept(s: State)
    requires Inv(s) && s.producer.LoadRead?
    ensures Inv(ProducerNext(s))
  {
    Distance(|s.produced|, |s.consumed|, Word(s));
    SlotsKept(s, ProducerNext(s));
  }

  lemma ConstructKept(s: State)
    requires Inv(s) && s.producer.Construct?
    ensures Inv(ProducerNext(s))
    ensures s.slots[s.producer.w % |s.slots|] == None
  {
    var p := |s.produced|;
    assert SlotOk(s, p);
    Masked(p, Word(s), |s.slots|);
    OtherSlotsKept(s, ProducerNext(s), p);
  }

  lemma PublishKept(s: State)
    requires Inv(s) && s.producer.Publish?
    ensures Inv(ProducerNext(s))
  {
    var s' := ProducerNext(s);
    Increment(|s.produced|, Word(s));
    forall i | |s.consumed| <= i < |s.consumed| + |s.slots| ensures SlotOk(s', i) {
      assert SlotOk(s, i);
    }
    assert s'.produced[..|s.consumed|] == s.produced[..|s.consumed|];
  }

  lemma LoadWriteKept(s: State)
    requires Inv(s) && (s.consumer.LoadWrite? || s.consumer.Waiting?)
    ensures Inv(ConsumerNext(s))
  {
    Distance(|s.produced|, |s.consumed|, Word(s));
    SlotsKept(s, ConsumerNext(s));
  }

  lemma TakeKept(s: State)
    requires Inv(s) && s.consumer.Take?
    ensures Inv(ConsumerNext(s))
    ensures s.slots[s.consumer.r % |s.slots|] == Some(s.produced[|s.consumed|])
  {
    var p := |s.consumed|;
    assert SlotOk(s, p);
    Masked(p, Word(s), |s.slots|);
    OtherSlotsKept(s, ConsumerNext(s), p);
  }

  lemma ReleaseKept(s: State)
    requires Inv(s) && s.consumer.Release?
    ensures Inv(ConsumerNext(s))
  {
    var s' := ConsumerNext(s);
    var p := |s.consumed|;
    Increment(p, Word(s));
    assert s'.consumed == s'.produced[..|s'.consumed|];
    forall i | |s'.consumed| <= i < |s'.consumed| + |s.slots| ensures SlotOk(s', i) {
      if i == p + |s.slots| {
        // the freed slot is now the furthest one ahead
        assert SlotOk(s, p);
        OneLapLater(p, |s.slots|);
      } else {
        assert SlotOk(s, i);
      }
    }
  }

  lemma StepKept(s: State, a: Action)
    requires Inv(s)
    ensures Inv(Step(s, a))
  {
    match a
    case Enqueue(v) =>
      if s.producer == Resting {
        SlotsKept(s, Step(s, a));
      }
    case ProducerStep =>
      match s.producer {
        case Resting =>
        case LoadRead(_, _) => LoadReadKept(s);
        case Construct(_, _) => ConstructKept(s);
        case Publish(_, _) => PublishKept(s);
      }
    case ConsumerStep =>
      match s.consumer {
        case Waiting => LoadWriteKept(s);
        case LoadWrite(_) => LoadWriteKept(s);
        case Take(_) => TakeKept(s);
        case Release(_, _) => ReleaseKept(s);
      }
  }

  lemma PowerDivides(k: nat, n: nat)
    requires k <= n
    ensures Pow2(n) % Pow2(k) == 0 && Pow2(k) <= Pow2(n)
  {
    var q := PowerQuotient(k, n);
    QuotientUnique(Pow2(n), Pow2(k), q, 0);
    MultipleBounds(q, Pow2(k));
  }

  lemma {:induction false} PowerQuotient(k: nat, n: nat) returns (q: nat)
    requires k <= n
    ensures q >= 1 && Pow2(n) == q * Pow2(k)
  {
    if k == n {
      q := 1;
    } else {
      var h := PowerQuotient(k, n - 1);
      q := 2 * h;
      assert 2 * (h * Pow2(k)) == q * Pow2(k);
    }
  }

  lemma {:induction false} RunKeeps(bits: nat, k: nat, actions: seq<Action>)
    requires k < bits
    ensures Inv(Run(bits, Pow2(k), actions))
  {
    if actions == [] {
      var s := Init(bits, Pow2(k));
      PowerDivides(k, bits - 1);
      PowerDivides(k, bits);
      forall i | 0 <= i < |s.slots| ensures SlotOk(s, i) {
        assert i % |s.slots| < |s.slots|;
      }
    } else {
      RunKeeps(bits, k, actions[..|actions| - 1]);
      StepKept(Run(bits, Pow2(k), actions[..|actions| - 1]), actions[|actions| - 1]);
    }
  }

  // ---------- Main results ----------

  /** For every capacity 2^k below the word size, in every interleaving, across any number of
      wrap-arounds: what has been consumed is a prefix of what has been produced, the rest
      never exceeds the capacity, and it is what the slots from read_ on hold. */
  lemma ConsumedIsPrefix(bits: nat, k: nat, actions: seq<Action>)
    requires k < bits
    ensures var s := Run(bits, Pow2(k), actions);
            && s.consumed <= s.produced
            && |s.produced| - |s.consumed| <= |s.slots| == Pow2(k)
            && s.write == |s.produced| % Word(s) && s.read == |s.consumed| % Word(s)
            && forall i :: |s.consumed| <= i < |s.produced| && !(i == |s.consumed| && s.consumer.Release?) ==>
                 s.slots[i % |s.slots|] == Some(s.produced[i])
  {
    RunKeeps(bits, k, actions);
    var s := Run(bits, Pow2(k), actions);
    forall i | |s.consumed| <= i < |s.produced| && !(i == |s.consumed| && s.consumer.Release?)
      ensures s.slots[i % |s.slots|] == Some(s.produced[i])
    {
      assert SlotOk(s, i);
    }
  }

  /** No slot is written while it holds an unread value, and the consumer only moves out of
      slots that hold the next value to be read. */
  lemma SlotsAreNotClobbered(bits: nat, k: nat, actions: seq<Action>)
    requires k < bits
    ensures var s := Run(bits, Pow2(k), actions);
            && (s.producer.Construct? ==> s.slots[s.producer.w % |s.slots|] == None)
            && (s.consumer.Take? ==>
                  && |s.consumed| < |s.produced|
                  && s.slots[s.consumer.r % |s.slots|] == Some(s.produced[|s.consumed|]))
  {
    RunKeeps(bits, k, actions);
    var s := Run(bits, Pow2(k), actions);
    if s.producer.Construct? {
      ConstructKept(s);
    }
    if s.consumer.Take? {
      TakeKept(s);
    }
  }

  /** enqueue refuses only when the ring is full at its load of read_, and dequeue only when the
      ring is empty at its load of write_. */
  lemma RefusalsAreJustified(bits: nat, k: nat, actions: seq<Action>)
    requires k < bits
    ensures var s := Run(bits, Pow2(k), actions);
            && (s.producer.LoadRead? ==>
                  (ProducerNext(s).refused > s.refused <==> |s.produced| == |s.consumed| + |s.slots|))
            && (s.consumer.LoadWrite? ==>
                  (ConsumerNext(s).misses > s.misses <==> s.produced == s.consumed))
  {
    RunKeeps(bits, k, actions);
    var s := Run(bits, Pow2(k), actions);
    Distance(|s.produced|, |s.consumed|, Word(s));
  }

  // ---------- Every call and its answer ----------

  /** The values that enqueue was called with, first call first. */
  function Asked(bits: nat, capacity: nat, actions: seq<Action>): seq<Value> {
    if actions == [] then []
    else
      var (front, a) := (actions[..|actions| - 1], actions[|actions| - 1]);
      Asked(bits, capacity, front) + if a.Enqueue? && Run(bits, capacity, front).producer.Resting? then [a.v] else []
  }

  // The two kinds of answer that enqueue has: a value is published, or one is refused.
  function Answer(s: State, s': State): seq<bool> {
    if |s'.produced| > |s.produced| then [true] else if s'.refused > s.refused then [false] else []
  }

  /** What enqueue has returned, first call first. */
  function Answers(bits: nat, capacity: nat, actions: seq<Action>): seq<bool> {
    if actions == [] then []
    else
      var front := actions[..|actions| - 1];
      Answers(bits, capacity, front) + Answer(Run(bits, capacity, front), Run(bits, capacity, actions))
  }

  /** The values whose calls returned true. */
  function Taken(asked: seq<Value>, answers: seq<bool>): seq<Value>
    requires |answers| <= |asked|
  {
    if answers == [] then []
    else
      var n := |answers| - 1;
      Taken(asked[..n], answers[..n]) + if answers[n] then [asked[n]] else []
  }

  lemma TakenFront(asked: seq<Value>, answers: seq<bool>)
    requires |answers| <= |asked|
    ensures Taken(asked, answers) == Taken(asked[..|answers|], answers)
  {
    if answers != [] {
      assert asked[..|answers|][..|answers| - 1] == asked[..|answers| - 1];
    }
  }

  lemma TakenNext(asked: seq<Value>, answers: seq<bool>, answer: bool)
    requires |answers| < |asked|
    ensures Taken(asked, answers + [answer]) == Taken(asked, answers) + if answer then [asked[|answers|]] else []
  {
    assert (answers + [answer])[..|answers|] == answers;
    TakenFront(asked, answers);
  }

  // enqueue's calls, its answers and what has been published.
  ghost predicate Accounted(s: State, asked: seq<Value>, answers: seq<bool>) {
    && |asked| == |answers| + (if s.producer.Resting? then 0 else 1)
    && (!s.producer.Resting? ==> s.producer.v == asked[|asked| - 1])
    && s.produced == Taken(asked, answers)
  }

  lemma StepAccounted(s: State, a: Action, asked: seq<Value>, answers: seq<bool>)
    requires Accounted(s, asked, answers)
    ensures Accounted(Step(s, a), asked + (if a.Enqueue? && s.producer.Resting? then [a.v] else []),
                      answers + Answer(s, Step(s, a)))
  {
    hide Taken;
    assert asked + [] == asked && answers + [] == answers;
    if a.Enqueue? && s.producer.Resting? {
      TakenFront(asked + [a.v], answers);
      TakenFront(asked, answers);
      assert (asked + [a.v])[..|answers|] == asked[..|answers|];
    } else if a.ProducerStep? && !s.producer.Resting? {
      TakenNext(asked, answers, s.producer.Publish?);
    }
  }

  /** Over every run, for any word size and capacity: each call of enqueue but the one in progress
      has had one answer; the values whose calls returned true are, in order, the values produced;
      and the call in progress works on the value that it was given last. */
  lemma {:induction false} CallsAnswered(bits: nat, capacity: nat, actions: seq<Action>)
    ensures Accounted(Run(bits, capacity, actions), Asked(bits, capacity, actions), Answers(bits, capacity, actions))
  {
    if actions != [] {
      var front := actions[..|actions| - 1];
      CallsAnswered(bits, capacity, front);
      hide Step, Accounted, Answer;
      StepAccounted(Run(bits, capacity, front), actions[|actions| - 1], Asked(bits, capacity, front), Answers(bits, capacity, front));
    }
  }

  /** How often dequeue was called. */
  function Dequeues(bits: nat, capacity: nat, actions: seq<Action>): nat {
    if actions == [] then 0
    else
      var (front, a) := (actions[..|actions| - 1], actions[|actions| - 1]);
      Dequeues(bits, capacity, front) + if a.ConsumerStep? && Run(bits, capacity, front).consumer.Waiting? then 1 else 0
  }

  // The calls of dequeue that have returned, and the one in progress.
  function DequeuesSeen(s: State): nat {
    |s.consumed| + s.misses + if s.consumer.Waiting? then 0 else 1
  }

  lemma StepSeen(s: State, a: Action)
    ensures DequeuesSeen(Step(s, a)) == DequeuesSeen(s) + if a.ConsumerStep? && s.consumer.Waiting? then 1 else 0
  {}

  /** Each call of dequeue but the one in progress has returned a value or a refusal, and one only. */
  lemma {:induction false} DequeuesAnswered(bits: nat, capacity: nat, actions: seq<Action>)
    ensures var s := Run(bits, capacity, actions);
            Dequeues(bits, capacity, actions) == |s.consumed| + s.misses + if s.consumer.Waiting? then 0 else 1
  {
    if actions != [] {
      DequeuesAnswered(bits, capacity, actions[..|actions| - 1]);
      hide Step;
      StepSeen(Run(bits, capacity, actions[..|actions| - 1]), actions[|actions| - 1]);
    }
  }

  function ProducerRest(p: Producer): nat {
    match p
    case Resting => 0
    case LoadRead(_, _) => 3
    case Construct(_, _) => 2
    case Publish(_, _) => 1
  }

  function ConsumerRest(c: Consumer): nat {
    match c
    case Waiting => 0
    case LoadWrite(_) => 3
    case Take(_) => 2
    case Release(_, _) => 1
  }

  /** Both sides are wait-free: each step of a call brings it nearer to its end, whatever the other
      side does in between. */
  lemma CallsEnd(bits: nat, k: nat, actions: seq<Action>)
    requires k < bits
    ensures var s := Run(bits, Pow2(k), actions);
            && (!s.producer.Resting? ==> ProducerRest(ProducerNext(s).producer) < ProducerRest(s.producer) <= 3)
            && (!s.consumer.Waiting? ==> ConsumerRest(ConsumerNext(s).consumer) < ConsumerRest(s.consumer) <= 3)
            && ProducerNext(s).consumer == s.consumer && ConsumerNext(s).producer == s.producer
  {
    RunKeeps(bits, k, actions);
    SlotsAreNotClobbered(bits, k, actions);
  }

  /** A capacity of zero, which the constructor's power-of-two test lets through, makes a ring
      that refuses every value and never touches a slot. */
  lemma {:induction false} ZeroCapacityRefuses(bits: nat, actions: seq<Action>)
    ensures var s := Run(bits, 0, actions);
            && s.produced == [] && s.consumed == [] && s.slots == []
            && (s.producer.Resting? || s.producer.LoadRead?) && (s.consumer.Waiting? || s.consumer == LoadWrite(0))
            && s.write == 0 && s.read == 0
  {
    if actions != [] {
      ZeroCapacityRefuses(bits, actions[..|actions| - 1]);
    }
  }
}
