/**
  libev's pending queues (libev-master/ev.c): one last-in first-out queue per priority,
  into which events are fed and from which ev_invoke_pending calls back, while the callbacks
  feed and clear further events.
 */
module PendingQueues {
  import opened Wrappers
  import opened EventLoop

  // ---------- What a trace of feeds, clears and deliveries promises ----------

  /** The OR of all bits fed to w since it last became idle, or None if it is not pending. */
  function Expected(trace: seq<Happening>, w: Watcher): Option<Mask> {
    if trace == [] then None
    else
      var before := Expected(trace[..|trace| - 1], w);
      match trace[|trace| - 1]
      case Fed(u, bits) => if u == w then Some(if before.Some? then before.value + bits else bits) else before
      case Cleared(u) => if u == w then None else before
      case Delivered(u, _) => if u == w then None else before
  }

  /** Every delivery hands over exactly what its watcher was due. */
  ghost predicate DeliversWhatIsDue(trace: seq<Happening>) {
    forall i :: 0 <= i < |trace| && trace[i].Delivered? ==>
      Expected(trace[..i], trace[i].w) == Some(trace[i].bits)
  }

  lemma ExpectedAppend(trace: seq<Happening>, h: Happening, w: Watcher)
    ensures Expected(trace + [h], w) ==
            if h.w != w then Expected(trace, w)
            else match h
                 case Fed(_, bits) =>
                   Some(if Expected(trace, w).Some? then Expected(trace, w).value + bits else bits)
                 case Cleared(_) => None
                 case Delivered(_, _) => None
  {
    assert (trace + [h])[..|trace|] == trace;
  }

  lemma DueAppend(trace: seq<Happening>, h: Happening)
    requires DeliversWhatIsDue(trace)
    requires h.Delivered? ==> Expected(trace, h.w) == Some(h.bits)
    ensures DeliversWhatIsDue(trace + [h])
  {
    forall i | 0 <= i < |trace + [h]| && (trace + [h])[i].Delivered?
      ensures Expected((trace + [h])[..i], (trace + [h])[i].w) == Some((trace + [h])[i].bits)
    {
      assert (trace + [h])[..i] == trace[..i];
      assert trace[..|trace|] == trace;
    }
  }

  /** A watcher is delivered once per time it becomes pending: between two deliveries lies a feed. */
  lemma FedBetweenDeliveries(trace: seq<Happening>, i: nat, j: nat)
    requires DeliversWhatIsDue(trace)
    requires i < j < |trace| && trace[i].Delivered? && trace[j].Delivered? && trace[i].w == trace[j].w
    ensures exists k :: i < k < j && trace[k].Fed? && trace[k].w == trace[j].w
  {
    var k := LastFeed(trace[..j], trace[j].w, i + 1);
    assert trace[..j][..i + 1] == trace[..i] + [trace[i]];
    ExpectedAppend(trace[..i], trace[i], trace[j].w);
  }

  // A watcher that was idle after `from` happenings and is due now has been fed in between.
  lemma {:induction false} LastFeed(trace: seq<Happening>, w: Watcher, from: nat) returns (k: nat)
    requires from <= |trace| && Expected(trace, w).Some? && Expected(trace[..from], w) == None
    ensures from <= k < |trace| && trace[k].Fed? && trace[k].w == w
  {
    var n := |trace| - 1;
    assert trace[..|trace|] == trace;
    if trace[n].Fed? && trace[n].w == w {
      k := n;
    } else {
      assert trace[..n][..from] == trace[..from];
      k := LastFeed(trace[..n], w, from);
    }
  }

  /** Nothing fed is forgotten: a watcher that is idle at the end was delivered or cleared
      after each of its feeds. */
  lemma {:induction false} FeedIsSettled(trace: seq<Happening>, i: nat) returns (k: nat)
    requires i < |trace| && trace[i].Fed? && Expected(trace, trace[i].w) == None
    ensures i < k < |trace| && trace[k].w == trace[i].w && !trace[k].Fed?
  {
    var n := |trace| - 1;
    if trace[n].w == trace[i].w && !trace[n].Fed? {
      k := n;
    } else {
      k := FeedIsSettled(trace[..n], i);
    }
  }

  // What callbacks ask of the queues while they run.
  datatype Act = Feed(w: Watcher, bits: Mask) | Clear(w: Watcher)

  function AsHappening(act: Act): Happening {
    match act
    case Feed(w, bits) => Fed(w, bits)
    case Clear(w) => Cleared(w)
  }

  function AsTrace(script: seq<Act>): seq<Happening> {
    if script == [] then [] else AsTrace(script[..|script| - 1]) + [AsHappening(script[|script| - 1])]
  }

  function Flatten(scripts: seq<seq<Act>>): seq<Happening> {
    if scripts == [] then [] else Flatten(scripts[..|scripts| - 1]) + AsTrace(scripts[|scripts| - 1])
  }

  // The feeds and clears among the happenings.
  function Requests(trace: seq<Happening>): seq<Happening> {
    if trace == [] then []
    else
      var h := trace[|trace| - 1];
      Requests(trace[..|trace| - 1]) + if h.Delivered? then [] else [h]
  }

  lemma RequestsAppend(trace: seq<Happening>, h: Happening)
    ensures Requests(trace + [h]) == Requests(trace) + if h.Delivered? then [] else [h]
  {
    assert (trace + [h])[..|trace|] == trace;
  }

  lemma {:induction false} RequestsOfScript(trace: seq<Happening>, script: seq<Act>)
    ensures Requests(trace + AsTrace(script)) == Requests(trace) + AsTrace(script)
  {
    if script == [] {
      assert trace + AsTrace(script) == trace;
    } else {
      var n := |script| - 1;
      RequestsOfScript(trace, script[..n]);
      RequestsAppend(trace + AsTrace(script[..n]), AsHappening(script[n]));
      assert trace + AsTrace(script) == (trace + AsTrace(script[..n])) + [AsHappening(script[n])];
    }
  }

  /** The deliveries that draining a queue makes when nothing is fed meanwhile: newest first,
      cleared slots skipped. */
  function DrainQueue(queue: seq<Slot>): seq<Happening> {
    if queue == [] then []
    else
      var slot := queue[|queue| - 1];
      (if slot.w.Some? then [Delivered(slot.w.value, slot.events)] else []) + DrainQueue(queue[..|queue| - 1])
  }

  // Highest priority first.
  function Drain(pendings: seq<seq<Slot>>): seq<Happening> {
    if pendings == [] then []
    else DrainQueue(pendings[|pendings| - 1]) + Drain(pendings[..|pendings| - 1])
  }

  // Popping the newest slot of the highest nonempty queue delivers what Drain puts first.
  lemma {:induction false} DrainPop(pendings: seq<seq<Slot>>, pri: nat)
    requires pri < |pendings| && pendings[pri] != []
    requires forall p :: pri < p < |pendings| ==> pendings[p] == []
    ensures var queue := pendings[pri];
            var slot := queue[|queue| - 1];
            Drain(pendings) ==
              (if slot.w.Some? then [Delivered(slot.w.value, slot.events)] else [])
              + Drain(pendings[pri := queue[..|queue| - 1]])
  {
    var n := |pendings| - 1;
    var pendings' := pendings[pri := pendings[pri][..|pendings[pri]| - 1]];
    if pri == n {
      assert pendings'[..n] == pendings[..n];
    } else {
      DrainPop(pendings[..n], pri);
      assert pendings'[..n] == pendings[..n][pri := pendings[pri][..|pendings[pri]| - 1]];
      assert DrainQueue(pendings[n]) == [] && DrainQueue(pendings'[n]) == [];
    }
  }

  lemma {:induction false} DrainNothing(pendings: seq<seq<Slot>>)
    requires forall p :: 0 <= p < |pendings| ==> pendings[p] == []
    ensures Drain(pendings) == []
  {
    if pendings != [] {
      DrainNothing(pendings[..|pendings| - 1]);
    }
  }

  // The trace of one round of ev_invoke_pending.
  function Round(slot: Slot, script: seq<Act>): seq<Happening> {
    if slot.w.Some? then [Delivered(slot.w.value, slot.events)] + AsTrace(script) else []
  }

  lemma FlattenNext(scripts: seq<seq<Act>>, used: nat)
    requires used < |scripts|
    ensures Flatten(scripts[..used + 1]) == Flatten(scripts[..used]) + AsTrace(scripts[used])
  {
    assert scripts[..used + 1][..used] == scripts[..used];
  }

  lemma RoundRequests(before: seq<Happening>, slot: Slot, script: seq<Act>)
    ensures Requests(before + Round(slot, script)) ==
            Requests(before) + if slot.w.Some? then AsTrace(script) else []
  {
    if slot.w.Some? {
      var h := Delivered(slot.w.value, slot.events);
      RequestsAppend(before, h);
      RequestsOfScript(before + [h], script);
      assert before + Round(slot, script) == (before + [h]) + AsTrace(script);
    } else {
      assert before + Round(slot, script) == before;
    }
  }

  /** Every delivery from happening number `from` on was of the highest priority then pending. */
  ghost predicate HighestFirst(trace: seq<Happening>, watchers: set<Watcher>, from: nat)
    reads watchers`priority
  {
    forall i, u :: from <= i < |trace| && trace[i].Delivered? && u in watchers ==>
      trace[i].w in watchers && (u.priority > trace[i].w.priority ==> Expected(trace[..i], u) == None)
  }

  lemma {:induction false} ScriptsDeliverNothing(script: seq<Act>)
    ensures forall k :: 0 <= k < |AsTrace(script)| ==> !AsTrace(script)[k].Delivered?
  {
    if script != [] {
      ScriptsDeliverNothing(script[..|script| - 1]);
    }
  }

  lemma HighestFirstKept(before: seq<Happening>, watchers: set<Watcher>, from: nat, slot: Slot, script: seq<Act>)
    requires HighestFirst(before, watchers, from)
    requires slot.w.Some? ==>
               && slot.w.value in watchers
               && forall u :: u in watchers && u.priority > slot.w.value.priority ==> Expected(before, u) == None
    ensures HighestFirst(before + Round(slot, script), watchers, from)
  {
    var trace := before + Round(slot, script);
    forall i, u | from <= i < |trace| && trace[i].Delivered? && u in watchers
      ensures trace[i].w in watchers && (u.priority > trace[i].w.priority ==> Expected(trace[..i], u) == None)
    {
      ScriptsDeliverNothing(script);
      if i < |before| {
        assert trace[..i] == before[..i];
      } else {
        assert i == |before| && trace[..i] == before;
      }
    }
  }

  lemma NothingAsked(script: seq<Act>)
    ensures script == [] ==> AsTrace(script) == []
  {}

  lemma NothingYet(trace: seq<Happening>, watchers: set<Watcher>, scripts: seq<seq<Act>>)
    ensures Flatten(scripts[..0]) == [] && HighestFirst(trace, watchers, |trace|)
  {}

  lemma DrainRound(before: seq<Happening>, pendings: seq<seq<Slot>>, pri: nat, slot: Slot)
    requires pri < |pendings| && pendings[pri] != [] && slot == pendings[pri][|pendings[pri]| - 1]
    requires forall p :: pri < p < |pendings| ==> pendings[p] == []
    ensures before + Round(slot, []) + Drain(pendings[pri := pendings[pri][..|pendings[pri]| - 1]])
         == before + Drain(pendings)
  {
    DrainPop(pendings, pri);
    if slot.w.Some? {
      assert [Delivered(slot.w.value, slot.events)] + AsTrace([]) == [Delivered(slot.w.value, slot.events)];
    }
  }

  // ---------- Reverse feeding ----------

  /** The slots that feeding ws back to front adds to queue p. */
  function ReversedSlots(ws: seq<Watcher>, p: int, bits: Mask): seq<Slot>
    reads (set w | w in ws)`priority
    decreases |ws|
  {
    if ws == [] then []
    else
      var w := ws[|ws| - 1];
      (if Abspri(w) == p then [Slot(Some(w), bits)] else []) + ReversedSlots(ws[..|ws| - 1], p, bits)
  }

  lemma ReversedStep(queue: seq<Slot>, ws: seq<Watcher>, p: int, bits: Mask)
    requires ws != []
    ensures var w := ws[|ws| - 1];
            queue + ReversedSlots(ws, p, bits) ==
            (if Abspri(w) == p then queue + [Slot(Some(w), bits)] else queue) + ReversedSlots(ws[..|ws| - 1], p, bits)
  {
    var w := ws[|ws| - 1];
    if Abspri(w) != p {
      assert queue + ([] + ReversedSlots(ws[..|ws| - 1], p, bits)) == queue + ReversedSlots(ws[..|ws| - 1], p, bits);
    }
  }

  function FedBackwards(ws: seq<Watcher>, bits: Mask): (r: seq<Happening>)
    ensures forall h :: h in r ==> h.w in ws
  {
    if ws == [] then [] else [Fed(ws[|ws| - 1], bits)] + FedBackwards(ws[..|ws| - 1], bits)
  }

  /** The deliveries of those watchers among ws that have priority index p, front to back. */
  function InOrder(ws: seq<Watcher>, p: int, bits: Mask): seq<Happening>
    reads (set w | w in ws)`priority
    decreases |ws|
  {
    if ws == [] then []
    else
      var w := ws[|ws| - 1];
      InOrder(ws[..|ws| - 1], p, bits) + (if Abspri(w) == p then [Delivered(w, bits)] else [])
  }

  /** Feeding back to front and draining newest first delivers front to back. */
  lemma {:induction false} DoubleReversal(queue: seq<Slot>, ws: seq<Watcher>, p: int, bits: Mask)
    ensures DrainQueue(queue + ReversedSlots(ws, p, bits)) == InOrder(ws, p, bits) + DrainQueue(queue)
    decreases |ws|
  {
    if ws == [] {
      assert queue + ReversedSlots(ws, p, bits) == queue;
    } else {
      var w := ws[|ws| - 1];
      var front := if Abspri(w) == p then [Slot(Some(w), bits)] else [];
      DoubleReversal(queue + front, ws[..|ws| - 1], p, bits);
      assert queue + ReversedSlots(ws, p, bits) == (queue + front) + ReversedSlots(ws[..|ws| - 1], p, bits);
      if Abspri(w) == p {
        assert (queue + front)[..|queue|] == queue;
      } else {
        assert queue + front == queue;
      }
    }
  }

  /** What is delivered when these queues are drained after each was fed ws back to front: from
      each priority its part of ws, front to back, and then what had been pending there. */
  function DrainAfter(start: seq<seq<Slot>>, ws: seq<Watcher>, bits: Mask): seq<Happening>
    reads (set w | w in ws)`priority
    decreases |start|
  {
    if start == [] then []
    else
      var n := |start| - 1;
      InOrder(ws, n, bits) + DrainQueue(start[n]) + DrainAfter(start[..n], ws, bits)
  }

  lemma {:induction false} DrainFed(pendings: seq<seq<Slot>>, start: seq<seq<Slot>>, ws: seq<Watcher>, bits: Mask)
    requires |pendings| == |start|
    requires forall p :: 0 <= p < |pendings| ==> pendings[p] == start[p] + ReversedSlots(ws, p, bits)
    ensures Drain(pendings) == DrainAfter(start, ws, bits)
    decreases |start|
  {
    hide InOrder, DrainQueue, ReversedSlots;
    if pendings != [] {
      var n := |pendings| - 1;
      DoubleReversal(start[n], ws, n, bits);
      DrainFed(pendings[..n], start[..n], ws, bits);
    }
  }

  // Watchers listed once each, in the order of these deadlines.
  ghost predicate SortedBy(ws: seq<Watcher>, due: map<Watcher, real>) {
    && (forall w :: w in ws ==> w in due)
    && forall i, j :: 0 <= i < j < |ws| ==> ws[i] != ws[j] && due[ws[i]] <= due[ws[j]]
  }

  /** Exactly the watchers with a deadline before `now` have fired. */
  ghost predicate AreOverdue(fired: seq<Watcher>, due: map<Watcher, real>, now: real) {
    && (forall w :: w in fired ==> w in due && due[w] < now)
    && (forall w :: w in due && due[w] < now ==> w in fired)
  }

  // These deliveries are one for each watcher of ws whose priority index is from `lo` to `hi`.
  ghost predicate DeliveredOnce(r: seq<Happening>, ws: seq<Watcher>, lo: int, hi: int, bits: Mask)
    reads (set w | w in ws)`priority
  {
    && (forall i :: 0 <= i < |r| ==> r[i].Delivered? && r[i].bits == bits && r[i].w in ws && lo <= Abspri(r[i].w) <= hi)
    && (forall w :: w in ws && lo <= Abspri(w) <= hi ==> Delivered(w, bits) in r)
    && (forall i, j :: 0 <= i < j < |r| ==> r[i].w != r[j].w)
  }

  /** Higher priorities come first, and equal priorities in the order of the deadlines. */
  ghost predicate DeliveredInOrder(r: seq<Happening>, due: map<Watcher, real>)
    reads due.Keys`priority
  {
    && (forall i :: 0 <= i < |r| ==> r[i].w in due)
    && (forall i, j :: 0 <= i < j < |r| ==>
          || Abspri(r[i].w) > Abspri(r[j].w)
          || (Abspri(r[i].w) == Abspri(r[j].w) && due[r[i].w] <= due[r[j].w]))
  }

  lemma {:induction false} InOrderIsSorted(ws: seq<Watcher>, p: int, bits: Mask, due: map<Watcher, real>)
    requires SortedBy(ws, due)
    ensures DeliveredOnce(InOrder(ws, p, bits), ws, p, p, bits) && DeliveredInOrder(InOrder(ws, p, bits), due)
    decreases |ws|
  {
    if ws != [] {
      var n := |ws| - 1;
      var (front, w) := (ws[..n], ws[n]);
      assert forall u :: u in front ==> exists i :: 0 <= i < n && ws[i] == u;
      assert forall u :: u in ws <==> u in front || u == w;
      InOrderIsSorted(front, p, bits, due);
      InOrderNext(front, InOrder(front, p, bits), w, p, bits, due);
    }
  }

  lemma InOrderNext(front: seq<Watcher>, r: seq<Happening>, w: Watcher, p: int, bits: Mask, due: map<Watcher, real>)
    requires w in due && forall u :: u in front ==> u in due && u != w && due[u] <= due[w]
    requires DeliveredOnce(r, front, p, p, bits) && DeliveredInOrder(r, due)
    ensures var r' := r + if Abspri(w) == p then [Delivered(w, bits)] else [];
            DeliveredOnce(r', front + [w], p, p, bits) && DeliveredInOrder(r', due)
  {
    var r' := r + if Abspri(w) == p then [Delivered(w, bits)] else [];
    forall u | u in front + [w] && Abspri(u) == p ensures Delivered(u, bits) in r' {
      if u != w {
        assert Delivered(u, bits) in r;
      }
    }
  }

  /** Among these deliveries, of priority indices `lo` to `hi`, each watcher of ws of such a
      priority has exactly one, of these bits; higher priorities come first; and of one priority
      the watchers of ws come before all others, in the order of their deadlines. */
  ghost predicate Ahead(r: seq<Happening>, ws: seq<Watcher>, lo: int, hi: int, bits: Mask, due: map<Watcher, real>)
    requires SortedBy(ws, due)
    reads (set h | h in r :: h.w)`priority, (set w | w in ws)`priority
  {
    && (forall i :: 0 <= i < |r| ==> r[i].Delivered? && lo <= Abspri(r[i].w) <= hi && (r[i].w in ws ==> r[i].bits == bits))
    && (forall w :: w in ws && lo <= Abspri(w) <= hi ==> Delivered(w, bits) in r)
    && (forall i, j :: 0 <= i < j < |r| ==> Abspri(r[i].w) >= Abspri(r[j].w))
    && (forall i, j :: 0 <= i < j < |r| && r[j].w in ws && Abspri(r[i].w) == Abspri(r[j].w) ==>
          r[i].w in ws && r[i].w != r[j].w && due[r[i].w] <= due[r[j].w])
  }

  // The slots of these queues are of watchers of the queue's priority that are not in ws.
  ghost predicate Bystanders(start: seq<seq<Slot>>, ws: seq<Watcher>)
    reads (set p, k | 0 <= p < |start| && 0 <= k < |start[p]| && start[p][k].w.Some? :: start[p][k].w.value)`priority
  {
    forall p, k :: 0 <= p < |start| && 0 <= k < |start[p]| && start[p][k].w.Some? ==>
      start[p][k].w.value !in ws && Abspri(start[p][k].w.value) == p
  }

  lemma {:induction false} DrainsOthers(queue: seq<Slot>, ws: seq<Watcher>, p: int)
    requires forall k :: 0 <= k < |queue| && queue[k].w.Some? ==>
               queue[k].w.value !in ws && Abspri(queue[k].w.value) == p
    ensures forall h :: h in DrainQueue(queue) ==> h.Delivered? && h.w !in ws && Abspri(h.w) == p
  {
    if queue != [] {
      DrainsOthers(queue[..|queue| - 1], ws, p);
    }
  }

  // One priority: a part of ws in order, and then others.
  lemma OnePriority(a: seq<Happening>, b: seq<Happening>, ws: seq<Watcher>, p: int, bits: Mask, due: map<Watcher, real>)
    requires SortedBy(ws, due) && DeliveredOnce(a, ws, p, p, bits) && DeliveredInOrder(a, due)
    requires forall h :: h in b ==> h.Delivered? && h.w !in ws && Abspri(h.w) == p
    ensures Ahead(a + b, ws, p, p, bits, due)
  {
    var r := a + b;
    assert forall j :: 0 <= j < |b| ==> b[j] in b;
    forall w | w in ws && p <= Abspri(w) <= p ensures Delivered(w, bits) in r {
      assert Delivered(w, bits) in a;
    }
  }

  lemma HigherThenLower(a: seq<Happening>, b: seq<Happening>, ws: seq<Watcher>, n: nat, bits: Mask, due: map<Watcher, real>)
    requires SortedBy(ws, due) && Ahead(a, ws, n, n, bits, due) && Ahead(b, ws, 0, n - 1, bits, due)
    ensures Ahead(a + b, ws, 0, n, bits, due)
  {
    var r := a + b;
    forall w | w in ws && 0 <= Abspri(w) <= n ensures Delivered(w, bits) in r {
      assert Delivered(w, bits) in a || Delivered(w, bits) in b;
    }
  }

  /** Draining after such a feed delivers every watcher of ws once, in the order of priorities
      and then of deadlines, whatever else is pending. */
  lemma {:induction false} DrainsInOrder(start: seq<seq<Slot>>, ws: seq<Watcher>, bits: Mask, due: map<Watcher, real>)
    requires SortedBy(ws, due) && Bystanders(start, ws)
    ensures Ahead(DrainAfter(start, ws, bits), ws, 0, |start| - 1, bits, due)
    decreases |start|
  {
    if start != [] {
      hide InOrder, DrainQueue, Ahead, SortedBy;
      var n := |start| - 1;
      InOrderIsSorted(ws, n, bits, due);
      DrainsOthers(start[n], ws, n);
      OnePriority(InOrder(ws, n, bits), DrainQueue(start[n]), ws, n, bits, due);
      DrainsInOrder(start[..n], ws, bits, due);
      HigherThenLower(InOrder(ws, n, bits) + DrainQueue(start[n]), DrainAfter(start[..n], ws, bits), ws, n, bits, due);
    }
  }

  ghost predicate SameLengths(a: seq<seq<Slot>>, b: seq<seq<Slot>>) {
    |a| == |b| && forall p :: 0 <= p < |a| ==> |a[p]| == |b[p]|
  }

  // ---------- The queues ----------

  class Queues {
    var pendings: seq<seq<Slot>>
    var pendingpri: nat
    var rfeeds: seq<Watcher>
    ghost var watchers: set<Watcher>
    ghost var trace: seq<Happening>

    // A slot refers to its watcher and the watcher to its slot.
    ghost predicate SlotOk(p: int, k: int)
      requires 0 <= p < |pendings| && 0 <= k < |pendings[p]|
      reads `pendings, `watchers, watchers`pending, watchers`priority
    {
      var slot := pendings[p][k];
      slot.w.Some? ==>
        && slot.w.value in watchers
        && slot.w.value.pending == k + 1
        && Abspri(slot.w.value) == p
    }

    ghost predicate WatcherOk(w: Watcher)
      requires |pendings| == NUMPRI
      reads `pendings, w`pending, w`priority
    {
      w.pending != 0 ==>
        && PriorityInRange(w)
        && w.pending <= |pendings[Abspri(w)]|
        && pendings[Abspri(w)][w.pending - 1].w == Some(w)
    }

    ghost predicate Due(w: Watcher)
      requires |pendings| == NUMPRI && WatcherOk(w)
      reads `pendings, `trace, w`pending, w`priority
    {
      Expected(trace, w) ==
        if w.pending == 0 then None else Some(pendings[Abspri(w)][w.pending - 1].events)
    }

    /** verify_watcher, both ways, for every watcher and every slot; and the queues hold what
        the trace says is due. */
    ghost predicate Valid()
      reads `pendings, `rfeeds, `watchers, `trace, watchers`pending, watchers`priority
      ensures Valid() ==> |pendings| == NUMPRI
    {
      && |pendings| == NUMPRI
      && (forall p, k :: 0 <= p < NUMPRI && 0 <= k < |pendings[p]| ==> SlotOk(p, k))
      && (forall w :: w in watchers ==> WatcherOk(w) && Due(w))
      && (forall w :: w in rfeeds ==> w in watchers)
      && DeliversWhatIsDue(trace)
    }

    constructor (ghost watchers: set<Watcher>)
      requires forall w :: w in watchers ==> w.pending == 0
      ensures Valid() && this.watchers == watchers && trace == []
      ensures forall p :: 0 <= p < NUMPRI ==> pendings[p] == []
    {
      pendings := [[], [], [], [], []];
      pendingpri := 0;
      rfeeds := [];
      this.watchers := watchers;
      trace := [];
    }

    /** ev_feed_event */
    method FeedEvent(w: Watcher, revents: Mask)
      requires Valid() && w in watchers && PriorityInRange(w)
      modifies `pendings, `pendingpri, `trace, w`pending
      ensures Valid() && trace == old(trace) + [Fed(w, revents)]
      ensures pendingpri == NUMPRI - 1
      ensures old(w.pending) != 0 ==>
                var (p, k) := (Abspri(w), w.pending - 1);
                && w.pending == old(w.pending)
                && pendings == old(pendings)[p := old(pendings[p])[k := Slot(Some(w), old(pendings[p][k].events) + revents)]]
      ensures old(w.pending) == 0 ==>
                && w.pending == |pendings[Abspri(w)]|
                && pendings == old(pendings)[Abspri(w) := old(pendings[Abspri(w)]) + [Slot(Some(w), revents)]]
    {
      hide Expected, DeliversWhatIsDue;
      var pri := Abspri(w);
      ghost var h := Fed(w, revents);
      if w.pending != 0 {
        var k := w.pending - 1;
        var slot := pendings[pri][k];
        pendings := pendings[pri := pendings[pri][k := slot.(events := slot.events + revents)]];
      } else {
        w.pending := |pendings[pri]| + 1;
        pendings := pendings[pri := pendings[pri] + [Slot(Some(w), revents)]];
      }
      pendingpri := NUMPRI - 1;
      trace := trace + [h];
      DueAppend(old(trace), h);
      forall p, k | 0 <= p < NUMPRI && 0 <= k < |pendings[p]| ensures SlotOk(p, k) {
        if k < |old(pendings[p])| {
          assert old(SlotOk(p, k));
        }
      }
      forall u | u in watchers ensures WatcherOk(u) && Due(u) {
        assert old(WatcherOk(u) && Due(u));
        ExpectedAppend(old(trace), h, u);
        if u.pending != 0 && u != w && Abspri(u) == pri {
          assert old(SlotOk(pri, u.pending - 1));
        }
      }
    }

    /** clear_pending and ev_clear_pending: the events w was pending for, if any. */
    method ClearPending(w: Watcher) returns (events: Mask)
      requires Valid() && w in watchers
      modifies `pendings, `trace, w`pending
      ensures Valid() && trace == old(trace) + [Cleared(w)]
      ensures w.pending == 0
      ensures old(w.pending) == 0 ==> events == {} && pendings == old(pendings)
      ensures old(w.pending) != 0 ==>
                var (p, k) := (Abspri(w), old(w.pending) - 1);
                && events == old(pendings[p][k].events)
                && pendings == old(pendings)[p := old(pendings[p])[k := Slot(None, events)]]
    {
      ghost var h := Cleared(w);
      if w.pending != 0 {
        var (pri, k) := (Abspri(w), w.pending - 1);
        events := pendings[pri][k].events;
        pendings := pendings[pri := pendings[pri][k := Slot(None, events)]];
        w.pending := 0;
      } else {
        events := {};
      }
      trace := trace + [h];
      DueAppend(old(trace), h);
      forall p, k | 0 <= p < NUMPRI && 0 <= k < |pendings[p]| ensures SlotOk(p, k) {
        assert old(SlotOk(p, k));
      }
      forall u | u in watchers ensures WatcherOk(u) && Due(u) {
        assert old(WatcherOk(u) && Due(u));
        ExpectedAppend(old(trace), h, u);
      }
    }

    // Take the newest entry off the highest nonempty queue and mark its watcher idle.
    method Pop() returns (slot: Slot)
      requires Valid() && pendingpri < NUMPRI && pendings[pendingpri] != []
      modifies `pendings, `trace, watchers`pending
      ensures Valid()
      ensures var queue := old(pendings[pendingpri]);
              && slot == queue[|queue| - 1]
              && pendings == old(pendings)[pendingpri := queue[..|queue| - 1]]
      ensures trace == old(trace) + if slot.w.Some? then [Delivered(slot.w.value, slot.events)] else []
      ensures slot.w.Some? ==> slot.w.value in watchers && Abspri(slot.w.value) == pendingpri
      ensures forall w :: w in watchers && slot.w == Some(w) ==> old(Expected(trace, w)) == Some(slot.events)
      ensures forall w :: w in watchers ==> w.pending == if slot.w == Some(w) then 0 else old(w.pending)
    {
      hide Expected, DeliversWhatIsDue;
      var queue := pendings[pendingpri];
      slot := queue[|queue| - 1];
      pendings := pendings[pendingpri := queue[..|queue| - 1]];
      assert old(SlotOk(pendingpri, |queue| - 1));
      ghost var due := slot.w.Some? && old(WatcherOk(slot.w.value) && Due(slot.w.value));
      if slot.w.Some? {
        slot.w.value.pending := 0;
        ghost var h := Delivered(slot.w.value, slot.events);
        trace := trace + [h];
        DueAppend(old(trace), h);
      }
      forall p, k | 0 <= p < NUMPRI && 0 <= k < |pendings[p]| ensures SlotOk(p, k) {
        assert old(SlotOk(p, k));
      }
      forall u | u in watchers ensures WatcherOk(u) && Due(u) {
        assert old(WatcherOk(u) && Due(u));
        if slot.w.Some? {
          ExpectedAppend(old(trace), Delivered(slot.w.value, slot.events), u);
        }
      }
    }

    lemma NotDue()
      requires Valid()
      ensures forall w :: w in watchers ==> (w.pending == 0 <==> Expected(trace, w) == None)
    {
      forall w | w in watchers ensures w.pending == 0 <==> Expected(trace, w) == None {
        assert WatcherOk(w) && Due(w);
      }
    }

    // What clear_pending returns is what was due.
    lemma DueBits(w: Watcher)
      requires Valid() && w in watchers
      ensures if w.pending == 0 then Expected(trace, w) == None
              else 0 <= Abspri(w) < NUMPRI && w.pending <= |pendings[Abspri(w)]|
                   && Expected(trace, w) == Some(pendings[Abspri(w)][w.pending - 1].events)
    {
      assert WatcherOk(w) && Due(w);
    }

    lemma PendingInRange()
      requires Valid()
      ensures forall w :: w in watchers && w.pending != 0 ==> PriorityInRange(w)
    {
      forall w | w in watchers && w.pending != 0 ensures PriorityInRange(w) {
        assert WatcherOk(w);
      }
    }

    // The slots are of pending watchers of their queue's priority.
    lemma SlotsArePending()
      requires Valid()
      ensures forall p, k :: 0 <= p < NUMPRI && 0 <= k < |pendings[p]| && pendings[p][k].w.Some? ==>
                var w := pendings[p][k].w.value;
                w in watchers && w.pending != 0 && Abspri(w) == p
    {
      forall p, k | 0 <= p < NUMPRI && 0 <= k < |pendings[p]| && pendings[p][k].w.Some?
        ensures var w := pendings[p][k].w.value;
                w in watchers && w.pending != 0 && Abspri(w) == p
      {
        assert SlotOk(p, k);
      }
    }

    // The priority of a watcher that is not pending may change.
    twostate lemma IdlePriority(w: Watcher)
      requires old(Valid()) && unchanged(`pendings, `rfeeds, `watchers, `trace)
      requires forall u :: u in watchers ==> u.pending == old(u.pending)
      requires forall u :: u in watchers && (u != w || w.pending != 0) ==> u.priority == old(u.priority)
      ensures Valid()
    {
      forall p, k | 0 <= p < NUMPRI && 0 <= k < |pendings[p]| ensures SlotOk(p, k) {
        assert old(SlotOk(p, k));
      }
      forall u | u in watchers ensures WatcherOk(u) && Due(u) {
        assert old(WatcherOk(u) && Due(u));
      }
    }

    ghost predicate ScriptOk(script: seq<Act>)
      reads `watchers, watchers`priority
    {
      forall i :: 0 <= i < |script| ==>
        script[i].w in watchers && (script[i].Feed? ==> PriorityInRange(script[i].w))
    }

    // One request of a callback.
    method DoAct(act: Act)
      requires Valid() && act.w in watchers && (act.Feed? ==> PriorityInRange(act.w))
      modifies `pendings, `pendingpri, `trace, watchers`pending
      ensures Valid() && trace == old(trace) + [AsHappening(act)]
      ensures pendingpri == NUMPRI - 1 || (pendingpri == old(pendingpri) && SameLengths(old(pendings), pendings))
    {
      match act
      case Feed(w, bits) => FeedEvent(w, bits);
      case Clear(w) => var _ := ClearPending(w);
    }

    // A callback body, as far as the queues are concerned.
    method RunScript(script: seq<Act>)
      requires Valid() && ScriptOk(script)
      modifies `pendings, `pendingpri, `trace, watchers`pending
      ensures Valid()
      ensures trace == old(trace) + AsTrace(script)
      ensures pendingpri == NUMPRI - 1 || (pendingpri == old(pendingpri) && SameLengths(old(pendings), pendings))
      ensures script == [] ==> pendings == old(pendings) && pendingpri == old(pendingpri)
    {
      var i := 0;
      while i < |script|
        invariant 0 <= i <= |script| && Valid()
        invariant trace == old(trace) + AsTrace(script[..i])
        invariant pendingpri == NUMPRI - 1 || (pendingpri == old(pendingpri) && SameLengths(old(pendings), pendings))
        invariant i == 0 ==> pendings == old(pendings) && pendingpri == old(pendingpri)
      {
        DoAct(script[i]);
        assert script[..i + 1][..i] == script[..i];
        i := i + 1;
      }
      assert script[..i] == script;
    }

    function Total(): nat
      requires |pendings| == NUMPRI
      reads `pendings
    {
      |pendings[0]| + |pendings[1]| + |pendings[2]| + |pendings[3]| + |pendings[4]|
    }

    // No queue of a higher priority index than `pri` holds anything.
    ghost predicate EmptyAbove(pri: int)
      requires |pendings| == NUMPRI
      reads `pendings
    {
      forall p :: pri < p < NUMPRI && p >= 0 ==> pendings[p] == []
    }

    // One round of the inner loop: pop, mark idle, call back.
    method InvokeOne(script: seq<Act>) returns (slot: Slot)
      requires Valid() && ScriptOk(script) && pendingpri < NUMPRI && pendings[pendingpri] != []
      requires EmptyAbove(pendingpri)
      modifies `pendings, `pendingpri, `trace, watchers`pending
      ensures Valid()
      ensures pendingpri < NUMPRI && EmptyAbove(pendingpri)
      ensures var queue := old(pendings[pendingpri]);
              && slot == queue[|queue| - 1]
              && (script == [] ==> pendings == old(pendings)[old(pendingpri) := queue[..|queue| - 1]])
      ensures script == [] || slot.w == None ==> pendingpri == old(pendingpri)
      ensures slot.w == None ==> pendings == old(pendings)[old(pendingpri) := old(pendings[pendingpri])[..|old(pendings[pendingpri])| - 1]]
      ensures trace == old(trace) + Round(slot, script)
      ensures slot.w.Some? ==> slot.w.value in watchers && Abspri(slot.w.value) == old(pendingpri)
      ensures forall u :: u in watchers && Abspri(u) > old(pendingpri) ==> old(Expected(trace, u)) == None
    {
      hide Valid, Expected, AsTrace;
      HigherAreIdle(pendingpri);
      slot := Pop();
      // a cleared slot calls the dummy watcher's callback, which does nothing
      if slot.w.Some? {
        RunScript(script);
      }
      assert trace == old(trace) + Round(slot, script);
    }

    lemma HigherAreIdle(pri: int)
      requires Valid() && EmptyAbove(pri) && pri >= 0
      ensures forall u :: u in watchers && Abspri(u) > pri ==> Expected(trace, u) == None
    {
      forall u | u in watchers && Abspri(u) > pri ensures Expected(trace, u) == None {
        assert WatcherOk(u) && Due(u);
      }
    }

    // What ev_invoke_pending has done since happening number `from`, with `used` callbacks run.
    ghost predicate Progress(from: seq<Happening>, start: seq<seq<Slot>>, scripts: seq<seq<Act>>, used: nat)
      reads `pendings, `trace, `watchers, watchers`priority
    {
      && |pendings| == NUMPRI
      && used <= |scripts|
      && from <= trace
      && Requests(trace) == Requests(from) + Flatten(scripts[..used])
      && HighestFirst(trace, watchers, |from|)
      && (scripts == [] ==> trace + Drain(pendings) == from + Drain(start))
    }

    // The body of the inner loop of ev_invoke_pending.
    method InvokeRound(ghost from: seq<Happening>, ghost start: seq<seq<Slot>>, scripts: seq<seq<Act>>, used: nat)
      returns (used': nat)
      requires Valid() && pendingpri < NUMPRI && pendings[pendingpri] != [] && EmptyAbove(pendingpri)
      requires Progress(from, start, scripts, used)
      requires forall n :: 0 <= n < |scripts| ==> ScriptOk(scripts[n])
      modifies `pendings, `pendingpri, `trace, watchers`pending
      ensures Valid() && pendingpri < NUMPRI && EmptyAbove(pendingpri)
      ensures Progress(from, start, scripts, used')
      ensures used <= used' <= used + 1
      ensures used' == used ==> pendingpri == old(pendingpri) && Total() < old(Total())
    {
      hide Valid, Expected, Requests, Flatten, AsTrace, Drain, HighestFirst;
      var script := if used < |scripts| then scripts[used] else [];
      var slot := InvokeOne(script);
      RoundRequests(old(trace), slot, script);
      HighestFirstKept(old(trace), watchers, |from|, slot, script);
      if scripts == [] {
        DrainRound(old(trace), old(pendings), old(pendingpri), slot);
      }
      used' := used;
      if slot.w.Some? && used < |scripts| {
        FlattenNext(scripts, used);
        used' := used + 1;
      } else {
        assert scripts[..used'] == scripts[..used];
        NothingAsked(script);
      }
      assert Requests(trace) == Requests(from) + Flatten(scripts[..used']);
    }

    /** ev_invoke_pending.  The n-th callback, counting from zero, makes the requests in
        scripts[n], and the callbacks after those make none. */
    method InvokePending(scripts: seq<seq<Act>>) returns (used: nat)
      requires Valid()
      requires forall n :: 0 <= n < |scripts| ==> ScriptOk(scripts[n])
      modifies `pendings, `pendingpri, `trace, watchers`pending
      ensures Valid()
      ensures forall p :: 0 <= p < NUMPRI ==> pendings[p] == []
      ensures forall w :: w in watchers ==> w.pending == 0 && Expected(trace, w) == None
      ensures used <= |scripts| && old(trace) <= trace
      ensures Requests(trace) == Requests(old(trace)) + Flatten(scripts[..used])
      ensures HighestFirst(trace, watchers, |old(trace)|)
      ensures scripts == [] ==> trace == old(trace) + Drain(old(pendings))
    {
      hide Valid, Expected, Requests, Flatten, AsTrace, Drain, HighestFirst;
      used := 0;
      pendingpri := NUMPRI;
      ghost var from, start := trace, pendings;
      NothingYet(trace, watchers, scripts);
      while pendingpri != 0
        invariant Valid() && pendingpri <= NUMPRI && EmptyAbove(pendingpri - 1)
        invariant Progress(from, start, scripts, used)
        decreases |scripts| - used, Total(), pendingpri
      {
        pendingpri := pendingpri - 1;
        ghost var (used0, total0, pri0) := (used, Total(), pendingpri);
        while pendings[pendingpri] != []
          invariant Valid() && pendingpri < NUMPRI && EmptyAbove(pendingpri)
          invariant Progress(from, start, scripts, used)
          invariant used >= used0
          invariant used == used0 ==> Total() < total0 || (Total() == total0 && pendingpri == pri0)
          decreases |scripts| - used, Total()
        {
          used := InvokeRound(from, start, scripts, used);
        }
      }
      DrainNothing(pendings);
      AllIdle();
    }

    lemma AllIdle()
      requires Valid() && forall p :: 0 <= p < NUMPRI ==> pendings[p] == []
      ensures forall w :: w in watchers ==> w.pending == 0 && Expected(trace, w) == None
    {
      forall w | w in watchers ensures w.pending == 0 && Expected(trace, w) == None {
        assert WatcherOk(w) && Due(w);
      }
    }

    /** feed_reverse */
    method FeedReverse(w: Watcher)
      requires Valid() && w in watchers
      modifies `rfeeds
      ensures Valid() && rfeeds == old(rfeeds) + [w]
    {
      rfeeds := rfeeds + [w];
    }

    // None of these watchers is pending or occurs twice.
    ghost predicate FreshFeeds(ws: seq<Watcher>)
      reads (set w | w in ws)`pending
    {
      && (forall i :: 0 <= i < |ws| ==> ws[i].pending == 0)
      && (forall i, j :: 0 <= i < j < |ws| ==> ws[i] != ws[j])
    }

    // Queues `now` lack what feeding `feeds` adds, compared with `start` after feeding all of ws.
    static ghost predicate Lack(now: seq<seq<Slot>>, feeds: seq<Watcher>, start: seq<seq<Slot>>, ws: seq<Watcher>, bits: Mask)
      reads (set w | w in feeds)`priority, (set w | w in ws)`priority
    {
      |now| == |start| == NUMPRI &&
      forall p :: 0 <= p < NUMPRI ==>
        now[p] + ReversedSlots(feeds, p, bits) == start[p] + ReversedSlots(ws, p, bits)
    }

    static lemma BackwardsLess(before: seq<Happening>, feeds: seq<Watcher>, bits: Mask)
      requires feeds != []
      ensures before + [Fed(feeds[|feeds| - 1], bits)] + FedBackwards(feeds[..|feeds| - 1], bits)
           == before + FedBackwards(feeds, bits)
    {}

    static lemma LackLess(now: seq<seq<Slot>>, feeds: seq<Watcher>, start: seq<seq<Slot>>, ws: seq<Watcher>, bits: Mask)
      requires feeds != [] && Lack(now, feeds, start, ws, bits) && PriorityInRange(feeds[|feeds| - 1])
      ensures var w := feeds[|feeds| - 1];
              var now' := now[Abspri(w) := now[Abspri(w)] + [Slot(Some(w), bits)]];
              Lack(now', feeds[..|feeds| - 1], start, ws, bits)
    {
      hide ReversedSlots;
      var w := feeds[|feeds| - 1];
      var now' := now[Abspri(w) := now[Abspri(w)] + [Slot(Some(w), bits)]];
      forall p | 0 <= p < NUMPRI
        ensures now'[p] + ReversedSlots(feeds[..|feeds| - 1], p, bits) == start[p] + ReversedSlots(ws, p, bits)
      {
        ReversedStep(now[p], feeds, p, bits);
      }
    }

    // The body of the loop of feed_reverse_done.
    method FeedLast(revents: Mask)
      requires Valid() && rfeeds != [] && forall w :: w in rfeeds ==> PriorityInRange(w)
      modifies `pendings, `pendingpri, `trace, `rfeeds, watchers`pending
      ensures Valid() && rfeeds == old(rfeeds)[..|old(rfeeds)| - 1] && pendingpri == NUMPRI - 1
      ensures trace == old(trace) + [Fed(old(rfeeds)[|rfeeds|], revents)]
      ensures forall w :: w in watchers && w != old(rfeeds)[|rfeeds|] ==> w.pending == old(w.pending)
      ensures old(rfeeds)[|rfeeds|].pending != 0
      ensures var w := old(rfeeds)[|rfeeds|];
              && |pendings| == |old(pendings)| == NUMPRI && PriorityInRange(w)
              && (old(w.pending) == 0 ==>
                    pendings == old(pendings)[Abspri(w) := old(pendings[Abspri(w)]) + [Slot(Some(w), revents)]])
    {
      hide Valid;
      var w := rfeeds[|rfeeds| - 1];
      rfeeds := rfeeds[..|rfeeds| - 1];
      LastOfFeeds();
      FeedEvent(w, revents);
    }

    // Dropping the last reverse feed keeps the queues in order.
    twostate lemma LastOfFeeds()
      requires old(Valid()) && old(rfeeds) != [] && rfeeds == old(rfeeds)[..|old(rfeeds)| - 1]
      requires pendings == old(pendings) && trace == old(trace) && watchers == old(watchers)
      requires unchanged(watchers)
      ensures Valid() && old(rfeeds)[|rfeeds|] in watchers
    {
      forall p, k | 0 <= p < NUMPRI && 0 <= k < |pendings[p]| ensures SlotOk(p, k) {
        assert old(SlotOk(p, k));
      }
      forall u | u in watchers ensures WatcherOk(u) && Due(u) {
        assert old(WatcherOk(u) && Due(u));
      }
    }

    /** feed_reverse_done.  Like the source's do-while loop it needs something to feed. */
    method FeedReverseDone(revents: Mask)
      requires Valid() && rfeeds != [] && forall w :: w in rfeeds ==> PriorityInRange(w)
      modifies `pendings, `pendingpri, `trace, `rfeeds, watchers`pending
      ensures Valid() && rfeeds == [] && pendingpri == NUMPRI - 1
      ensures trace == old(trace) + FedBackwards(old(rfeeds), revents)
      ensures forall w :: w in watchers && w !in old(rfeeds) ==> w.pending == old(w.pending)
      ensures forall w :: w in old(rfeeds) ==> w.pending != 0
      ensures old(FreshFeeds(rfeeds)) ==>
                forall p :: 0 <= p < NUMPRI ==>
                  pendings[p] == old(pendings)[p] + ReversedSlots(old(rfeeds), p, revents)
    {
      hide Valid, ReversedSlots, FedBackwards, Lack, PriorityInRange;
      ghost var all, start := rfeeds, pendings;
      LacksAll(all, revents);
      ghost var now := pendings;
      BackwardsLess(trace, rfeeds, revents);
      FeedLast(revents);
      if old(FreshFeeds(rfeeds)) {
        LackLess(now, all, start, all, revents);
      }
      while rfeeds != []
        invariant Valid() && pendingpri == NUMPRI - 1
        invariant |rfeeds| < |all| && rfeeds == all[..|rfeeds|]
        invariant trace + FedBackwards(rfeeds, revents) == old(trace) + FedBackwards(all, revents)
        invariant forall w :: w in watchers && w !in all ==> w.pending == old(w.pending)
        invariant forall i :: |rfeeds| <= i < |all| ==> all[i].pending != 0
        invariant old(FreshFeeds(rfeeds)) ==> FreshFeeds(rfeeds) && Lack(pendings, rfeeds, start, all, revents)
        decreases |rfeeds|
      {
        ghost var feeds;
        now, feeds := pendings, rfeeds;
        BackwardsLess(trace, rfeeds, revents);
        FeedLast(revents);
        if old(FreshFeeds(rfeeds)) {
          LackLess(now, feeds, start, all, revents);
        }
      }
      NothingLacks(start, all, revents);
    }

    lemma LacksAll(ws: seq<Watcher>, bits: Mask)
      requires |pendings| == NUMPRI
      ensures Lack(pendings, ws, pendings, ws, bits)
    {}

    lemma NothingLacks(start: seq<seq<Slot>>, ws: seq<Watcher>, bits: Mask)
      requires |pendings| == |start| == NUMPRI
      ensures FedBackwards([], bits) == []
      ensures Lack(pendings, [], start, ws, bits) ==>
                forall p :: 0 <= p < NUMPRI ==> pendings[p] == start[p] + ReversedSlots(ws, p, bits)
    {
      forall p | 0 <= p < NUMPRI ensures pendings[p] + ReversedSlots([], p, bits) == pendings[p] {}
    }
  }
}
