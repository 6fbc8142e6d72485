/**
  The 4-ary heap of libev-master/ev.c (the EV_USE_4HEAP variant with cached deadlines), on
  arrays whose first heap entry is at index 3.  `Up` and `Down` say, on sequences and by
  exchanging neighbours, what upheap and downheap do in place by shifting entries into a hole.
 */
module TimerHeap {
  import opened EventLoop

  const DHEAP := 4
  const HEAP0 := 3

  /** HPARENT: C's division truncates, so the parent of the root is the root itself. */
  function HParent(k: nat): (p: nat)
    requires k >= HEAP0
    ensures HEAP0 <= p <= k && (p == k <==> k == HEAP0)
  {
    if k == HEAP0 then HEAP0 else (k - HEAP0 - 1) / DHEAP + HEAP0
  }

  function FirstChild(k: nat): nat
    requires k >= HEAP0
  {
    DHEAP * (k - HEAP0) + HEAP0 + 1
  }

  // The heap occupies indices HEAP0 .. n + HEAP0; an empty heap may have no array yet.
  predicate Fits(h: seq<Entry>, n: nat) {
    n == 0 || n + HEAP0 <= |h|
  }

  ghost predicate Ordered(h: seq<Entry>, n: nat)
    requires Fits(h, n)
  {
    forall i :: HEAP0 < i < n + HEAP0 ==> h[HParent(i)].at <= h[i].at
  }

  // Ordered but for entry k against its parent.
  ghost predicate OrderedButUp(h: seq<Entry>, n: nat, k: nat)
    requires n + HEAP0 <= |h| && HEAP0 <= k < n + HEAP0
  {
    && (forall i :: HEAP0 < i < n + HEAP0 && i != k ==> h[HParent(i)].at <= h[i].at)
    && (forall i :: HEAP0 < i < n + HEAP0 && HParent(i) == k ==> h[HParent(k)].at <= h[i].at)
  }

  // Ordered but for entry k against its children.
  ghost predicate OrderedButDown(h: seq<Entry>, n: nat, k: nat)
    requires n + HEAP0 <= |h| && HEAP0 <= k < n + HEAP0
  {
    && (forall i :: HEAP0 < i < n + HEAP0 && HParent(i) != k ==> h[HParent(i)].at <= h[i].at)
    && (forall i :: HEAP0 < i < n + HEAP0 && HParent(i) == k > HEAP0 ==> h[HParent(k)].at <= h[i].at)
  }

  function Swap(h: seq<Entry>, i: nat, j: nat): (h': seq<Entry>)
    requires i < |h| && j < |h|
    ensures |h'| == |h|
  {
    h[i := h[j]][j := h[i]]
  }

  function Up(h: seq<Entry>, k: nat): (h': seq<Entry>)
    requires HEAP0 <= k < |h|
    ensures |h'| == |h|
    decreases k
  {
    var p := HParent(k);
    if p == k || h[p].at <= h[k].at then h else Up(Swap(h, k, p), p)
  }

  /** The least of the children of k, the first one if several are least. */
  function LeastChild(h: seq<Entry>, n: nat, k: nat): (c: nat)
    requires HEAP0 <= k && n + HEAP0 <= |h| && FirstChild(k) < n + HEAP0
    ensures FirstChild(k) <= c < n + HEAP0 && HParent(c) == k
    ensures forall i :: HEAP0 < i < n + HEAP0 && HParent(i) == k ==> h[c].at <= h[i].at
  {
    var pos := FirstChild(k);
    var e := n + HEAP0;
    var m0 := pos;
    var m1 := if pos + 1 < e && h[pos + 1].at < h[m0].at then pos + 1 else m0;
    var m2 := if pos + 2 < e && h[pos + 2].at < h[m1].at then pos + 2 else m1;
    if pos + 3 < e && h[pos + 3].at < h[m2].at then pos + 3 else m2
  }

  function Down(h: seq<Entry>, n: nat, k: nat): (h': seq<Entry>)
    requires HEAP0 <= k < n + HEAP0 <= |h|
    ensures |h'| == |h|
    decreases n + HEAP0 - k
  {
    if FirstChild(k) >= n + HEAP0 then h
    else
      var c := LeastChild(h, n, k);
      if h[k].at <= h[c].at then h else Down(Swap(h, k, c), n, c)
  }

  function Adjusted(h: seq<Entry>, n: nat, k: nat): (h': seq<Entry>)
    requires HEAP0 <= k < n + HEAP0 <= |h|
    ensures |h'| == |h|
  {
    if k > HEAP0 && h[k].at <= h[HParent(k)].at then Up(h, k) else Down(h, n, k)
  }

  // Sifting up entry after entry.
  function Reheaped(h: seq<Entry>, n: nat): (h': seq<Entry>)
    requires n + HEAP0 <= |h|
    ensures |h'| == |h|
  {
    if n == 0 then h else Up(Reheaped(h, n - 1), n - 1 + HEAP0)
  }

  // ---------- Order ----------

  lemma {:induction false} UpOrders(h: seq<Entry>, n: nat, k: nat)
    requires HEAP0 <= k < n + HEAP0 <= |h| && OrderedButUp(h, n, k)
    ensures Ordered(Up(h, k), n)
    decreases k
  {
    var p := HParent(k);
    if p != k && h[p].at > h[k].at {
      SwapUp(h, n, k, p);
      UpOrders(Swap(h, k, p), n, p);
    }
  }

  // Exchanging an entry with its parent moves the violation up.
  lemma SwapUp(h: seq<Entry>, n: nat, k: nat, p: nat)
    requires HEAP0 < k < n + HEAP0 <= |h| && p == HParent(k) && OrderedButUp(h, n, k) && h[p].at > h[k].at
    ensures OrderedButUp(Swap(h, k, p), n, p)
  {}

  lemma {:induction false} DownOrders(h: seq<Entry>, n: nat, k: nat)
    requires HEAP0 <= k < n + HEAP0 <= |h| && OrderedButDown(h, n, k)
    ensures Ordered(Down(h, n, k), n)
    decreases n + HEAP0 - k
  {
    hide LeastChild;
    if FirstChild(k) < n + HEAP0 {
      var c := LeastChild(h, n, k);
      if h[k].at > h[c].at {
        SwapDown(h, n, k, c);
        DownOrders(Swap(h, k, c), n, c);
      }
    }
  }

  // Exchanging an entry with its least child moves the violation down.
  lemma SwapDown(h: seq<Entry>, n: nat, k: nat, c: nat)
    requires HEAP0 <= k < c < n + HEAP0 <= |h| && OrderedButDown(h, n, k)
    requires HParent(c) == k && h[k].at > h[c].at
    requires forall i :: HEAP0 < i < n + HEAP0 && HParent(i) == k ==> h[c].at <= h[i].at
    ensures OrderedButDown(Swap(h, k, c), n, c)
  {
    var h' := Swap(h, k, c);
    forall i | HEAP0 < i < n + HEAP0 && HParent(i) != c ensures h'[HParent(i)].at <= h'[i].at {
      SwapDownAt(h, n, k, c, i, HParent(i));
    }
    forall i | HEAP0 < i < n + HEAP0 && HParent(i) == c ensures h'[k].at <= h'[i].at {
      assert i != k && h[c].at <= h[i].at;
    }
  }

  // Of entry i and its parent p: p is k, i is k, or neither has moved.
  lemma SwapDownAt(h: seq<Entry>, n: nat, k: nat, c: nat, i: nat, p: nat)
    requires HEAP0 <= k < c < n + HEAP0 <= |h| && OrderedButDown(h, n, k)
    requires HParent(c) == k && h[k].at > h[c].at
    requires forall i :: HEAP0 < i < n + HEAP0 && HParent(i) == k ==> h[c].at <= h[i].at
    requires HEAP0 < i < n + HEAP0 && p == HParent(i) != c
    ensures Swap(h, k, c)[p].at <= Swap(h, k, c)[i].at
  {
    hide HParent;
    if p == k {
      assert i == c || h[c].at <= h[i].at;
    } else if i == k {
      assert h[p].at <= h[c].at;
    } else {
      assert h[p].at <= h[i].at;
    }
  }

  // Whatever entry is put at k in an ordered heap, it violates the order on one side only.
  lemma AdjustOrders(h: seq<Entry>, n: nat, k: nat, e: Entry)
    requires HEAP0 <= k < n + HEAP0 <= |h| && Ordered(h, n)
    ensures Ordered(Adjusted(h[k := e], n, k), n)
  {
    var h' := h[k := e];
    if k > HEAP0 && h'[k].at <= h'[HParent(k)].at {
      UpOrders(h', n, k);
    } else {
      DownOrders(h', n, k);
    }
  }

  /** The root of an ordered heap has the least deadline. */
  lemma {:induction false} RootIsLeast(h: seq<Entry>, n: nat, i: nat)
    requires HEAP0 <= i < n + HEAP0 <= |h| && Ordered(h, n)
    ensures h[HEAP0].at <= h[i].at
  {
    if i > HEAP0 {
      RootIsLeast(h, n, HParent(i));
    }
  }

  // ---------- Nothing is lost ----------

  /** h' holds the entries of h, rearranged inside the heap region only. */
  ghost predicate Rearranged(h: seq<Entry>, h': seq<Entry>, n: nat)
    requires n + HEAP0 <= |h|
    ensures Rearranged(h, h', n) ==> |h'| == |h|
  {
    && |h'| == |h|
    && multiset(h'[HEAP0..n + HEAP0]) == multiset(h[HEAP0..n + HEAP0])
    && h'[..HEAP0] == h[..HEAP0] && h'[n + HEAP0..] == h[n + HEAP0..]
  }

  lemma SwapRearranges(h: seq<Entry>, n: nat, i: nat, j: nat)
    requires HEAP0 <= i < n + HEAP0 <= |h| && HEAP0 <= j < n + HEAP0
    ensures Rearranged(h, Swap(h, i, j), n)
  {
    var h' := Swap(h, i, j);
    var r, r' := h[HEAP0..n + HEAP0], h'[HEAP0..n + HEAP0];
    assert r' == r[i - HEAP0 := r[j - HEAP0]][j - HEAP0 := r[i - HEAP0]];
    assert h'[..HEAP0] == h[..HEAP0];
    assert h'[n + HEAP0..] == h[n + HEAP0..];
  }

  lemma {:induction false} UpRearranges(h: seq<Entry>, n: nat, k: nat)
    requires HEAP0 <= k < n + HEAP0 <= |h|
    ensures Rearranged(h, Up(h, k), n)
    decreases k
  {
    var p := HParent(k);
    if p != k && h[p].at > h[k].at {
      SwapRearranges(h, n, k, p);
      UpRearranges(Swap(h, k, p), n, p);
    }
  }

  lemma {:induction false} DownRearranges(h: seq<Entry>, n: nat, k: nat)
    requires HEAP0 <= k < n + HEAP0 <= |h|
    ensures Rearranged(h, Down(h, n, k), n)
    decreases n + HEAP0 - k
  {
    if FirstChild(k) < n + HEAP0 {
      var c := LeastChild(h, n, k);
      if h[k].at > h[c].at {
        SwapRearranges(h, n, k, c);
        DownRearranges(Swap(h, k, c), n, c);
      }
    }
  }

  lemma AdjustRearranges(h: seq<Entry>, n: nat, k: nat)
    requires HEAP0 <= k < n + HEAP0 <= |h|
    ensures Rearranged(h, Adjusted(h, n, k), n)
  {
    UpRearranges(h, n, k);
    DownRearranges(h, n, k);
  }

  // ---------- In place ----------

  // Every watcher occurs at most once in the heap.
  ghost predicate Distinct(h: seq<Entry>, n: nat)
    requires Fits(h, n)
  {
    forall i, j :: HEAP0 <= i < j < n + HEAP0 ==> h[i].w != h[j].w
  }

  // verify_heap's first assertion, for all entries but entry k.
  ghost predicate Indexed(h: seq<Entry>, n: nat, k: int)
    requires Fits(h, n)
    reads Watchers(h, n)`active
  {
    forall i :: HEAP0 <= i < n + HEAP0 && i != k ==> h[i].w.active == i
  }

  ghost function Watchers(h: seq<Entry>, n: nat): set<Watcher>
    requires Fits(h, n)
  {
    set i | HEAP0 <= i < n + HEAP0 :: h[i].w
  }

  /** upheap, told in a ghost argument how many entries the heap has. */
  method UpHeap(heap: array<Entry>, k0: nat, ghost n: nat)
    requires HEAP0 <= k0 < n + HEAP0 <= heap.Length
    requires Distinct(heap[..], n) && Indexed(heap[..], n, k0)
    modifies heap, Watchers(heap[..], n)`active
    ensures heap[..] == Up(old(heap[..]), k0)
    ensures Distinct(heap[..], n) && Indexed(heap[..], n, -1)
    ensures Watchers(heap[..], n) == old(Watchers(heap[..], n))
  {
    var he, k := heap[k0], k0;
    ghost var view := heap[..];
    while true
      invariant HEAP0 <= k < n + HEAP0 && |view| == heap.Length
      invariant view[k] == he && heap[..] == view[k := heap[k]]
      invariant Up(view, k) == Up(old(heap[..]), k0)
      invariant Distinct(view, n) && Indexed(view, n, k)
      invariant Watchers(view, n) == old(Watchers(heap[..], n))
      decreases k
    {
      var p := HParent(k);
      if p == k || heap[p].at <= he.at {
        break;
      }
      SwapWatchers(view, n, k, p);
      view := Swap(view, k, p);
      heap[k] := heap[p];
      heap[k].w.active := k;
      k := p;
    }
    heap[k] := he;
    he.w.active := k;
    assert heap[..] == view;
  }

  lemma SwapWatchers(h: seq<Entry>, n: nat, i: nat, j: nat)
    requires HEAP0 <= i < n + HEAP0 <= |h| && HEAP0 <= j < n + HEAP0
    ensures Watchers(Swap(h, i, j), n) == Watchers(h, n)
    ensures Distinct(h, n) ==> Distinct(Swap(h, i, j), n)
  {
    var h' := Swap(h, i, j);
    forall w | w in Watchers(h, n) ensures w in Watchers(h', n) {
      var x :| HEAP0 <= x < n + HEAP0 && h[x].w == w;
      var y := if x == i then j else if x == j then i else x;
      assert h'[y].w == w;
    }
    forall w | w in Watchers(h', n) ensures w in Watchers(h, n) {
      var x :| HEAP0 <= x < n + HEAP0 && h'[x].w == w;
      var y := if x == i then j else if x == j then i else x;
      assert h[y].w == w;
    }
  }

  // The choice among the children of entry k, as downheap makes it: without bounds checks when
  // there are four children, with them when there are fewer.
  method PickChild(heap: array<Entry>, n: nat, k: nat, ghost view: seq<Entry>) returns (m: nat, minat: real)
    requires HEAP0 <= k && n + HEAP0 <= heap.Length == |view| && FirstChild(k) < n + HEAP0
    requires forall i :: k < i < n + HEAP0 ==> heap[i] == view[i]
    ensures m == LeastChild(view, n, k) && m > k && minat == heap[m].at
  {
    var pos := FirstChild(k);
    m, minat := pos, heap[pos].at;
    if pos + DHEAP - 1 < n + HEAP0 {
      if heap[pos + 1].at < minat { m, minat := pos + 1, heap[pos + 1].at; }
      if heap[pos + 2].at < minat { m, minat := pos + 2, heap[pos + 2].at; }
      if heap[pos + 3].at < minat { m, minat := pos + 3, heap[pos + 3].at; }
    } else {
      if pos + 1 < n + HEAP0 && heap[pos + 1].at < minat { m, minat := pos + 1, heap[pos + 1].at; }
      if pos + 2 < n + HEAP0 && heap[pos + 2].at < minat { m, minat := pos + 2, heap[pos + 2].at; }
      // the source's third check, for pos + 3, cannot succeed here
    }
  }

  lemma DownStep(h: seq<Entry>, n: nat, k: nat)
    requires HEAP0 <= k < n + HEAP0 <= |h|
    ensures Down(h, n, k) ==
            if FirstChild(k) >= n + HEAP0 then h
            else var c := LeastChild(h, n, k); if h[k].at <= h[c].at then h else Down(Swap(h, k, c), n, c)
  {}

  lemma InWatchers(h: seq<Entry>, n: nat, i: nat)
    requires HEAP0 <= i < n + HEAP0 <= |h|
    ensures h[i].w in Watchers(h, n)
  {}

  /** downheap */
  method DownHeap(heap: array<Entry>, n: nat, k0: nat)
    requires HEAP0 <= k0 < n + HEAP0 <= heap.Length
    requires Distinct(heap[..], n) && Indexed(heap[..], n, k0)
    modifies heap, Watchers(heap[..], n)`active
    ensures heap[..] == Down(old(heap[..]), n, k0)
    ensures Distinct(heap[..], n) && Indexed(heap[..], n, -1)
    ensures Watchers(heap[..], n) == old(Watchers(heap[..], n))
  {
    hide Down, LeastChild, Watchers, FirstChild, HParent;
    var he, k := heap[k0], k0;
    ghost var view := heap[..];
    InWatchers(view, n, k);
    while true
      invariant HEAP0 <= k < n + HEAP0 && |view| == heap.Length
      invariant view[k] == he && heap[..] == view[k := heap[k]]
      invariant Down(view, n, k) == Down(old(heap[..]), n, k0)
      invariant Distinct(view, n) && Indexed(view, n, k)
      invariant Watchers(view, n) == old(Watchers(heap[..], n))
      decreases n + HEAP0 - k
    {
      DownStep(view, n, k);
      if FirstChild(k) >= n + HEAP0 {
        break;
      }
      assert forall i :: k < i < n + HEAP0 ==> heap[..][i] == view[i];
      var m, minat := PickChild(heap, n, k, view);
      if he.at <= minat {
        break;
      }
      InWatchers(view, n, m);
      SwapWatchers(view, n, k, m);
      view := Swap(view, k, m);
      heap[k] := heap[m];
      heap[k].w.active := k;
      k := m;
    }
    heap[k] := he;
    he.w.active := k;
    assert heap[..] == view;
  }

  /** adjustheap */
  method AdjustHeap(heap: array<Entry>, n: nat, k: nat)
    requires HEAP0 <= k < n + HEAP0 <= heap.Length
    requires Distinct(heap[..], n) && Indexed(heap[..], n, k)
    modifies heap, Watchers(heap[..], n)`active
    ensures heap[..] == Adjusted(old(heap[..]), n, k)
    ensures Distinct(heap[..], n) && Indexed(heap[..], n, -1)
    ensures Watchers(heap[..], n) == old(Watchers(heap[..], n))
  {
    if k > HEAP0 && heap[k].at <= heap[HParent(k)].at {
      UpHeap(heap, k, n);
    } else {
      DownHeap(heap, n, k);
    }
  }

  // A rearrangement of a part of the heap is one of the whole.
  lemma RearrangedMore(h: seq<Entry>, h': seq<Entry>, m: nat, n: nat)
    requires m <= n && n + HEAP0 <= |h| && Rearranged(h, h', m)
    ensures Rearranged(h, h', n)
  {
    assert h[HEAP0..n + HEAP0] == h[HEAP0..m + HEAP0] + h[m + HEAP0..][..n - m];
    assert h'[HEAP0..n + HEAP0] == h'[HEAP0..m + HEAP0] + h'[m + HEAP0..][..n - m];
    assert h'[n + HEAP0..] == h'[m + HEAP0..][n - m..];
    assert h[n + HEAP0..] == h[m + HEAP0..][n - m..];
  }

  /** Successive sifting up turns any array into a heap of the same entries. */
  lemma {:induction false} ReheapedIsHeap(h: seq<Entry>, n: nat)
    requires n + HEAP0 <= |h|
    ensures Ordered(Reheaped(h, n), n) && Rearranged(h, Reheaped(h, n), n)
  {
    hide Up, Rearranged, Ordered, OrderedButUp, HParent;
    if n == 0 {
      SameRearranged(h);
    } else {
      var h' := Reheaped(h, n - 1);
      ReheapedIsHeap(h, n - 1);
      RearrangedMore(h, h', n - 1, n);
      OneMoreEntry(h', n);
      UpOrders(h', n, n - 1 + HEAP0);
      UpRearranges(h', n, n - 1 + HEAP0);
      RearrangedTwice(h, h', Reheaped(h, n), n);
    }
  }

  lemma OneMoreEntry(h: seq<Entry>, n: nat)
    requires n > 0 && n + HEAP0 <= |h| && Ordered(h, n - 1)
    ensures OrderedButUp(h, n, n - 1 + HEAP0)
  {}

  lemma SameRearranged(h: seq<Entry>)
    requires HEAP0 <= |h|
    ensures Rearranged(h, h, 0) && Ordered(h, 0)
  {}

  lemma RearrangedTwice(h: seq<Entry>, h': seq<Entry>, h'': seq<Entry>, n: nat)
    requires n + HEAP0 <= |h| && Rearranged(h, h', n) && |h'| == |h| && Rearranged(h', h'', n)
    ensures Rearranged(h, h'', n)
  {}

  // The body of reheap's loop.
  method ReheapOne(heap: array<Entry>, ghost n: nat, i: nat, ghost start: seq<Entry>)
    requires i < n && n + HEAP0 <= heap.Length == |start|
    requires heap[..] == Reheaped(start, i)
    requires Distinct(heap[..], n) && Indexed(heap[..], n, -1)
    modifies heap, Watchers(heap[..], n)`active
    ensures heap[..] == Reheaped(start, i + 1)
    ensures Distinct(heap[..], n) && Indexed(heap[..], n, -1)
    ensures Watchers(heap[..], n) == old(Watchers(heap[..], n))
  {
    hide Up, Rearranged, Ordered, HParent, Watchers;
    ghost var before := heap[..];
    UpRearranges(before, i + 1, i + HEAP0);
    FrontWatchers(before, i + 1, n);
    UpHeap(heap, i + HEAP0, i + 1);
    PartIndexed(before, heap[..], i + 1, n);
    assert Indexed(heap[..], n, -1) by {
      forall j | i + 1 + HEAP0 <= j < n + HEAP0 ensures heap[j].w.active == j {
        assert before[j].w.active == j;
        assert heap[..][j] == before[j];
      }
    }
  }

  /** reheap */
  method Reheap(heap: array<Entry>, n: nat)
    requires n + HEAP0 <= heap.Length
    requires Distinct(heap[..], n) && Indexed(heap[..], n, -1)
    modifies heap, Watchers(heap[..], n)`active
    ensures heap[..] == Reheaped(old(heap[..]), n)
    ensures Ordered(heap[..], n) && Rearranged(old(heap[..]), heap[..], n)
    ensures Distinct(heap[..], n) && Indexed(heap[..], n, -1)
    ensures Watchers(heap[..], n) == old(Watchers(heap[..], n))
  {
    hide Up, Rearranged, Ordered, Watchers, Distinct, Indexed;
    ghost var start := heap[..];
    for i := 0 to n
      invariant heap[..] == Reheaped(start, i)
      invariant Distinct(heap[..], n) && Indexed(heap[..], n, -1)
      invariant Watchers(heap[..], n) == old(Watchers(heap[..], n))
    {
      ReheapOne(heap, n, i, start);
    }
    ReheapedIsHeap(start, n);
  }

  lemma FrontWatchers(h: seq<Entry>, m: nat, n: nat)
    requires m <= n && n + HEAP0 <= |h|
    ensures Watchers(h, m) <= Watchers(h, n)
    ensures Distinct(h, n) ==>
              forall j :: m + HEAP0 <= j < n + HEAP0 ==> h[j].w !in Watchers(h, m)
  {}

  // Rearranging the front part keeps the watchers distinct and the later ones in place.
  lemma PartIndexed(h: seq<Entry>, h': seq<Entry>, m: nat, n: nat)
    requires m <= n && n + HEAP0 <= |h| == |h'| && Rearranged(h, h', m)
    requires Distinct(h, n) && Distinct(h', m)
    requires Watchers(h', m) == Watchers(h, m)
    ensures Distinct(h', n) && Watchers(h', n) == Watchers(h, n)
    ensures forall j :: m + HEAP0 <= j < |h| ==> h'[j] == h[j]
  {
    forall j | m + HEAP0 <= j < |h| ensures h'[j] == h[j] {
      assert h'[m + HEAP0..][j - m - HEAP0] == h[m + HEAP0..][j - m - HEAP0];
    }
    forall i, j | HEAP0 <= i < m + HEAP0 <= j < n + HEAP0 ensures h'[i].w != h'[j].w {
      assert h'[i].w in Watchers(h', m);
    }
    forall w | w in Watchers(h, n) ensures w in Watchers(h', n) {
      if w in Watchers(h, m) {
        assert w in Watchers(h', m);
      }
    }
    forall w | w in Watchers(h', n) ensures w in Watchers(h, n) {
      if w in Watchers(h', m) {
        assert w in Watchers(h, m);
      }
    }
  }

  // ---------- Heaps of watchers by deadline ----------

  /** verify_heap: order, back-indices and cached deadlines. */
  ghost predicate IsHeap(h: seq<Entry>, n: nat)
    requires Fits(h, n)
    reads Watchers(h, n)`active, Watchers(h, n)`at
  {
    && Ordered(h, n) && Distinct(h, n) && Indexed(h, n, -1)
    && Cached(h, n, {})
  }

  // The deadlines of all but these watchers are the cached ones.
  ghost predicate Cached(h: seq<Entry>, n: nat, except: set<Watcher>)
    requires Fits(h, n)
    reads Watchers(h, n)`at
  {
    forall i :: HEAP0 <= i < n + HEAP0 && h[i].w !in except ==> h[i].at == h[i].w.at
  }

  lemma RearrangedMember(h: seq<Entry>, h': seq<Entry>, n: nat, i: nat) returns (j: nat)
    requires n + HEAP0 <= |h| && Rearranged(h, h', n) && HEAP0 <= i < n + HEAP0
    ensures HEAP0 <= j < n + HEAP0 && h'[i] == h[j]
  {
    var e := h'[HEAP0..n + HEAP0][i - HEAP0];
    assert e in multiset(h'[HEAP0..n + HEAP0]);
    assert e in multiset(h[HEAP0..n + HEAP0]);
    var x :| 0 <= x < n && h[HEAP0..n + HEAP0][x] == e;
    j := x + HEAP0;
  }

  lemma RearrangedCached(h: seq<Entry>, h': seq<Entry>, n: nat)
    requires n + HEAP0 <= |h| && Rearranged(h, h', n) && Cached(h, n, {})
    ensures Cached(h', n, {})
  {
    forall i | HEAP0 <= i < n + HEAP0 ensures h'[i].at == h'[i].w.at {
      var j := RearrangedMember(h, h', n, i);
    }
  }

  /** An empty place at the end of the heap, given to w by its active field, and filled. */
  method HeapAdd(heap: array<Entry>, n: nat, w: Watcher)
    requires n + 1 + HEAP0 <= heap.Length && IsHeap(heap[..], n)
    requires w !in Watchers(heap[..], n) && w.active == n + HEAP0
    modifies heap, Watchers(heap[..], n)`active, w`active
    ensures IsHeap(heap[..], n + 1)
    ensures Watchers(heap[..], n + 1) == old(Watchers(heap[..], n)) + {w}
  {
    hide Up, HParent, Ordered, OrderedButUp, Distinct, Indexed, Cached, Watchers;
    ghost var h := heap[..];
    heap[w.active] := Entry(w.at, w);
    LastWatcher(h, n, Entry(w.at, w));
    SiftUp(heap, n + 1, w.active);
  }

  // upheap, where one entry may be out of order with its parent and not have its index yet.
  method SiftUp(heap: array<Entry>, ghost n: nat, k: nat)
    requires HEAP0 <= k < n + HEAP0 <= heap.Length && OrderedButUp(heap[..], n, k)
    requires Distinct(heap[..], n) && Indexed(heap[..], n, k) && Cached(heap[..], n, {})
    modifies heap, Watchers(heap[..], n)`active
    ensures IsHeap(heap[..], n) && Watchers(heap[..], n) == old(Watchers(heap[..], n))
  {
    hide Up, Rearranged, HParent, Ordered, OrderedButUp, Distinct, Indexed, Watchers;
    ghost var h := heap[..];
    UpRearranges(h, n, k);
    UpOrders(h, n, k);
    UpHeap(heap, k, n);
    RearrangedCached(h, heap[..], n);
  }

  lemma LastWatcher(h: seq<Entry>, n: nat, e: Entry)
    requires n + HEAP0 < |h| && Ordered(h, n) && Distinct(h, n) && Indexed(h, n, -1) && Cached(h, n, {})
    requires e.w !in Watchers(h, n) && e.at == e.w.at
    ensures var h' := h[n + HEAP0 := e];
            && OrderedButUp(h', n + 1, n + HEAP0)
            && Distinct(h', n + 1) && Indexed(h', n + 1, n + HEAP0) && Cached(h', n + 1, {})
            && Watchers(h', n + 1) == Watchers(h, n) + {e.w}
  {
    var h' := h[n + HEAP0 := e];
    forall u | u in Watchers(h, n) ensures u in Watchers(h', n + 1) {
      var i :| HEAP0 <= i < n + HEAP0 && h[i].w == u;
      assert h'[i].w == u;
    }
    assert h'[n + HEAP0].w == e.w;
  }

  /** The last entry moved into w's place, if w is not the last itself. */
  method HeapDrop(heap: array<Entry>, n: nat, w: Watcher)
    requires n > 0 && Fits(heap[..], n) && IsHeap(heap[..], n) && w in Watchers(heap[..], n)
    modifies heap, Watchers(heap[..], n)`active
    ensures IsHeap(heap[..], n - 1)
    ensures Watchers(heap[..], n - 1) == old(Watchers(heap[..], n)) - {w}
  {
    hide Adjusted, HParent, Ordered, Distinct, Cached, Indexed, Watchers;
    ghost var h := heap[..];
    var active := w.active;
    ActiveIsIndex(h, n, w);
    DropWatcher(h, n, active);
    if active < n - 1 + HEAP0 {
      heap[active] := heap[n - 1 + HEAP0];
      assert heap[..] == h[active := h[n - 1 + HEAP0]];
      Sift(heap, n - 1, active, h);
    } else {
      assert h[active := h[n - 1 + HEAP0]] == h;
      AllIndexed(h, n - 1, active);
    }
  }

  lemma AllIndexed(h: seq<Entry>, n: nat, k: nat)
    requires Fits(h, n) && Indexed(h, n, k) && k >= n + HEAP0
    ensures Indexed(h, n, -1)
  {}

  // adjustheap, where entry k of an ordered heap has been replaced.
  method Sift(heap: array<Entry>, n: nat, k: nat, ghost h: seq<Entry>)
    requires HEAP0 <= k < n + HEAP0 <= heap.Length == |h| && Ordered(h, n) && heap[..] == h[k := heap[k]]
    requires Distinct(heap[..], n) && Indexed(heap[..], n, k) && Cached(heap[..], n, {})
    modifies heap, Watchers(heap[..], n)`active
    ensures IsHeap(heap[..], n) && Watchers(heap[..], n) == old(Watchers(heap[..], n))
  {
    hide Adjusted, Rearranged, HParent, Ordered, Distinct, Indexed, Watchers;
    ghost var h1 := heap[..];
    AdjustOrders(h, n, k, heap[k]);
    AdjustRearranges(h1, n, k);
    AdjustHeap(heap, n, k);
    RearrangedCached(h1, heap[..], n);
  }

  lemma ActiveIsIndex(h: seq<Entry>, n: nat, w: Watcher)
    requires Fits(h, n) && Indexed(h, n, -1) && w in Watchers(h, n)
    ensures HEAP0 <= w.active < n + HEAP0 && h[w.active].w == w
  {}

  lemma DropWatcher(h: seq<Entry>, n: nat, k: nat)
    requires HEAP0 <= k < n + HEAP0 <= |h| && Ordered(h, n) && Distinct(h, n)
    requires Indexed(h, n, -1) && Cached(h, n, {})
    ensures Ordered(h, n - 1)
    ensures var h' := h[k := h[n - 1 + HEAP0]];
            && Distinct(h', n - 1) && Indexed(h', n - 1, k) && Cached(h', n - 1, {})
            && Watchers(h', n - 1) == Watchers(h, n) - {h[k].w}
  {
    var h' := h[k := h[n - 1 + HEAP0]];
    forall u | u in Watchers(h, n) && u != h[k].w ensures u in Watchers(h', n - 1) {
      var i :| HEAP0 <= i < n + HEAP0 && h[i].w == u;
      var j := if i == n - 1 + HEAP0 then k else i;
      assert h'[j].w == u;
    }
    forall u | u in Watchers(h', n - 1) ensures u in Watchers(h, n) && u != h[k].w {
      var i :| HEAP0 <= i < n - 1 + HEAP0 && h'[i].w == u;
    }
  }

  /** w's new deadline cached, and its entry moved up or down. */
  method HeapRekey(heap: array<Entry>, n: nat, w: Watcher)
    requires Fits(heap[..], n) && Ordered(heap[..], n) && Distinct(heap[..], n) && Indexed(heap[..], n, -1)
    requires Cached(heap[..], n, {w}) && w in Watchers(heap[..], n)
    modifies heap, Watchers(heap[..], n)`active
    ensures IsHeap(heap[..], n)
    ensures Watchers(heap[..], n) == old(Watchers(heap[..], n))
  {
    hide Adjusted, Rearranged, HParent, Ordered, Distinct, Watchers;
    ghost var h := heap[..];
    var k := w.active;
    ActiveIsIndex(h, n, w);
    RekeyWatcher(h, n, k, Entry(w.at, w));
    heap[k] := Entry(w.at, w);
    Sift(heap, n, k, h);
  }

  lemma RekeyWatcher(h: seq<Entry>, n: nat, k: nat, e: Entry)
    requires HEAP0 <= k < n + HEAP0 <= |h| && Distinct(h, n) && e.w == h[k].w
    ensures Distinct(h[k := e], n) && Watchers(h[k := e], n) == Watchers(h, n)
  {
    var h' := h[k := e];
    forall u | u in Watchers(h, n) ensures u in Watchers(h', n) {
      var i :| HEAP0 <= i < n + HEAP0 && h[i].w == u;
      assert h'[i].w == u;
    }
  }

  /** The root's new, later deadline cached, and its entry moved down. */
  method HeapRekeyRoot(heap: array<Entry>, n: nat, w: Watcher)
    requires n > 0 && Fits(heap[..], n)
    requires Ordered(heap[..], n) && Distinct(heap[..], n) && Indexed(heap[..], n, -1)
    requires Cached(heap[..], n, {w}) && heap[HEAP0].w == w
    modifies heap, Watchers(heap[..], n)`active
    ensures IsHeap(heap[..], n)
    ensures Watchers(heap[..], n) == old(Watchers(heap[..], n))
  {
    hide Down, Rearranged;
    ghost var h := heap[..];
    RekeyWatcher(h, n, HEAP0, Entry(w.at, w));
    heap[HEAP0] := Entry(w.at, w);
    ghost var h1 := heap[..];
    assert OrderedButDown(h1, n, HEAP0);
    DownOrders(h1, n, HEAP0);
    DownRearranges(h1, n, HEAP0);
    DownHeap(heap, n, HEAP0);
    RearrangedCached(h1, heap[..], n);
  }

  // Growing the array changes nothing.
  lemma GrownHeap(h: seq<Entry>, h': seq<Entry>, n: nat)
    requires Fits(h, n) && h <= h' && IsHeap(h, n)
    ensures IsHeap(h', n) && Watchers(h', n) == Watchers(h, n)
  {
    forall w | w in Watchers(h, n) ensures w in Watchers(h', n) {
      var i :| HEAP0 <= i < n + HEAP0 && h[i].w == w;
      assert h'[i].w == w;
    }
  }

  /** No watcher is due before the one at the root. */
  lemma RootIsEarliest(h: seq<Entry>, n: nat)
    requires n > 0 && Fits(h, n) && IsHeap(h, n)
    ensures h[HEAP0].w in Watchers(h, n) && h[HEAP0].at == h[HEAP0].w.at
    ensures forall w :: w in Watchers(h, n) ==> h[HEAP0].at <= w.at
  {
    forall w | w in Watchers(h, n) ensures h[HEAP0].at <= w.at {
      var i :| HEAP0 <= i < n + HEAP0 && h[i].w == w;
      RootIsLeast(h, n, i);
    }
  }
}
