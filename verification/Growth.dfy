/**
  How libev's arrays grow (array_nextsize and array_needsize in libev-master/ev.c), on unbounded
  integers: capacities at least double, and large ones fill whole pages less the allocator's
  own words.
 */
module Growth {
  const MALLOC_ROUND := 4096
  const OVERHEAD := 32  // sizeof (void *) * 4

  function Power2(j: nat): (p: nat)
    ensures p > 0
  {
    if j == 0 then 1 else 2 * Power2(j - 1)
  }

  /** The first doubling of cur + 1 that is large enough for cnt. */
  ghost predicate LeastDoubling(cur: nat, cnt: int, n: int, j: nat) {
    && j >= 1
    && n == (cur + 1) * Power2(j) && n >= cnt
    && (j > 1 ==> (cur + 1) * Power2(j - 1) < cnt)
  }

  /** A capacity that fills `pages` pages, but for the overhead and less than one element. */
  ghost predicate FillsPages(elem: nat, n: int, pages: int) {
    n * elem + OVERHEAD <= pages * MALLOC_ROUND < (n + 1) * elem + OVERHEAD
  }

  lemma DoubleAgain(cur: nat, j: nat)
    ensures (cur + 1) * Power2(j + 1) == 2 * ((cur + 1) * Power2(j))
  {}

  // Rounding a size up to whole pages leaves room for one more element and the overhead.
  lemma RoundedUp(elem: nat, n: nat, size: int, pages: int)
    requires elem > 0 && size == n * elem
    requires pages == (size + elem + (MALLOC_ROUND - 1) + OVERHEAD) / MALLOC_ROUND
    ensures var r := (pages * MALLOC_ROUND - OVERHEAD) / elem;
            r > n && FillsPages(elem, r, pages)
  {
    var b := pages * MALLOC_ROUND - OVERHEAD;
    assert b >= size + elem;
    var r := b / elem;
    assert b == r * elem + b % elem && 0 <= b % elem < elem;
    assert (r + 1) * elem == r * elem + elem;
    assert (n + 1) * elem == n * elem + elem;
    if r <= n {
      LeProduct(r + 1, n + 1, elem);
    }
  }

  lemma LeProduct(a: int, b: int, c: nat)
    requires a <= b
    ensures a * c <= b * c
  {
    assert b * c - a * c == (b - a) * c;
  }

  /** array_nextsize */
  method NextSize(elem: nat, cur: nat, cnt: int) returns (ncur: nat, ghost j: nat)
    requires elem > 0
    ensures ncur >= cnt && ncur >= 2 * cur + 2
    ensures exists n :: LeastDoubling(cur, cnt, n, j) && n <= ncur
                     && (elem * n <= MALLOC_ROUND - OVERHEAD ==> ncur == n)
                     && (elem * n > MALLOC_ROUND - OVERHEAD ==> ncur > n && exists pages :: FillsPages(elem, ncur, pages))
  {
    ncur := (cur + 1) * 2;
    j := 1;
    assert Power2(1) == 2;
    while cnt > ncur
      invariant j >= 1 && ncur == (cur + 1) * Power2(j) && ncur >= 2 * cur + 2
      invariant j > 1 ==> (cur + 1) * Power2(j - 1) < cnt
      decreases cnt - ncur
    {
      DoubleAgain(cur, j);
      ncur := ncur * 2;
      j := j + 1;
    }
    ghost var n := ncur;
    assert LeastDoubling(cur, cnt, n, j);
    if elem * ncur > MALLOC_ROUND - OVERHEAD {
      var size := ncur * elem;
      var pages := (size + elem + (MALLOC_ROUND - 1) + OVERHEAD) / MALLOC_ROUND;
      RoundedUp(elem, ncur, size, pages);
      size := pages * MALLOC_ROUND;  // the mask ~(MALLOC_ROUND - 1)
      size := size - OVERHEAD;
      ncur := size / elem;
    }
  }

  /** array_needsize, with realloc keeping the old elements in front and the new elements
      initialised to `init`. */
  method NeedSize<T>(elem: nat, base: array<T>, cnt: nat, init: T) returns (base': array<T>)
    requires elem > 0
    ensures base'.Length >= cnt && base'.Length >= base.Length
    ensures base'[..base.Length] == base[..]
    ensures forall i :: base.Length <= i < base'.Length ==> base'[i] == init
    ensures cnt <= base.Length ==> base' == base
    ensures cnt > base.Length ==> fresh(base') && base'.Length >= 2 * base.Length + 2
  {
    base' := base;
    if cnt > base.Length {
      var cur, _ := NextSize(elem, base.Length, cnt);
      base' := new T[cur](i reads base => if 0 <= i < base.Length then base[i] else init);
    }
  }

  /** An array with its count: an element is appended by making room for it and storing it. */
  class Growing<T> {
    const elem: nat
    var base: array<T>
    var cnt: nat
    ghost var moved: nat  // elements copied by reallocations so far

    ghost predicate Valid()
      reads this
    {
      && elem > 0 && cnt <= base.Length
      && moved <= base.Length && (cnt == 0 ==> moved == 0) && (cnt > 0 ==> moved <= 2 * (cnt - 1))
    }

    ghost function Contents(): seq<T>
      reads this, base
      requires Valid()
    {
      base[..cnt]
    }

    constructor (elem: nat)
      requires elem > 0
      ensures Valid() && Contents() == [] && fresh(base)
    {
      this.elem := elem;
      base := new T[0];
      cnt, moved := 0, 0;
    }

    method Append(x: T)
      requires Valid()
      modifies this, base
      ensures Valid() && Contents() == old(Contents()) + [x]
      ensures base == old(base) || fresh(base)
      ensures moved == old(moved) + if old(cnt) == old(base.Length) then old(cnt) else 0
    {
      if cnt == base.Length {
        moved := moved + cnt;
      }
      base := NeedSize(elem, base, cnt + 1, x);
      base[cnt] := x;
      cnt := cnt + 1;
    }
  }

  /** n appends keep everything appended before and move fewer than 2n elements in all. */
  method AppendAll<T>(elem: nat, xs: seq<T>) returns (g: Growing<T>)
    requires elem > 0
    ensures fresh(g) && g.Valid() && g.Contents() == xs
    ensures xs != [] ==> g.moved < 2 * |xs|
  {
    g := new Growing<T>(elem);
    for i := 0 to |xs|
      invariant fresh(g) && fresh(g.base) && g.Valid() && g.Contents() == xs[..i]
    {
      g.Append(xs[i]);
    }
  }
}
