/**
  The arithmetic of libev's periodic timers (libev-master/ev.c), over the reals: ev_floor, and
  periodic_recalc's choice of the next deadline.
 */
module PeriodicTimes {
  const SHIFT := 18446744073709551616.0
  const MIN_INTERVAL := 0.0001220703125

  // The rounding of v towards zero that a cast to an unsigned type makes.
  function Truncated(v: real): (r: real)
    requires 0.0 <= v < SHIFT
  {
    v.Floor as real
  }

  lemma FloorIs(v: real, n: int)
    requires n as real <= v < n as real + 1.0
    ensures v.Floor == n
  {}

  lemma FloorOfDifference(v: real, n: int)
    ensures (v - n as real).Floor == v.Floor - n
  {
    FloorIs(v - n as real, v.Floor - n);
  }

  // The arguments of ev_floor's recursive calls have smaller floors, which add up.
  lemma FloorSplit(v: real)
    requires v >= SHIFT
    ensures 0 <= (v * (1.0 / SHIFT)).Floor < v.Floor
    ensures var f := SHIFT * (v * (1.0 / SHIFT)).Floor as real;
            && 0.0 <= v - f
            && (v - f).Floor < v.Floor
            && f + (v - f).Floor as real == v.Floor as real
  {
    var q := v * (1.0 / SHIFT);
    assert q * SHIFT == v;
    assert 0.0 < q < v - 1.0;
    var n := 18446744073709551616 * q.Floor;
    assert SHIFT * q.Floor as real == n as real;
    assert SHIFT * (q - q.Floor as real) < SHIFT;
    FloorOfDifference(v, n);
    assert v - n as real < SHIFT;
  }

  // Negative arguments round away from zero, unless they are whole.
  lemma FloorNegated(v: real)
    ensures var f := -((-v).Floor as real);
            v.Floor as real == f - if f == v then 0.0 else 1.0
  {
    var f := -((-v).Floor as real);
    if f == v {
      FloorIs(v, -((-v).Floor));
    } else {
      FloorIs(v, -((-v).Floor) - 1);
    }
  }

  /** ev_floor is the mathematical floor, for every argument. */
  function EvFloor(v: real): (f: real)
    ensures f == v.Floor as real
    decreases if v < 0.0 then (-v).Floor else v.Floor, v < 0.0
  {
    if v >= SHIFT then
      // over the reals, v is never equal to v - 1
      FloorSplit(v);
      var f := SHIFT * EvFloor(v * (1.0 / SHIFT));
      f + EvFloor(v - f)
    else if v < 0.0 then
      FloorNegated(v);
      var f := -EvFloor(-v);
      f - (if f == v then 0.0 else 1.0)
    else
      Truncated(v)
  }

  // ---------- The next deadline of a periodic ----------

  function Point(offset: real, interval: real, n: int): real {
    offset + n as real * interval
  }

  ghost predicate OnGrid(at: real, offset: real, interval: real) {
    exists n :: at == Point(offset, interval, n)
  }

  /** Of the points offset + n * interval, the first one later than now. */
  ghost predicate LeastBeyond(at: real, offset: real, interval: real, now: real) {
    && at > now
    && OnGrid(at, offset, interval)
    && forall n :: Point(offset, interval, n) > now ==> at <= Point(offset, interval, n)
  }

  function Longer(interval: real): real {
    if interval > MIN_INTERVAL then interval else MIN_INTERVAL
  }

  // Where the search for the next deadline starts.
  ghost function StartPoint(offset: real, interval: real, now: real): real {
    offset + Longer(interval) * ((now - offset) / Longer(interval)).Floor as real
  }

  predicate Whole(x: real) {
    x.Floor as real == x
  }

  // Lemmas on products, one for each step the solver needs.
  lemma MulLe(a: real, b: real, c: real)
    requires a <= b && c > 0.0
    ensures a * c <= b * c
  {
    assert (b - a) * c == b * c - a * c;
  }

  lemma MulPositive(a: real, b: real)
    requires a > 0.0 && b > 0.0
    ensures a * b > 0.0
  {}

  lemma MulLess(a: real, b: real, c: real)
    requires a < b && c > 0.0
    ensures a * c < b * c
  {
    MulPositive(b - a, c);
    assert (b - a) * c == b * c - a * c;
  }

  lemma OneMore(a: real, b: real, c: real)
    requires b == a + 1.0
    ensures b * c == c * a + c
  {}

  lemma MulCancel(a: real, b: real, c: real)
    requires c > 0.0 && a * c <= b * c
    ensures a <= b
  {
    if a > b {
      MulPositive(a - b, c);
    }
  }

  lemma PointMonotone(offset: real, interval: real, m: int, n: int)
    requires interval > 0.0 && m <= n
    ensures Point(offset, interval, m) <= Point(offset, interval, n)
  {
    MulLe(m as real, n as real, interval);
  }

  lemma PointAfter(offset: real, interval: real, n: int)
    ensures Point(offset, interval, n + 1) == Point(offset, interval, n) + interval
  {
    assert (n + 1) as real * interval == n as real * interval + interval;
  }

  // The point that is `n` from the `j`-th.
  lemma PointFrom(offset: real, interval: real, j: int, n: int)
    ensures Point(Point(offset, interval, j), interval, n) == Point(offset, interval, j + n)
  {
    assert (j + n) as real * interval == j as real * interval + n as real * interval;
  }

  lemma Quotient(x: real, step: real)
    requires step > 0.0
    ensures (x / step) * step == x
  {}

  // Rounding x down to a multiple of `step` takes less than `step` away.
  lemma RoundedDown(x: real, q: real, f: real, step: real)
    requires step > 0.0 && x == q * step && f <= q < f + 1.0
    ensures step * f <= x < step * f + step
  {
    var g := f + 1.0;
    MulLe(f, q, step);
    MulLess(q, g, step);
    OneMore(f, g, step);
    assert q * step < g * step;
    assert x < g * step;
  }

  lemma StartNotBeyond(offset: real, interval: real, now: real)
    ensures StartPoint(offset, interval, now) <= now < StartPoint(offset, interval, now) + Longer(interval)
    ensures Point(StartPoint(offset, interval, now), interval, 0) == StartPoint(offset, interval, now)
  {
    var step := Longer(interval);
    var q := (now - offset) / step;
    Quotient(now - offset, step);
    var f := q.Floor as real;
    RoundedDown(now - offset, q, f, step);
    assert StartPoint(offset, interval, now) == offset + step * f;
  }

  lemma StartIs(offset: real, interval: real, now: real)
    ensures offset + Longer(interval) * EvFloor((now - offset) / Longer(interval)) == StartPoint(offset, interval, now)
  {}

  // A point that is beyond now, but no more than an interval, is the first one beyond.
  lemma FirstBeyond(offset: real, interval: real, now: real, n: int)
    requires interval > 0.0 && now < Point(offset, interval, n) <= now + interval
    ensures LeastBeyond(Point(offset, interval, n), offset, interval, now)
  {
    hide Point;
    forall m | Point(offset, interval, m) > now
      ensures Point(offset, interval, n) <= Point(offset, interval, m)
    {
      PointAfter(offset, interval, n - 1);
      if m < n {
        PointMonotone(offset, interval, m, n - 1);
      } else {
        PointMonotone(offset, interval, n, m);
      }
    }
  }

  // At most this many intervals fit between `start` and now.
  lemma StepsLeft(start: real, interval: real, now: real, n: int, bound: int)
    requires interval > 0.0 && bound == ((now - start) / interval).Floor
    requires Point(start, interval, n) <= now
    ensures n <= bound
  {
    var q := (now - start) / interval;
    Quotient(now - start, interval);
    MulCancel(n as real, q, interval);
  }

  /** periodic_recalc's deadline: later than now by at most an interval, and the first point
      beyond now of the grid through the start point. */
  method NextDeadline(offset: real, interval: real, now: real) returns (at: real)
    requires interval > 0.0
    ensures now < at <= now + interval
    ensures LeastBeyond(at, StartPoint(offset, interval, now), interval, now)
  {
    hide Point, LeastBeyond, EvFloor, StartPoint;
    var longer := if interval > MIN_INTERVAL then interval else MIN_INTERVAL;
    at := offset + longer * EvFloor((now - offset) / longer);
    ghost var (start, n) := (at, 0);
    StartIs(offset, interval, now);
    ghost var bound := ((now - start) / interval).Floor;
    StartNotBeyond(offset, interval, now);
    while at <= now
      invariant at == Point(start, interval, n) && at <= now + interval
      decreases bound + 1 - n
    {
      StepsLeft(start, interval, now, n, bound);
      PointAfter(start, interval, n);
      at := at + interval;  // over the reals, never what it was
      n := n + 1;
    }
    FirstBeyond(start, interval, now, n);
  }

  // Two grids of the same interval share a point only if their offsets differ by whole intervals.
  lemma SharedPoint(offset: real, start: real, interval: real, m: int, n: int)
    requires interval > 0.0 && Point(start, interval, n) == Point(offset, interval, m)
    ensures Whole((start - offset) / interval)
  {
    var (q, d) := ((start - offset) / interval, (m - n) as real);
    Quotient(start - offset, interval);
    assert q * interval == d * interval by {
      assert d * interval == m as real * interval - n as real * interval;
    }
    MulCancel(q, d, interval);
    MulCancel(d, q, interval);
    FloorIs(q, m - n);
  }

  lemma WholeIsPoint(offset: real, start: real, interval: real)
    requires interval > 0.0 && Whole((start - offset) / interval)
    ensures start == Point(offset, interval, ((start - offset) / interval).Floor)
  {
    Quotient(start - offset, interval);
  }

  lemma SameGrid(at: real, offset: real, start: real, interval: real, now: real, j: int)
    requires start == Point(offset, interval, j) && LeastBeyond(at, start, interval, now)
    ensures LeastBeyond(at, offset, interval, now)
  {
    hide Point;
    var n :| at == Point(start, interval, n);
    PointFrom(offset, interval, j, n);
    forall m | Point(offset, interval, m) > now ensures at <= Point(offset, interval, m) {
      PointFrom(offset, interval, j, m - j);
    }
  }

  /** When the deadline that periodic_recalc finds is the first offset + n * interval beyond
      now, as its documentation has it: exactly when the start point lies on that grid. */
  lemma RecalculatedOnGrid(at: real, offset: real, interval: real, now: real)
    requires interval > 0.0
    requires LeastBeyond(at, StartPoint(offset, interval, now), interval, now)
    ensures LeastBeyond(at, offset, interval, now) <==>
            Whole((StartPoint(offset, interval, now) - offset) / interval)
  {
    hide Point, StartPoint, Whole;
    var start := StartPoint(offset, interval, now);
    if LeastBeyond(at, offset, interval, now) {
      var n :| at == Point(start, interval, n);
      var m :| at == Point(offset, interval, m);
      SharedPoint(offset, start, interval, m, n);
    }
    if Whole((start - offset) / interval) {
      WholeIsPoint(offset, start, interval);
      SameGrid(at, offset, start, interval, now, ((start - offset) / interval).Floor);
    }
  }

  /** Intervals of at least 1/8192 second always do. */
  lemma LongIntervals(offset: real, interval: real, now: real)
    requires interval >= MIN_INTERVAL
    ensures Whole((StartPoint(offset, interval, now) - offset) / interval)
  {
    var n := ((now - offset) / interval).Floor;
    assert Longer(interval) == interval;
    assert (interval * n as real) / interval == n as real;
    assert StartPoint(offset, interval, now) - offset == interval * n as real;
    FloorIs(n as real, n);
  }

  /** A shorter one that does not: two thirds of it, one tick after the offset. */
  lemma ShortIntervalMisses()
    ensures var (interval, now) := (MIN_INTERVAL * 2.0 / 3.0, MIN_INTERVAL);
            forall at :: LeastBeyond(at, StartPoint(0.0, interval, now), interval, now) ==>
              !LeastBeyond(at, 0.0, interval, now)
  {
    var (interval, now) := (MIN_INTERVAL * 2.0 / 3.0, MIN_INTERVAL);
    assert (now - 0.0) / MIN_INTERVAL == 1.0;
    assert (StartPoint(0.0, interval, now) - 0.0) / interval == 1.5;
    forall at | LeastBeyond(at, StartPoint(0.0, interval, now), interval, now)
      ensures !LeastBeyond(at, 0.0, interval, now)
    {
      RecalculatedOnGrid(at, 0.0, interval, now);
    }
  }
}
