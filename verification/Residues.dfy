/** Facts about quotients and remainders that ring buffers need: `pos & mask` of the sources is
    the remainder of a position by a power of two. */
module Residues {

  lemma MultipleBounds(d: int, n: nat)
    ensures d >= 1 ==> d * n >= n
    ensures d <= -1 ==> d * n <= -(n as int)
    ensures d == 0 ==> d * n == 0
  {
    if d >= 1 {
      assert (d - 1) * n >= 0;
    } else if d <= -1 {
      assert (-d - 1) * n >= 0;
    }
  }

  lemma QuotientUnique(x: nat, n: nat, k: nat, r: nat)
    requires n > 0 && x == k * n + r && r < n
    ensures x / n == k && x % n == r
  {
    var d := x / n - k;
    assert x == (x / n) * n + x % n;
    assert (x / n) * n - k * n == d * n;
    MultipleBounds(d, n);
  }

  lemma OneLapLater(q: nat, n: nat)
    requires n > 0
    ensures (q + n) % n == q % n
  {
    assert q == (q / n) * n + q % n;
    assert (q / n + 1) * n == (q / n) * n + n;
    QuotientUnique(q + n, n, q / n + 1, q % n);
  }

  /** Two different positions less than a lap apart use different slots. */
  lemma DifferentSlots(p: nat, q: nat, n: nat)
    requires p < q < p + n
    ensures p % n != q % n
  {
    var d := q / n - p / n;
    assert p == (p / n) * n + p % n;
    assert q == (q / n) * n + q % n;
    assert (q / n) * n - (p / n) * n == d * n;
    MultipleBounds(d, n);
  }
}
