/** The few facts of integer division that the proofs rest on. */
module Arithmetic {

  lemma {:induction false} MulGap(n: int, low: int, high: int)
    requires n > 0 && low < high
    ensures n * low + n <= n * high
    decreases high - low
  {
    if low + 1 < high {
      MulGap(n, low, high - 1);
    }
    assert n * high == n * (high - 1) + n;
  }

  lemma ModIsUnique(x: int, n: int, q: int, r: int)
    requires n > 0 && 0 <= r < n && x == n * q + r
    ensures x % n == r
  {
    var q' := x / n;
    assert x == n * q' + x % n;
    if q < q' {
      MulGap(n, q, q');
    } else if q' < q {
      MulGap(n, q', q);
    }
  }

  lemma QuotientBounds(n: nat, gap: nat, span: nat)
    requires gap > 0 && n * gap <= span
    ensures n <= span / gap
  {
    var q := span / gap;
    assert span == gap * q + span % gap;
    if q < n {
      MulGap(gap, q, n);
    }
  }
}
