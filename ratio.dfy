/** Facts about exact real division used by the percentage scores. */
module Ratio {

  lemma DivMonotone(x: real, y: real, m: real)
    requires 0.0 < m && x <= y
    ensures x / m <= y / m
    ensures y / m - x / m == (y - x) / m
  {
    assert y / m - x / m == (y - x) / m;
  }

  lemma DivSelf(m: real)
    requires 0.0 < m
    ensures m / m == 1.0
  {
  }

  lemma DivPositive(x: real, m: real)
    requires 0.0 < m && 0.0 < x
    ensures 0.0 < x / m
  {
  }

  /** The percentage `k / n * 100` of a part `k` of a whole `n`: it lies in
      [0, 100], is positive exactly for a non-empty part and is 100 exactly
      for the whole. */
  lemma ShareBounds(k: nat, n: nat)
    requires 0 < n && k <= n
    ensures 0.0 <= (k as real / n as real) * 100.0 <= 100.0
    ensures 0.0 < (k as real / n as real) * 100.0 <==> 0 < k
    ensures (k as real / n as real) * 100.0 == 100.0 <==> k == n
  {
    var kr, nr := k as real, n as real;
    DivMonotone(kr, nr, nr);
    DivSelf(nr);
    DivMonotone(0.0, kr, nr);
    if k < n {
      DivPositive(nr - kr, nr);
    }
    if 0 < k {
      DivPositive(kr, nr);
    }
  }
}
