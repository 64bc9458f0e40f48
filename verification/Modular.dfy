/** Facts about remainders that the models of loops over cyclic indices and of fixed-width
    accumulators need. */
module Modular {

  lemma MulAtLeast(q: int, n: nat)
    requires q >= 1
    ensures q * n >= n
  {
    assert (q - 1) * n >= 0;
  }

  lemma SmallMultiple(q: int, n: int, x: int)
    requires n > 0 && x == q * n && -n < x < n
    ensures x == 0
  {
    if q >= 1 {
      MulAtLeast(q, n);
    } else if q <= -1 {
      MulAtLeast(-q, n);
    }
  }

  /** The remainder is the one in any decomposition. */
  lemma ModIs(x: int, q: int, r: int, m: int)
    requires 0 <= r < m && x == q * m + r
    ensures x % m == r
  {
    assert x == (x / m) * m + x % m;
    assert (x / m - q) * m == r - x % m;
    SmallMultiple(x / m - q, m, r - x % m);
  }
}
