/** Division facts used by the scheduler and the pool sizing. */
module Arithmetic {

  lemma Distribute(a: int, b: int, n: int)
    ensures a * n - b * n == (a - b) * n
  {
  }

  lemma AtLeastOnce(d: int, n: int)
    requires d >= 1 && n >= 0
    ensures d * n >= n
  {
  }

  lemma QuotientIs(x: nat, n: nat, k: nat, r: nat)
    requires r < n && x == k * n + r
    ensures x / n == k && x % n == r
  {
    var k', r' := x / n, x % n;
    assert x == k' * n + r';
    Distribute(k, k', n);
    Distribute(k', k, n);
    if k' < k { AtLeastOnce(k - k', n); } else if k < k' { AtLeastOnce(k' - k, n); }
  }
}
