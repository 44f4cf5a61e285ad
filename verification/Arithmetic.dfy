/** Facts about products and remainders that the conversions and the ring buffer share. */
module Arithmetic {

  lemma MulMono(x: int, y: int, m: int)
    requires x <= y && 0 <= m
    ensures x * m <= y * m
  {
  }

  lemma ModWithin(x: int, n: int)
    requires 0 < n && 0 <= x < 2 * n
    ensures x % n == if x < n then x else x - n
  {
    var q, r := x / n, x % n;
    assert x == q * n + r;
    if q >= 2 {
      MulMono(2, q, n);
    } else if q >= 1 {
      assert q == 1;
    } else {
      MulMono(q, 0, n);
    }
  }
}
