/** Facts about products and remainders that the solver needs stated. */
module Arithmetic {

  lemma ModUnique(v: int, m: int, q: int, r: int)
    requires 0 < m && 0 <= r < m && v == q * m + r
    ensures v % m == r && v / m == q
  {
    var q', r' := v / m, v % m;
    assert v == m * q' + r';
    assert (q - q') * m == r' - r;
    if q - q' >= 1 {
      MulMono(1, q - q', m);
      assert false;
    } else if q - q' <= -1 {
      MulMono(q - q', -1, m);
      assert false;
    }
  }

  lemma MulMono(x: int, y: int, m: int)
    requires x <= y && 0 <= m
    ensures x * m <= y * m
  {
  }
}
