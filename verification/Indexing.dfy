/** Index arithmetic of reshaped tensors. */
module Indexing {

  lemma LessFromProduct(a: int, b: int, c: int)
    requires 0 < c && a * c < b * c
    ensures a < b
  {}

  /** Quotient and remainder are determined by x == q * d + r. */
  lemma DivModUnique(x: int, d: int, q: int, r: int)
    requires 0 <= r < d && x == q * d + r
    ensures x / d == q && x % d == r
  {
    assert x == x / d * d + x % d;
    var k := x / d - q;
    assert k * d == r - x % d;
    LessFromProduct(k, 1, d);
    LessFromProduct(-1, k, d);
  }

  /** Skipping a whole rows of d entries. */
  lemma ShiftedDivMod(a: nat, d: nat, t: nat)
    requires d > 0
    ensures (a * d + t) / d == a + t / d
    ensures (a * d + t) % d == t % d
  {
    assert a * d + t == (a + t / d) * d + t % d;
    DivModUnique(a * d + t, d, a + t / d, t % d);
  }
}
