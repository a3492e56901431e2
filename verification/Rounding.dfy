/** Exact-arithmetic counterparts of `round` (nearest integer, ties to even), `clamp`, `abs`
    and `sign`, and of the scaled rounding that every HiF4 mantissa goes through. */
module Rounding {
  import opened Sums

  function Abs(x: real): (r: real)
    ensures 0.0 <= r && (r == x || r == -x)
  {
    if x < 0.0 then -x else x
  }

  function Sign(x: real): real {
    if x > 0.0 then 1.0 else if x < 0.0 then -1.0 else 0.0
  }

  lemma SignTimesAbs(x: real)
    ensures Sign(x) * Abs(x) == x
  {}

  function MinR(a: real, b: real): real {
    if b < a then b else a
  }

  function MaxR(a: real, b: real): real {
    if b > a then b else a
  }

  /** `clamp(min, max)`: the upper bound wins when the bounds cross. */
  function Clamp(x: int, lo: int, hi: int): (r: int)
    ensures lo <= hi ==> lo <= r <= hi
  {
    var y := if x < lo then lo else x;
    if y > hi then hi else y
  }

  /** Round to the nearest integer, halves to the even neighbour. */
  function RoundEven(x: real): (r: int) {
    var f := x.Floor;
    var d := x - f as real;
    if d < 0.5 then f
    else if d > 0.5 then f + 1
    else if f % 2 == 0 then f else f + 1
  }

  /** No integer is closer to x than RoundEven(x), and none of the two neighbours is further than 1/2. */
  lemma RoundNearest(x: real, m: int)
    ensures Abs(x - RoundEven(x) as real) <= Abs(x - m as real)
    ensures Abs(x - RoundEven(x) as real) <= 0.5
  {
    var f := x.Floor;
    assert f as real <= x < f as real + 1.0;
    if m <= f {
      assert m as real <= f as real;
    } else {
      assert m as real >= f as real + 1.0;
    }
  }

  lemma RoundOfInt(k: int)
    ensures RoundEven(k as real) == k
  {}

  /** A half goes to the even neighbour. */
  lemma RoundTies(k: int)
    ensures RoundEven(k as real + 0.5) == if k % 2 == 0 then k else k + 1
    ensures RoundEven(k as real + 0.5) % 2 == 0
  {
    FloorUnique(k as real + 0.5, k);
  }

  lemma FloorUnique(x: real, f: int)
    requires f as real <= x < f as real + 1.0
    ensures x.Floor == f
  {}

  /** Ties-to-even rounding is odd, so rounding the magnitude and restoring the sign changes nothing. */
  lemma RoundOdd(x: real)
    ensures RoundEven(-x) == -RoundEven(x)
  {
    var f := x.Floor;
    if f as real == x {
      FloorUnique(-x, -f);
    } else {
      FloorUnique(-x, -f - 1);
    }
  }

  /** The integer k of the mantissa k/4 chosen for x at total scale s. */
  function SnapInt(x: real, s: real): (k: int)
    requires s > 0.0
    ensures -7 <= k <= 7
  {
    Clamp(RoundEven(x / s * 4.0), -7, 7)
  }

  /** The signed mantissa in {-7/4, ..., 7/4}. */
  function SnapQ(x: real, s: real): real
    requires s > 0.0
  {
    SnapInt(x, s) as real / 4.0
  }

  /** The reconstructed value. */
  function Snap(x: real, s: real): real
    requires s > 0.0
  {
    SnapQ(x, s) * s
  }

  lemma SnapIntNearest(u: real, m: int)
    requires -7 <= m <= 7
    ensures Abs(u - Clamp(RoundEven(u), -7, 7) as real) <= Abs(u - m as real)
  {
    RoundNearest(u, m);
  }

  /** x - (k/4)*s in units of s/4. */
  lemma Rescale(x: real, s: real, k: int)
    requires s > 0.0
    ensures k as real / 4.0 * s - x == -(x / s * 4.0 - k as real) * (s / 4.0)
  {
    var u := x / s;
    assert x == u * s;
    assert k as real / 4.0 * s == k as real * (s / 4.0);
    assert u * 4.0 * (s / 4.0) == u * s;
    assert (u * 4.0 - k as real) * (s / 4.0) == u * 4.0 * (s / 4.0) - k as real * (s / 4.0);
  }

  lemma SqMono(a: real, b: real, c: real)
    requires Abs(a) <= Abs(b)
    ensures Sq(-a * c) <= Sq(-b * c)
  {
    var p, q := Abs(a), Abs(b);
    SquareMono(p, q);
    assert Sq(a) == p * p && Sq(b) == q * q;
    SqNonNeg(c);
    MulMono(Sq(a), Sq(b), Sq(c));
    assert Sq(-a * c) == Sq(a) * Sq(c);
    assert Sq(-b * c) == Sq(b) * Sq(c);
  }

  lemma MulMono(a: real, b: real, c: real)
    requires a <= b && 0.0 <= c
    ensures a * c <= b * c
  {}

  lemma StrictMulMono(a: real, b: real, c: real)
    requires a < b && 0.0 < c
    ensures a * c < b * c
  {}

  lemma SquareMono(p: real, q: real)
    requires 0.0 <= p <= q
    ensures p * p <= q * q
  {
    MulMono(p, q, p);
    MulMono(p, q, q);
  }

  /** The closer integer k gives the smaller square error. */
  lemma CloserIsBetter(x: real, s: real, k: int, b: real)
    requires s > 0.0 && Abs(x / s * 4.0 - k as real) <= Abs(b)
    ensures Sq(k as real / 4.0 * s - x) <= Sq(-b * (s / 4.0))
  {
    Rescale(x, s, k);
    SqMono(x / s * 4.0 - k as real, b, s / 4.0);
  }

  /** Clamped rounding is the best mantissa: no integer in -7..7 reconstructs x with a smaller square error. */
  lemma SnapOptimal(x: real, s: real, m: int)
    requires s > 0.0 && -7 <= m <= 7
    ensures Sq(Snap(x, s) - x) <= Sq(m as real / 4.0 * s - x)
  {
    SnapIntNearest(x / s * 4.0, m);
    SnapBeats(x, s, m);
  }

  /** The rounded value beats every multiple of s/4 that is no closer. */
  lemma SnapBeats(x: real, s: real, k: int)
    requires s > 0.0 && Abs(x / s * 4.0 - SnapInt(x, s) as real) <= Abs(x / s * 4.0 - k as real)
    ensures Sq(Snap(x, s) - x) <= Sq(k as real / 4.0 * s - x)
  {
    CloserIsBetter(x, s, SnapInt(x, s), x / s * 4.0 - k as real);
    Rescale(x, s, k);
  }

  /** Rounding a value that is already on the grid returns it. */
  lemma SnapOnGrid(k: int, s: real)
    requires s > 0.0 && -7 <= k <= 7
    ensures SnapInt(k as real / 4.0 * s, s) == k
  {
    assert k as real / 4.0 * s / s == k as real / 4.0;
    RoundOfInt(k);
  }

  /** Within reach of the largest mantissa nothing is clipped: at total scale 4*t the error is at
      most half a step, t/2. */
  lemma SnapUnclipped(x: real, t: real)
    requires t > 0.0 && Abs(x) <= 7.0 * t
    ensures Sq(Snap(x, t * 4.0) - x) <= Sq(t) / 4.0
  {
    var s := t * 4.0;
    var u := x / s * 4.0;
    assert x == u * t by {
      assert x / s * s == x;
    }
    QuotientBound(u, t);
    UnclippedRound(u);
    CloserIsBetter(x, s, SnapInt(x, s), 0.5);
    assert s / 4.0 == t;
    HalfSquare(t);
  }

  lemma HalfSquare(t: real)
    ensures Sq(-0.5 * t) == Sq(t) / 4.0
  {}

  lemma UnclippedRound(u: real)
    requires Abs(u) <= 7.0
    ensures Abs(u - Clamp(RoundEven(u), -7, 7) as real) <= 0.5
  {
    RoundNearest(u, 7);
    RoundNearest(u, -7);
  }

  /** Signed rounding equals rounding the magnitude and restoring the sign. */
  lemma SnapSignMagnitude(x: real, s: real)
    requires s > 0.0
    ensures Sign(x) * (Clamp(RoundEven(Abs(x) * 4.0 / s), 0, 7) as real * 0.25) == SnapQ(x, s)
  {
    ScaledAbs(x, s);
    ClampOdd(x / s * 4.0);
  }

  lemma ClampOdd(u: real)
    ensures Sign(u) * (Clamp(RoundEven(Abs(u)), 0, 7) as real * 0.25) == Clamp(RoundEven(u), -7, 7) as real / 4.0
  {
    if u == 0.0 {
      RoundOfInt(0);
    } else if u > 0.0 {
      RoundNonNeg(u);
    } else {
      RoundOdd(u);
      RoundNonNeg(-u);
    }
  }

  lemma ScaledAbs(x: real, s: real)
    requires s > 0.0
    ensures Abs(x) * 4.0 / s == Abs(x / s * 4.0)
    ensures Sign(x / s * 4.0) == Sign(x)
  {
    assert x * 4.0 / s == x / s * 4.0;
    assert -x * 4.0 / s == -(x / s * 4.0);
  }

  lemma QuotientBound(u: real, t: real)
    requires t > 0.0 && Abs(u * t) <= 7.0 * t
    ensures Abs(u) <= 7.0
  {
    assert u * t / t == u;
    assert 7.0 * t / t == 7.0;
  }

  lemma RoundNonNeg(u: real)
    requires u >= 0.0
    ensures RoundEven(u) >= 0
  {}
}
