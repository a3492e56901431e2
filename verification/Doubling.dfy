/** Doubling a scale that clips nothing never helps: whatever the coarser scale can encode, the finer
    one encodes at least as well. */
module Doubling {
  import opened Sums
  import opened Rounding
  import opened HiF4
  import opened BlockSearch
  import opened Baseline

  /** Between -7 and 7 the nearest integer beats every even one up to 14. */
  lemma NearestBeatsEven(u: real, m: int)
    requires Abs(u) <= 7.0 && -7 <= m <= 7
    ensures Abs(u - Clamp(RoundEven(u), -7, 7) as real) <= Abs(u - (2 * m) as real)
  {
    SnapIntNearest(u, Clamp(2 * m, -7, 7));
  }

  /** The value of mantissa m/4 at total scale d. */
  function Steps(m: int, d: real): real {
    m as real / 4.0 * d
  }

  /** Rounding at total scale d beats every even step of d/4. */
  lemma BeatsEvenSteps(x: real, d: real, m: int)
    requires d > 0.0 && Abs(x / d * 4.0) <= 7.0 && -7 <= m <= 7
    ensures Sq(Snap(x, d) - x) <= Sq((2 * m) as real / 4.0 * d - x)
  {
    NearestBeatsEven(x / d * 4.0, m);
    SnapBeats(x, d, 2 * m);
  }

  lemma Unclipped(x: real, d: real)
    requires d > 0.0 && Abs(x) <= 7.0 * (d / 4.0)
    ensures Abs(x / d * 4.0) <= 7.0
  {
    var t, u := d / 4.0, x / d * 4.0;
    assert x == u * t by {
      assert x / d * d == x;
    }
    QuotientBound(u, t);
  }

  lemma EvenSteps(m: int, d: real, d2: real)
    requires d2 == d * 2.0
    ensures (2 * m) as real / 4.0 * d == m as real / 4.0 * d2
  {}

  /** Rounding at total scale d beats every value of total scale 2*d, if nothing is clipped. */
  lemma HalvedElement(x: real, d: real, d2: real, m: int, v: real)
    requires d > 0.0 && d2 == d * 2.0 && Abs(x) <= 7.0 * (d / 4.0) && -7 <= m <= 7 && v == Steps(m, d2)
    ensures Sq(Snap(x, d) - x) <= Sq(v - x)
  {
    Unclipped(x, d);
    BeatsEvenSteps(x, d, m);
    EvenSteps(m, d, d2);
  }

  /** The exponents at scale s that reach what e reaches at 2*s: lv2 is always doubled, lv3 wherever e
      doubles either. */
  function Finer(e: Block): int -> bool {
    h => Exponent(At(e.lv2, h / 2)) + Exponent(At(e.lv3, h)) >= 1
  }

  function Everywhere(): int -> bool {
    _ => true
  }

  function Halved(w: seq<real>, s: real, e: Block): Block
    requires s > 0.0
  {
    Encode(w, s, Everywhere(), Finer(e))
  }

  /** The finer level is the same total scale, or half of it. */
  lemma FinerScale(s: real, l: int)
    requires s > 0.0 && 0 <= l <= 2
    ensures var d, d2 := ScaleAt(s, if l >= 1 then 2 else 1), ScaleAt(s * 2.0, l);
            if l == 2 then d2 == d * 2.0 && s == d / 4.0 else d2 == d
  {}

  lemma HalvedDequant(w: seq<real>, s: real, e: Block, j: int, l: int)
    requires |w| == BLK_SIZE && s > 0.0 && WellFormed(e) && 0 <= j < BLK_SIZE
    requires l == Exponent(e.lv2[j / 8]) + Exponent(e.lv3[j / 4])
    ensures Dequant(Halved(w, s, e), j) == Snap(w[j], ScaleAt(s, if l >= 1 then 2 else 1))
  {
    assert (j / 4) / 2 == j / 8;
    EncodeDequant(w, s, Everywhere(), Finer(e), j);
  }

  lemma StepsOf(e: Block, j: int, l: int, d: real) returns (m: int)
    requires WellFormed(e) && e.sf > 0.0 && 0 <= j < BLK_SIZE
    requires l == Exponent(e.lv2[j / 8]) + Exponent(e.lv3[j / 4]) && d == ScaleAt(e.sf, l)
    ensures -7 <= m <= 7 && Dequant(e, j) == Steps(m, d)
  {
    m := SignedMantissa(e.sign[j], e.mant[j]);
    DequantAt(e, j, m);
  }

  lemma ElementHalved(w: seq<real>, s: real, e: Block, j: int)
    requires |w| == BLK_SIZE && s > 0.0 && MaxAbs(w) <= 7.0 * s && WellFormed(e) && e.sf == s * 2.0 && 0 <= j < BLK_SIZE
    ensures Sq(Dequant(Halved(w, s, e), j) - At(w, j)) <= Sq(Dequant(e, j) - At(w, j))
  {
    var l := Exponent(e.lv2[j / 8]) + Exponent(e.lv3[j / 4]);
    var m := StepsOf(e, j, l, ScaleAt(s * 2.0, l));
    HalvedDequant(w, s, e, j, l);
    FinerScale(s, l);
    assert Abs(w[j]) <= MaxAbs(w);
    CoarserLoses(w[j], ScaleAt(s, if l >= 1 then 2 else 1), ScaleAt(s * 2.0, l), s, m, Dequant(e, j));
  }

  lemma CoarserLoses(x: real, d: real, d2: real, s: real, m: int, v: real)
    requires d > 0.0 && s > 0.0 && Abs(x) <= 7.0 * s && -7 <= m <= 7 && v == Steps(m, d2)
    requires d2 == d || (d2 == d * 2.0 && s == d / 4.0)
    ensures Sq(Snap(x, d) - x) <= Sq(v - x)
  {
    if d2 == d {
      SnapOptimal(x, d, m);
    } else {
      HalvedElement(x, d, d2, m, v);
    }
  }

  /** A scale of at least max/7 is never beaten by its double. */
  lemma DoubleNeverHelps(w: seq<real>, imp: Importance, s: real, e: Block)
    requires |w| == BLK_SIZE && ValidImportance(imp) && s > 0.0 && MaxAbs(w) <= 7.0 * s
    requires WellFormed(e) && e.sf == s * 2.0
    ensures Err(w, imp, QuantizeGivenScale(w, imp, s)) <= Err(w, imp, e)
  {
    var f := Halved(w, s, e);
    forall j | 0 <= j < BLK_SIZE ensures Loss(w, imp, Values(f))(j) <= Loss(w, imp, Values(e))(j) {
      ElementHalved(w, s, e, j);
      TermMono(w, imp, j, Dequant(f, j), Dequant(e, j));
    }
    SumMono(BLK_SIZE, Loss(w, imp, Values(f)), Loss(w, imp, Values(e)));
    EncodeWellFormed(w, s, Everywhere(), Finer(e));
    SearchIsOptimal(w, imp, f);
  }
}
