/** Algorithm 1 of the HiFloat4 paper, the direct-cast reference: nearest E6M2 scale of
    max/7, then greedy thresholds for the micro-exponents. */
module Baseline {
  import opened Sums
  import opened Rounding
  import opened HiF4
  import E6M2

  /** max |x| over a slice; 0 for an empty one. */
  function MaxAbs(w: seq<real>): (m: real)
    ensures 0.0 <= m
    ensures forall j :: 0 <= j < |w| ==> Abs(w[j]) <= m
  {
    if w == [] then 0.0 else MaxR(MaxAbs(w[..|w| - 1]), Abs(w[|w| - 1]))
  }

  /** The 1e-38 floor under the divisors. */
  const TINY := 1.0 / 100000000000000000000000000000000000000.0

  function SafeScale(w: seq<real>): (s: real)
    ensures s > 0.0
  {
    MaxR(E6M2.QuantizeScale(MaxAbs(w) / 7.0), E6M2.Pow2(-48))
  }

  function Times(k: real, d: real): real {
    k * d
  }

  // The greedy choices, against the divisor s.

  function Lv2(w: seq<real>, s: real, g: int): real
    requires |w| == BLK_SIZE && s > 0.0 && 0 <= g < 8
  {
    if MaxAbs(w[8 * g..8 * g + 8]) / s >= 4.0 then 2.0 else 1.0
  }

  function Lv3(w: seq<real>, s: real, h: int): real
    requires |w| == BLK_SIZE && s > 0.0 && 0 <= h < 16
  {
    if MaxAbs(w[4 * h..4 * h + 4]) / MaxR(Times(s, Lv2(w, s, h / 2)), TINY) >= 2.0 then 2.0 else 1.0
  }

  function Mantissa(w: seq<real>, s: real, j: int): real
    requires |w| == BLK_SIZE && s > 0.0 && 0 <= j < BLK_SIZE
  {
    Quarters(w[j], Divisor(s, Lv2(w, s, j / 8), Lv3(w, s, j / 4)))
  }

  function Divisor(s: real, a: real, b: real): (d: real)
    ensures d > 0.0
  {
    MaxR(Times(Times(s, a), b), TINY)
  }

  /** The magnitude of x in quarters of d, at most 7. */
  function Quarters(x: real, d: real): real
    requires d > 0.0
  {
    Clamp(RoundEven(Abs(x) * 4.0 / d), 0, 7) as real * 0.25
  }

  /** The block that stores sf and divides by s. */
  function Cast(w: seq<real>, sf: real, s: real): (e: Block)
    requires |w| == BLK_SIZE && s > 0.0
  {
    Block(sf,
          seq(8, g requires 0 <= g < 8 => Lv2(w, s, g)),
          seq(16, h requires 0 <= h < 16 => Lv3(w, s, h)),
          seq(BLK_SIZE, j requires 0 <= j < BLK_SIZE => Sign(w[j])),
          seq(BLK_SIZE, j requires 0 <= j < BLK_SIZE => Mantissa(w, s, j)))
  }

  /** `standard_hif4_quantize` on one block. */
  function StandardBlock(w: seq<real>): (e: Block)
    requires |w| == BLK_SIZE
  {
    Cast(w, if MaxAbs(w) > 0.0 then E6M2.QuantizeScale(MaxAbs(w) / 7.0) else E6M2.Pow2(-48), SafeScale(w))
  }

  lemma CastWellFormed(w: seq<real>, sf: real, s: real)
    requires |w| == BLK_SIZE && s > 0.0
    ensures WellFormed(Cast(w, sf, s))
  {
    forall j | 0 <= j < BLK_SIZE ensures IsMantissa(Mantissa(w, s, j)) {
      var d := Divisor(s, Lv2(w, s, j / 8), Lv3(w, s, j / 4));
      QuarterIsMantissa(Clamp(RoundEven(Abs(w[j]) * 4.0 / d), 0, 7));
    }
  }

  lemma StandardWellFormed(w: seq<real>)
    requires |w| == BLK_SIZE
    ensures WellFormed(StandardBlock(w))
  {
    CastWellFormed(w, StandardBlock(w).sf, SafeScale(w));
  }

  // ----- what the greedy choices mean -----

  /** A slice reaches x exactly when one of its elements does. */
  lemma {:induction false} MaxReaches(w: seq<real>, x: real)
    requires x > 0.0
    ensures MaxAbs(w) >= x <==> exists j :: 0 <= j < |w| && Abs(w[j]) >= x
  {
    if w != [] {
      var n := |w| - 1;
      MaxReaches(w[..n], x);
      if MaxAbs(w) >= x {
        if Abs(w[n]) < x {
          var j :| 0 <= j < n && Abs(w[..n][j]) >= x;
          assert Abs(w[j]) >= x;
        }
      }
    }
  }

  lemma SliceReaches(w: seq<real>, lo: int, hi: int, x: real)
    requires 0 <= lo <= hi <= |w| && x > 0.0
    ensures MaxAbs(w[lo..hi]) >= x <==> exists j :: lo <= j < hi && Abs(w[j]) >= x
  {
    MaxReaches(w[lo..hi], x);
    if MaxAbs(w[lo..hi]) >= x {
      var k :| 0 <= k < hi - lo && Abs(w[lo..hi][k]) >= x;
      assert Abs(w[lo + k]) >= x;
    }
    if j :| lo <= j < hi && Abs(w[j]) >= x {
      assert w[lo..hi][j - lo] == w[j];
    }
  }

  lemma RatioReaches(m: real, d: real, k: real)
    requires d > 0.0
    ensures m / d >= k <==> m >= Times(k, d)
  {
    assert m / d * d == m;
    if m / d >= k {
      MulMono(k, m / d, d);
    } else {
      StrictMulMono(m / d, k, d);
    }
  }

  lemma TimesPositive(k: real, d: real)
    requires k > 0.0 && d > 0.0
    ensures Times(k, d) > 0.0
  {}

  /** A group's exponent is doubled exactly when one of its eight elements reaches four times the scale. */
  lemma Lv2Means(w: seq<real>, s: real, g: int)
    requires |w| == BLK_SIZE && s > 0.0 && 0 <= g < 8
    ensures Lv2(w, s, g) == 2.0 <==> exists j :: 8 * g <= j < 8 * g + 8 && Abs(w[j]) >= Times(4.0, s)
  {
    TimesPositive(4.0, s);
    SliceReaches(w, 8 * g, 8 * g + 8, Times(4.0, s));
    RatioReaches(MaxAbs(w[8 * g..8 * g + 8]), s, 4.0);
  }

  /** The floor under the divisors never applies: scales are at least 2^-48. */
  lemma AboveTiny(s: real, a: real, b: real)
    requires s >= E6M2.Pow2(-48) && IsMicroExponent(a) && IsMicroExponent(b)
    ensures MaxR(Times(s, a), TINY) == Times(s, a) && Divisor(s, a, b) == Times(Times(s, a), b)
  {
    E6M2.SmallestScale();
    assert Times(s, a) >= s;
    assert Times(Times(s, a), b) >= Times(s, a);
  }

  /** A sub-group's exponent is doubled exactly when one of its four elements reaches twice the scale of
      its group. */
  lemma Lv3Means(w: seq<real>, s: real, h: int)
    requires |w| == BLK_SIZE && s >= E6M2.Pow2(-48) && 0 <= h < 16
    ensures Lv3(w, s, h) == 2.0 <==>
            exists j :: 4 * h <= j < 4 * h + 4 && Abs(w[j]) >= Times(2.0, Times(s, Lv2(w, s, h / 2)))
  {
    var d := Times(s, Lv2(w, s, h / 2));
    AboveTiny(s, Lv2(w, s, h / 2), 1.0);
    TimesPositive(s, Lv2(w, s, h / 2));
    TimesPositive(2.0, d);
    SliceReaches(w, 4 * h, 4 * h + 4, Times(2.0, d));
    RatioReaches(MaxAbs(w[4 * h..4 * h + 4]), d, 2.0);
  }

  /** Up to twice the total scale, the magnitude is off by at most a quarter of it. */
  lemma QuarterClose(x: real, d: real)
    requires d > 0.0 && Abs(x) <= Times(2.0, d)
    ensures Abs(Times(Quarters(x, d), d) - Abs(x)) <= Times(0.25, d)
  {
    var u := Abs(x) * 4.0 / d;
    assert u * d == Abs(x) * 4.0;
    EightQuarters(u, d, Abs(x));
    RoundNearest(u, 7);
    RoundNonNeg(u);
    var k := Clamp(RoundEven(u), 0, 7);
    ClampedRound(u);
    QuarterGap(u, k as real, d, Abs(x));
  }

  lemma EightQuarters(u: real, d: real, x: real)
    requires d > 0.0 && u * d == x * 4.0 && 0.0 <= x <= Times(2.0, d)
    ensures 0.0 <= u <= 8.0
  {
    if u > 8.0 {
      StrictMulMono(8.0, u, d);
    } else if u < 0.0 {
      StrictMulMono(u, 0.0, d);
    }
  }

  lemma ClampedRound(u: real)
    requires 0.0 <= u <= 8.0
    ensures -1.0 <= Clamp(RoundEven(u), 0, 7) as real - u <= 1.0
  {
    RoundNearest(u, 0);
  }

  lemma QuarterGap(u: real, k: real, d: real, x: real)
    requires d > 0.0 && u * d == x * 4.0 && -1.0 <= k - u <= 1.0
    ensures Abs(Times(k * 0.25, d) - x) <= Times(0.25, d)
  {
    var gap := k - u;
    UnitBound(gap, d);
    GapOfQuarters(gap, u, k, d, x);
    AbsQuarter(Times(gap, d), d);
  }

  lemma UnitBound(gap: real, d: real)
    requires d > 0.0 && -1.0 <= gap <= 1.0
    ensures -d <= Times(gap, d) <= d
  {
    AtMostUnit(gap, d);
    AtMostUnit(-gap, d);
    assert Times(-gap, d) == -Times(gap, d);
  }

  lemma AtMostUnit(gap: real, d: real)
    requires d > 0.0 && gap <= 1.0
    ensures Times(gap, d) <= d
  {
    var rest := 1.0 - gap;
    assert rest * d >= 0.0;
    assert (rest + gap) * d == rest * d + gap * d;
  }

  lemma GapOfQuarters(gap: real, u: real, k: real, d: real, x: real)
    requires k == u + gap && u * d == x * 4.0
    ensures Times(k * 0.25, d) - x == 0.25 * Times(gap, d)
  {
    assert k * d == u * d + gap * d;
    assert Times(k * 0.25, d) == 0.25 * (k * d);
  }

  lemma AbsQuarter(y: real, d: real)
    requires -d <= y <= d
    ensures Abs(0.25 * y) <= Times(0.25, d)
  {}

  /** The three exponents of the block Algorithm 1 emits, over its own scale. */
  lemma StandardExponents(w: seq<real>, g: int, h: int)
    requires |w| == BLK_SIZE && 0 <= g < 8 && 0 <= h < 16
    ensures var e := StandardBlock(w);
            && (e.lv2[g] == 2.0 <==> exists j :: 8 * g <= j < 8 * g + 8 && Abs(w[j]) >= Times(4.0, e.sf))
            && (e.lv3[h] == 2.0 <==> exists j :: 4 * h <= j < 4 * h + 4 && Abs(w[j]) >= Times(2.0, Times(e.sf, e.lv2[h / 2])))
  {
    var s := SafeScale(w);
    StandardScale(w);
    Lv2Means(w, s, g);
    Lv3Means(w, s, h);
  }

  /** The total scale of element j. */
  function TotalOf(w: seq<real>, s: real, j: int): real
    requires |w| == BLK_SIZE && s > 0.0 && 0 <= j < BLK_SIZE
  {
    Times(Times(s, Lv2(w, s, j / 8)), Lv3(w, s, j / 4))
  }

  /** No element up to seven times the scale exceeds twice its total scale. */
  lemma WithinTwice(x: real, s: real, a: real, b: real)
    requires s > 0.0 && IsMicroExponent(a) && IsMicroExponent(b) && 0.0 <= x <= Times(7.0, s)
    requires a == 1.0 ==> x < Times(4.0, s)
    requires b == 1.0 ==> x < Times(2.0, Times(s, a))
    ensures x <= Times(2.0, Times(Times(s, a), b))
  {}

  lemma TotalReaches(w: seq<real>, s: real, j: int)
    requires |w| == BLK_SIZE && s >= E6M2.Pow2(-48) && 0 <= j < BLK_SIZE && Abs(w[j]) <= Times(7.0, s)
    ensures TotalOf(w, s, j) > 0.0 && Abs(w[j]) <= Times(2.0, TotalOf(w, s, j))
    ensures Divisor(s, Lv2(w, s, j / 8), Lv3(w, s, j / 4)) == TotalOf(w, s, j)
  {
    var a, b := Lv2(w, s, j / 8), Lv3(w, s, j / 4);
    assert (j / 4) / 2 == j / 8;
    Lv2Means(w, s, j / 8);
    Lv3Means(w, s, j / 4);
    WithinTwice(Abs(w[j]), s, a, b);
    AboveTiny(s, a, b);
    TimesPositive(s, a);
    TimesPositive(Times(s, a), b);
  }

  lemma CastDecodes(w: seq<real>, s: real, j: int)
    requires |w| == BLK_SIZE && s >= E6M2.Pow2(-48) && 0 <= j < BLK_SIZE && Abs(w[j]) <= Times(7.0, s)
    ensures Abs(Dequant(Cast(w, s, s), j) - w[j]) <= Times(0.25, TotalOf(w, s, j))
  {
    var d := TotalOf(w, s, j);
    TotalReaches(w, s, j);
    TimesPositive(0.25, d);
    QuarterClose(w[j], d);
    SignedClose(w[j], Quarters(w[j], d), d);
    DequantIs(Cast(w, s, s), j, Quarters(w[j], d), d);
  }

  /** Algorithm 1 decodes every element of up to seven times its scale within a quarter of its total scale. */
  lemma StandardDecodes(w: seq<real>, j: int)
    requires |w| == BLK_SIZE && 0 <= j < BLK_SIZE
    ensures var e := StandardBlock(w);
            Abs(w[j]) <= Times(7.0, e.sf) ==>
              Abs(Dequant(e, j) - w[j]) <= Times(0.25, Times(Times(e.sf, e.lv2[j / 8]), e.lv3[j / 4]))
  {
    var s := SafeScale(w);
    StandardScale(w);
    if Abs(w[j]) <= Times(7.0, s) {
      CastDecodes(w, s, j);
    }
  }

  lemma SignedClose(x: real, q: real, d: real)
    requires Abs(Times(q, d) - Abs(x)) <= Times(0.25, d) && (x == 0.0 ==> Times(0.25, d) >= 0.0)
    ensures Abs(Times(Sign(x), Times(q, d)) - x) <= Times(0.25, d)
  {}

  lemma DequantIs(e: Block, j: int, q: real, d: real)
    requires At(e.mant, j) == q && d == Times(Times(e.sf, At(e.lv2, j / 8)), At(e.lv3, j / 4))
    ensures Dequant(e, j) == Times(At(e.sign, j), Times(q, d))
  {
    Rearranged(At(e.sign, j), q, At(e.lv3, j / 4), At(e.lv2, j / 8), e.sf);
  }

  lemma Rearranged(s: real, q: real, b: real, a: real, sf: real)
    ensures s * q * b * a * sf == Times(s, Times(q, Times(Times(sf, a), b)))
  {}

  lemma QuarterIsMantissa(k: int)
    requires 0 <= k <= 7
    ensures IsMantissa(k as real * 0.25)
  {
    assert k as real * 0.25 * 4.0 == k as real;
  }

  /** The table position of the baseline's scale: a neighbour of its target in the table. */
  function ScaleIndex(w: seq<real>): (r: nat)
    ensures r < E6M2.TABLE_SIZE
  {
    if MaxAbs(w) > 0.0 then E6M2.NearestIndex(MaxAbs(w) / 7.0) else 0
  }

  lemma StandardScale(w: seq<real>)
    requires |w| == BLK_SIZE
    ensures StandardBlock(w).sf == E6M2.Value(ScaleIndex(w)) == SafeScale(w)
  {
    var i := ScaleIndex(w);
    E6M2.TableEnds();
    if i > 0 {
      E6M2.StrictlyIncreasing(0, i);
    }
  }

  /** The target scale of the window search: max/7, at least 2^-48. */
  function Target(w: seq<real>): real {
    MaxR(MaxAbs(w) / 7.0, E6M2.Pow2(-48))
  }

  /** Both quantisers aim at the same table position, up to the clamping at the top of the table,
      so the baseline's scale is one of the two neighbours of that position. */
  lemma ScaleIndexIsNeighbour(w: seq<real>)
    ensures E6M2.IsNeighbour(E6M2.Position(Target(w)), ScaleIndex(w))
  {
    var t := Target(w);
    E6M2.TableEnds();
    E6M2.ClampedPosition(t);
    if t > 49152.0 {
      AboveTable(t);
    } else {
      assert E6M2.ClampScale(t) == t;
      if MaxAbs(w) == 0.0 {
        assert t == E6M2.Value(0);
        assert E6M2.Position(t) == 0;
      } else {
        assert E6M2.ClampScale(MaxAbs(w) / 7.0) == t;
      }
    }
  }

  lemma Topmost(t: real)
    requires t >= 49152.0
    ensures E6M2.Position(t) >= E6M2.TABLE_SIZE - 1
  {
    E6M2.TableEnds();
    var p := E6M2.Position(t);
    if p < 254 {
      E6M2.StrictlyIncreasing(p, 254);
    }
  }

  /** A target above the table: searchsorted returns its size, and the clamped value its last index. */
  lemma AboveTable(t: real)
    requires t > 49152.0
    ensures E6M2.Position(t) == E6M2.TABLE_SIZE
    ensures E6M2.Position(49152.0) == E6M2.TABLE_SIZE - 1
    ensures E6M2.NearestIndex(t) == E6M2.TABLE_SIZE - 1
  {
    E6M2.TableEnds();
    Topmost(t);
    Topmost(49152.0);
  }
}
