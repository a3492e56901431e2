/** For which candidate counts the search never loses to Algorithm 1, on any block: exactly the odd ones.
    Each even count has a block on which it loses. */
module CandidateCounts {
  import opened Sums
  import opened Rounding
  import opened HiF4
  import opened BlockSearch
  import opened Baseline
  import opened ScaleSearch
  import opened Doubling
  import E6M2

  // ----- exact and inexact encodings -----

  lemma ExactBlock(w: seq<real>, imp: Importance, e: Block)
    requires forall j :: 0 <= j < BLK_SIZE ==> Dequant(e, j) == At(w, j)
    ensures Err(w, imp, e) == 0.0
  {
    forall j | 0 <= j < BLK_SIZE ensures Loss(w, imp, Values(e))(j) == 0.0 {
      ExactTerm(w, imp, j, Dequant(e, j));
    }
    SumZero(BLK_SIZE, Loss(w, imp, Values(e)));
  }

  lemma ExactTerm(w: seq<real>, imp: Importance, j: int, v: real)
    requires v == At(w, j)
    ensures Term(w, imp, j, v) == 0.0
  {}

  /** Every value of an encoding is a multiple of sf/4, at most 28 of them. */
  lemma MultipleOfQuarter(e: Block, j: int) returns (k: int)
    requires WellFormed(e) && e.sf > 0.0 && 0 <= j < BLK_SIZE
    ensures -28 <= k <= 28 && Dequant(e, j) == Steps(k, e.sf)
  {
    var l := Exponent(e.lv2[j / 8]) + Exponent(e.lv3[j / 4]);
    var m := StepsOf(e, j, l, ScaleAt(e.sf, l));
    k := if l == 0 then m else if l == 1 then 2 * m else 4 * m;
    StepsAtLevel(m, l, e.sf, k);
  }

  lemma StepsAtLevel(m: int, l: int, sf: real, k: int)
    requires 0 <= l <= 2 && sf > 0.0 && k == (if l == 0 then m else if l == 1 then 2 * m else 4 * m)
    ensures Steps(m, ScaleAt(sf, l)) == Steps(k, sf)
  {}

  /** x is none of the values a legal element can have at scale sf. */
  ghost predicate Missed(x: real, sf: real) {
    forall k: int :: -28 <= k <= 28 ==> Steps(k, sf) != x
  }

  lemma PositiveSquare(x: real)
    requires x > 0.0
    ensures Sq(x) > 0.0
  {
    var y := 1.0 / x;
    assert y * x == 1.0;
    assert y * (x * x) == x;
  }

  lemma NonZeroSquare(x: real)
    requires x != 0.0
    ensures Sq(x) > 0.0
  {
    if x > 0.0 {
      PositiveSquare(x);
    } else {
      PositiveSquare(-x);
      assert Sq(-x) == Sq(x);
    }
  }

  lemma {:induction false} SumPositive(n: nat, f: int -> real, j: int)
    requires 0 <= j < n && 0.0 < f(j) && forall i :: 0 <= i < n ==> 0.0 <= f(i)
    ensures 0.0 < Sum(n, f)
  {
    if j < n - 1 {
      SumPositive(n - 1, f, j);
    } else {
      SumNonNeg(n - 1, f);
    }
  }

  lemma MissedTerm(w: seq<real>, e: Block, j: int)
    requires |w| == BLK_SIZE && WellFormed(e) && e.sf > 0.0 && 0 <= j < BLK_SIZE && Missed(w[j], e.sf)
    ensures 0.0 < Term(w, Uniform, j, Dequant(e, j))
  {
    var k := MultipleOfQuarter(e, j);
    assert Dequant(e, j) != w[j];
    OffTerm(w, j, Dequant(e, j));
  }

  lemma OffTerm(w: seq<real>, j: int, v: real)
    requires v != At(w, j)
    ensures 0.0 < Term(w, Uniform, j, v)
  {
    NonZeroSquare(v - At(w, j));
  }

  /** A scale that misses one element loses. */
  lemma MissLoses(w: seq<real>, e: Block, j: int)
    requires |w| == BLK_SIZE && WellFormed(e) && e.sf > 0.0 && 0 <= j < BLK_SIZE && Missed(w[j], e.sf)
    ensures 0.0 < Err(w, Uniform, e)
  {
    MissedTerm(w, e, j);
    var f := Loss(w, Uniform, Values(e));
    forall i | 0 <= i < BLK_SIZE ensures 0.0 <= f(i) {
      TermNonNeg(w, Uniform, i, Dequant(e, i));
    }
    SumPositive(BLK_SIZE, f, j);
  }

  /** If every candidate scale misses an element, the search loses. */
  lemma SearchLoses(w: seq<real>, n: int)
    requires |w| == BLK_SIZE && 2 <= n
    requires forall r :: 0 <= r < E6M2.TABLE_SIZE && E6M2.InWindow(E6M2.Position(Target(w)), n, r) ==>
               exists j :: 0 <= j < BLK_SIZE && Missed(w[j], E6M2.Value(r))
    ensures 0.0 < Err(w, Uniform, SearchBlock(w, Uniform, n))
  {
    var e := SearchBlock(w, Uniform, n);
    SearchBlockWellFormed(w, Uniform, n);
    var r := E6M2.CandidatePosition(Target(w), n, e.sf);
    var j :| 0 <= j < BLK_SIZE && Missed(w[j], E6M2.Value(r));
    MissLoses(w, e, j);
  }

  /** A smaller scale cannot reach seven times a larger one. */
  lemma OutOfReach(v: real, sf: real)
    requires 0.0 < sf < v
    ensures Missed(Seven(v), sf)
  {
    forall k: int | -28 <= k <= 28 ensures Steps(k, sf) != Seven(v) {
      AtMostSeven(k, sf);
    }
  }

  lemma AtMostSeven(k: int, sf: real)
    requires k <= 28 && sf > 0.0
    ensures Steps(k, sf) <= 7.0 * sf
  {
    MulMono(k as real / 4.0, 7.0, sf);
  }

  // ----- constant blocks of seven times a scale -----

  function Seven(v: real): real {
    7.0 * v
  }

  function SevenBlock(v: real): (w: seq<real>)
    ensures |w| == BLK_SIZE && forall j :: 0 <= j < BLK_SIZE ==> w[j] == Seven(v)
  {
    seq(BLK_SIZE, _ => Seven(v))
  }

  /** The maximum of non-negative values is the first one, if none exceeds it. */
  lemma {:induction false} MaxIsFirst(w: seq<real>, v: real)
    requires w != [] && w[0] == v && forall j :: 0 <= j < |w| ==> 0.0 <= w[j] <= v
    ensures MaxAbs(w) == v
  {
    if |w| > 1 {
      MaxIsFirst(w[..|w| - 1], v);
    }
  }

  lemma SliceMax(v: real, lo: int, hi: int)
    requires v > 0.0 && 0 <= lo < hi <= BLK_SIZE
    ensures MaxAbs(SevenBlock(v)[lo..hi]) == Seven(v)
  {
    MaxIsFirst(SevenBlock(v)[lo..hi], Seven(v));
  }

  lemma Sevenths(v: real)
    requires v > 0.0
    ensures Seven(v) / v == 7.0 && Seven(v) / 7.0 == v
  {}

  lemma SevenLv2(v: real, g: int)
    requires v > 0.0 && 0 <= g < 8
    ensures Lv2(SevenBlock(v), v, g) == 2.0
  {
    SliceMax(v, 8 * g, 8 * g + 8);
    Sevenths(v);
  }

  lemma Halves(v: real)
    requires v >= E6M2.Pow2(-48)
    ensures Seven(v) / MaxR(v * 2.0, TINY) == 3.5
  {
    E6M2.SmallestScale();
    assert MaxR(v * 2.0, TINY) == v * 2.0;
  }

  lemma SevenLv3(v: real, h: int)
    requires v >= E6M2.Pow2(-48) && 0 <= h < 16
    ensures Lv3(SevenBlock(v), v, h) == 2.0
  {
    SevenLv2(v, h / 2);
    SliceMax(v, 4 * h, 4 * h + 4);
    Halves(v);
  }

  lemma SevenQuarters(v: real)
    requires v >= E6M2.Pow2(-48)
    ensures Quarters(Seven(v), Divisor(v, 2.0, 2.0)) == 1.75
  {
    E6M2.SmallestScale();
    assert Divisor(v, 2.0, 2.0) == v * 4.0;
    assert Seven(v) * 4.0 / (v * 4.0) == 7.0;
    RoundOfInt(7);
  }

  lemma SevenMantissa(v: real, j: int)
    requires v >= E6M2.Pow2(-48) && 0 <= j < BLK_SIZE
    ensures Mantissa(SevenBlock(v), v, j) == 1.75
  {
    SevenLv2(v, j / 8);
    SevenLv3(v, j / 4);
    SevenQuarters(v);
  }

  lemma SevenDequant(v: real, e: Block, j: int)
    requires At(e.sign, j) == 1.0 && At(e.mant, j) == 1.75 && At(e.lv3, j / 4) == 2.0 && At(e.lv2, j / 8) == 2.0 && e.sf == v
    ensures Dequant(e, j) == Seven(v)
  {
    SevenProduct(At(e.sign, j), At(e.mant, j), At(e.lv3, j / 4), At(e.lv2, j / 8), v);
  }

  lemma SevenProduct(s: real, m: real, b: real, a: real, v: real)
    requires s == 1.0 && m == 1.75 && b == 2.0 && a == 2.0
    ensures s * m * b * a * v == Seven(v)
  {
    assert s * m == 1.75;
    assert s * m * b == 3.5;
    assert s * m * b * a == 7.0;
  }

  lemma SevenIsExact(v: real)
    requires v >= E6M2.Pow2(-48)
    ensures Err(SevenBlock(v), Uniform, Cast(SevenBlock(v), v, v)) == 0.0
  {
    var w, e := SevenBlock(v), Cast(SevenBlock(v), v, v);
    forall j | 0 <= j < BLK_SIZE ensures Dequant(e, j) == At(w, j) {
      SevenLv2(v, j / 8);
      SevenLv3(v, j / 4);
      SevenMantissa(v, j);
      SevenDequant(v, e, j);
    }
    ExactBlock(w, Uniform, e);
  }

  /** Algorithm 1 encodes seven times a table entry exactly, at that entry. */
  lemma BaselineIsExact(i: nat)
    requires i < E6M2.TABLE_SIZE
    ensures var w := SevenBlock(E6M2.Value(i));
            E6M2.Position(Target(w)) == i && ScaleIndex(w) == i && Err(w, Uniform, StandardBlock(w)) == 0.0
  {
    var v := E6M2.Value(i);
    SevenScale(i);
    E6M2.TableEnds();
    if i > 0 {
      E6M2.StrictlyIncreasing(0, i);
    }
    SevenIsExact(v);
  }

  lemma SevenScale(i: nat)
    requires i < E6M2.TABLE_SIZE
    ensures var w := SevenBlock(E6M2.Value(i));
            && E6M2.Position(Target(w)) == i && ScaleIndex(w) == i
            && StandardBlock(w) == Cast(w, E6M2.Value(i), E6M2.Value(i))
  {
    var v := E6M2.Value(i);
    MaxIsFirst(SevenBlock(v), Seven(v));
    Sevenths(v);
    E6M2.EntryPosition(i);
    E6M2.TableEnds();
    if i > 0 {
      E6M2.StrictlyIncreasing(0, i);
    }
    StandardScale(SevenBlock(v));
  }

  // ----- counts that lose to Algorithm 1 -----

  /** An even count of six and more never reaches the largest entry, and loses on seven times it. */
  lemma EvenCountLoses(n: int)
    requires 6 <= n && n % 2 == 0
    ensures 0.0 < Err(SevenBlock(E6M2.Value(254)), Uniform, SearchBlock(SevenBlock(E6M2.Value(254)), Uniform, n))
  {
    var v := E6M2.Value(254);
    var w := SevenBlock(v);
    BaselineIsExact(254);
    forall r | 0 <= r < E6M2.TABLE_SIZE && E6M2.InWindow(254, n, r) ensures Missed(w[0], E6M2.Value(r)) {
      E6M2.NeighbourInWindow(254, n, 254);
      E6M2.StrictlyIncreasing(r, 254);
      OutOfReach(v, E6M2.Value(r));
    }
    SearchLoses(w, n);
  }

  /** The largest entries. */
  lemma LargestEntries()
    ensures E6M2.Value(249) == 20480.0 && E6M2.Value(250) == 24576.0 && E6M2.Value(251) == 28672.0
    ensures E6M2.Value(252) == 32768.0 && E6M2.Value(253) == 40960.0 && E6M2.Value(254) == 49152.0
  {
    assert E6M2.Pow2(14) == 16384.0;
    assert E6M2.Pow2(15) == 32768.0;
  }

  /** Four candidates lose on seven times the last entry but one: they search 251, 252 and 254. */
  lemma FourLose()
    ensures 0.0 < Err(SevenBlock(E6M2.Value(253)), Uniform, SearchBlock(SevenBlock(E6M2.Value(253)), Uniform, 4))
  {
    var v := E6M2.Value(253);
    var w := SevenBlock(v);
    BaselineIsExact(253);
    forall r | 0 <= r < E6M2.TABLE_SIZE && E6M2.InWindow(253, 4, r) ensures Missed(w[0], E6M2.Value(r)) {
      E6M2.SmallWindow(253, 4, r);
      if r < 253 {
        E6M2.StrictlyIncreasing(r, 253);
        OutOfReach(v, E6M2.Value(r));
      } else {
        LargestEntries();
        NotAThird();
      }
    }
    SearchLoses(w, 4);
  }

  lemma NotAThird()
    ensures Missed(Seven(40960.0), 49152.0)
  {
    forall k: int | -28 <= k <= 28 ensures Steps(k, 49152.0) != Seven(40960.0) {
      assert 3 * k != 70;
    }
  }

  /** Two candidates lose on seven times the smallest entry: they search 1 and 5. */
  lemma TwoLose()
    ensures 0.0 < Err(SevenBlock(E6M2.Value(0)), Uniform, SearchBlock(SevenBlock(E6M2.Value(0)), Uniform, 2))
  {
    var u := E6M2.Value(0);
    var w := SevenBlock(u);
    BaselineIsExact(0);
    forall r | 0 <= r < E6M2.TABLE_SIZE && E6M2.InWindow(0, 2, r) ensures Missed(w[0], E6M2.Value(r)) {
      E6M2.SmallWindow(0, 2, r);
      SmallestEntries();
      NotAFifth(u, E6M2.Value(r));
    }
    SearchLoses(w, 2);
  }

  lemma SmallestEntries()
    ensures E6M2.Value(1) == E6M2.Value(0) * 1.25 && E6M2.Value(5) == E6M2.Value(0) * 2.5
  {
    E6M2.FourUpDoubles(1);
  }

  lemma NotAFifth(u: real, s: real)
    requires u > 0.0 && (s == u * 1.25 || s == u * 2.5)
    ensures Missed(Seven(u), s)
  {
    forall k: int | -28 <= k <= 28 ensures Steps(k, s) != Seven(u) {
      var c := if s == u * 1.25 then k as real * 0.3125 else k as real * 0.625;
      assert c != 7.0;
      DifferentMultiples(c, 7.0, u);
      assert Steps(k, s) == c * u;
    }
  }

  lemma DifferentMultiples(a: real, b: real, u: real)
    requires a != b && u > 0.0
    ensures a * u != b * u
  {
    assert a * u / u == a && b * u / u == b;
  }

  /** The block on which a count that is not odd loses. */
  function LosingBlock(n: int): seq<real> {
    SevenBlock(E6M2.Value(if n == 2 then 0 else if n == 4 then 253 else 254))
  }

  ghost predicate HoldsBaseline(w: seq<real>, imp: Importance, n: int)
    requires |w| == BLK_SIZE && 2 <= n
  {
    Err(w, imp, SearchBlock(w, imp, n)) <= Err(w, imp, StandardBlock(w))
  }

  /** The search never loses to Algorithm 1, on any block with any weights, exactly when the count is odd. */
  lemma BaselineHoldsExactly(n: int)
    requires 2 <= n
    ensures (forall w: seq<real>, imp :: |w| == BLK_SIZE && ValidImportance(imp) ==> HoldsBaseline(w, imp, n)) <==> n % 2 == 1
  {
    if n % 2 == 1 {
      forall w: seq<real>, imp | |w| == BLK_SIZE && ValidImportance(imp) ensures HoldsBaseline(w, imp, n) {
        NeverWorseThanBaseline(w, imp, n);
      }
    } else {
      LosesToBaseline(n);
    }
  }

  lemma LosesToBaseline(n: int)
    requires 2 <= n && n % 2 == 0
    ensures |LosingBlock(n)| == BLK_SIZE && !HoldsBaseline(LosingBlock(n), Uniform, n)
  {
    if n == 2 {
      TwoLose();
      BaselineIsExact(0);
    } else if n == 4 {
      FourLose();
      BaselineIsExact(253);
    } else {
      EvenCountLoses(n);
      BaselineIsExact(254);
    }
  }
}
