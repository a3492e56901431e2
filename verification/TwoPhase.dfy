/** The two-phase quantiser: phase 1 only scores the candidate scales, phase 2 rebuilds the
    parameters of the winner. */
module TwoPhase {
  import opened Sums
  import opened Rounding
  import opened HiF4
  import opened MicroExponents
  import opened BlockSearch
  import opened Baseline
  import opened ScaleSearch
  import opened TensorQuantizer
  import E6M2

  // ----- the computation -----

  /** `sf.clamp(min = 1e-38)`. */
  function Floored(sf: real): (d: real)
    requires sf > 0.0
    ensures d > 0.0
  {
    MaxR(sf, TINY)
  }

  /** The value of element j rounded by magnitude at scale d, with its sign restored. */
  function Reconstructed(x: real, d: real): real
    requires d > 0.0
  {
    Sign(x) * Quarters(x, d) * d
  }

  /** The element errors at divisors 1, 2 and 4. */
  function Errs(w: seq<real>, imp: Importance, sf: real): Losses
    requires sf > 0.0
  {
    (l, j) => Term(w, imp, j, Reconstructed(At(w, j), ScaleAt(Floored(sf), l)))
  }

  /** e1, e2 and e4: sums over sub-groups, with or without weights. */
  function SubErrs(w: seq<real>, imp: Importance, sf: real): Losses
    requires sf > 0.0
  {
    SubMse(Errs(w, imp, sf), false)
  }

  function GroupTotals(m: Losses): int -> real {
    g => MinR(GroupMse(m, 0, g), GroupMse(m, 1, g))
  }

  /** The phase-1 score of a candidate scale; an all-zero block always scores 0. */
  function Score(w: seq<real>, imp: Importance, sf: real): real
    requires sf > 0.0
  {
    if MaxAbs(w) > 0.0 then Sum(8, GroupTotals(SubErrs(w, imp, sf))) else 0.0
  }

  /** The divisor phase 2 selects for sub-group h. */
  function DChosen(m: Losses, h: int): int {
    if UseLv2(m, h / 2) then (if m(2, h) < m(1, h) then 4 else 2)
    else (if m(1, h) < m(0, h) then 2 else 1)
  }

  function Lv2Of(doubled: bool): real {
    if doubled then 2.0 else 1.0
  }

  /** The level-3 exponent, from the divisor and the level-2 exponent. */
  function Lv3Of(d: int, doubled: bool): real {
    if d == 1 then 1.0
    else if d == 4 then 2.0
    else if doubled then 1.0 else 2.0
  }

  /** Phase 2: the parameters of a block at scale sf, for level-2 choices a and divisors d. */
  function Rebuild(w: seq<real>, sf: real, a: int -> bool, d: int -> int): Block
    requires sf > 0.0
  {
    Block(sf,
          seq(8, g => Lv2Of(a(g))),
          seq(16, h => Lv3Of(d(h), a(h / 2))),
          seq(BLK_SIZE, j => Sign(At(w, j))),
          seq(BLK_SIZE, j => Quarters(At(w, j), ScaleAt(Floored(sf), KeyLevel(d(j / 4))))))
  }

  function Lv2Choice(m: Losses): int -> bool {
    g => UseLv2(m, g)
  }

  function DChoice(m: Losses): int -> int {
    h => DChosen(m, h)
  }

  /** The rounding whose mantissas are stored under divisor d. */
  function KeyLevel(d: int): int {
    if d == 1 then 0 else if d == 2 then 1 else 2
  }

  /** The window of num candidates around the clamped max/7. */
  function ShiftedWindow(w: seq<real>, num: int): (cs: seq<real>)
    requires 1 <= num <= E6M2.TABLE_SIZE
    ensures |cs| == num && forall c :: 0 <= c < num ==> cs[c] > 0.0
  {
    E6M2.ShiftedCandidates(E6M2.ClampScale(MaxAbs(w) / 7.0), num)
  }

  function Scores(w: seq<real>, imp: Importance, cs: seq<real>): (r: seq<real>)
    requires forall c :: 0 <= c < |cs| ==> cs[c] > 0.0
    ensures |r| == |cs|
  {
    seq(|cs|, c requires 0 <= c < |cs| => Score(w, imp, cs[c]))
  }

  /** The block that phase 2 emits for scale sf, after the fix-up of all-zero blocks. */
  function Emit(w: seq<real>, imp: Importance, sf: real): Block
    requires sf > 0.0
  {
    var m := SubErrs(w, imp, sf);
    var e := Rebuild(w, sf, Lv2Choice(m), DChoice(m));
    if MaxAbs(w) > 0.0 then e else e.(sf := E6M2.Pow2(-48))
  }

  /** Phase 1 over all blocks: the running best score and its candidate number. */
  method ScoreLoop(scores: seq<seq<real>>, num: int) returns (bestErr: seq<Bound>, bestK: seq<nat>)
    requires 1 <= num && forall b :: 0 <= b < |scores| ==> |scores[b]| == num
    ensures |bestErr| == |bestK| == |scores|
    ensures forall b :: 0 <= b < |scores| ==>
              bestK[b] == FirstMin(scores[b], num) && bestErr[b] == Finite(scores[b][bestK[b]])
  {
    var total := |scores|;
    bestErr := seq(total, _ => Infinite);
    bestK := seq(total, _ => 0);
    for k := 0 to num
      invariant |bestErr| == |bestK| == total
      invariant k == 0 ==> forall b :: 0 <= b < total ==> bestErr[b].Infinite?
      invariant k > 0 ==> forall b :: 0 <= b < total ==>
                  bestK[b] == FirstMin(scores[b], k) && bestErr[b] == Finite(scores[b][bestK[b]])
    {
      var better := seq(total, b requires 0 <= b < total => Below(scores[b][k], bestErr[b]));
      bestErr := Where(better, seq(total, b requires 0 <= b < total => Finite(scores[b][k])), bestErr);
      bestK := Where(better, seq(total, _ => k), bestK);
    }
  }

  // ----- what it guarantees -----

  /** The two micro-exponents always multiply to the chosen divisor, which names the kept rounding. */
  lemma ExponentsMatchDivisor(m: Losses, h: int)
    ensures Lv2Of(UseLv2(m, h / 2)) * Lv3Of(DChosen(m, h), UseLv2(m, h / 2)) == DChosen(m, h) as real
    ensures KeyLevel(DChosen(m, h)) == Level(m, h)
  {}

  lemma RebuildWellFormed(w: seq<real>, sf: real, a: int -> bool, d: int -> int)
    requires sf > 0.0
    ensures WellFormed(Rebuild(w, sf, a, d))
  {
    var e := Rebuild(w, sf, a, d);
    assert forall g :: 0 <= g < 8 ==> e.lv2[g] == Lv2Of(a(g));
    assert forall h :: 0 <= h < 16 ==> e.lv3[h] == Lv3Of(d(h), a(h / 2));
    forall j | 0 <= j < BLK_SIZE ensures IsMantissa(e.mant[j]) && IsSign(e.sign[j]) {
      QuarterIsMantissa(Clamp(RoundEven(Abs(At(w, j)) * 4.0 / ScaleAt(Floored(sf), KeyLevel(d(j / 4)))), 0, 7));
    }
  }

  /** On table scales the 1e-38 floor does nothing. */
  lemma FloorIsNoOp(sf: real)
    requires sf >= E6M2.Pow2(-48)
    ensures Floored(sf) == sf
  {
    E6M2.SmallestScale();
  }

  /** Rounding magnitudes and restoring signs loses what signed rounding loses. */
  lemma ErrsAreLosses(w: seq<real>, imp: Importance, sf: real, l: int, j: int)
    requires sf > 0.0 && Floored(sf) == sf
    ensures Errs(w, imp, sf)(l, j) == LossTable(w, imp, sf)(l, j)
  {
    ReconstructedIsSnap(At(w, j), ScaleAt(sf, l));
  }

  lemma ReconstructedIsSnap(x: real, d: real)
    requires d > 0.0
    ensures Reconstructed(x, d) == Snap(x, d)
  {
    SnapSignMagnitude(x, d);
  }

  /** The rebuilt element is the one whose error phase 1 counted. */
  lemma RebuildElement(w: seq<real>, imp: Importance, m: Losses, sf: real, j: int)
    requires sf > 0.0 && Floored(sf) == sf && 0 <= j < BLK_SIZE
    ensures Loss(w, imp, Values(Rebuild(w, sf, Lv2Choice(m), DChoice(m))))(j) == Kept(Errs(w, imp, sf), m)(j)
  {
    ExponentsMatchDivisor(m, j / 4);
    assert (j / 4) / 2 == j / 8;
    RebuildDequant(w, sf, Lv2Choice(m), DChoice(m), UseLv3(m, j / 4), j);
  }

  lemma RebuildDequant(w: seq<real>, sf: real, a: int -> bool, d: int -> int, b: bool, j: int)
    requires sf > 0.0 && Floored(sf) == sf && 0 <= j < BLK_SIZE
    requires d(j / 4) == DivisorKey(a(j / 8), b)
    ensures Dequant(Rebuild(w, sf, a, d), j) == Reconstructed(At(w, j), Scale2(sf, a(j / 8), b))
  {
    RebuildParts(w, sf, a, d, j);
    PartsToDequant(Rebuild(w, sf, a, d), At(w, j), a(j / 8), b, sf, j);
  }

  lemma PartsToDequant(e: Block, x: real, a: bool, b: bool, sf: real, j: int)
    requires sf > 0.0 && e.sf == sf
    requires At(e.sign, j) == Sign(x) && At(e.mant, j) == Quarters(x, Scale2(sf, a, b))
    requires At(e.lv3, j / 4) == Lv3Of(DivisorKey(a, b), a) && At(e.lv2, j / 8) == Lv2Of(a)
    ensures Dequant(e, j) == Reconstructed(x, Scale2(sf, a, b))
  {
    PartsToValue(x, a, b, sf, At(e.sign, j), At(e.mant, j), At(e.lv3, j / 4), At(e.lv2, j / 8));
  }

  function DivisorKey(a: bool, b: bool): int {
    if a && b then 4 else if a || b then 2 else 1
  }

  lemma PartsToValue(x: real, a: bool, b: bool, sf: real, s: real, q: real, l3: real, l2: real)
    requires sf > 0.0
    requires s == Sign(x) && q == Quarters(x, Scale2(sf, a, b))
    requires l3 == Lv3Of(DivisorKey(a, b), a) && l2 == Lv2Of(a)
    ensures s * q * l3 * l2 * sf == Reconstructed(x, Scale2(sf, a, b))
  {
    ProductOfExponents(s * q, a, b, sf);
  }

  lemma ProductOfExponents(p: real, a: bool, b: bool, sf: real)
    requires sf > 0.0
    ensures p * Lv3Of(DivisorKey(a, b), a) * Lv2Of(a) * sf == p * Scale2(sf, a, b)
  {}

  lemma RebuildParts(w: seq<real>, sf: real, a: int -> bool, d: int -> int, j: int)
    requires sf > 0.0 && 0 <= j < BLK_SIZE
    ensures var e := Rebuild(w, sf, a, d);
            && At(e.sign, j) == Sign(At(w, j)) && At(e.lv2, j / 8) == Lv2Of(a(j / 8))
            && At(e.mant, j) == Quarters(At(w, j), ScaleAt(Floored(sf), KeyLevel(d(j / 4))))
            && At(e.lv3, j / 4) == Lv3Of(d(j / 4), a(j / 8))
  {
    assert (j / 4) / 2 == j / 8;
  }

  /** The kept losses of a block sum to the phase-1 total. */
  lemma TotalOfKept(loss: Losses, m: Losses)
    requires Summarises(m, loss, false)
    ensures Sum(64, Kept(loss, m)) == Sum(8, GroupTotals(m))
  {
    forall g | 0 <= g < 8 ensures GroupSum(2, 4, Kept(loss, m))(g) == GroupTotals(m)(g) {
      GroupTotalOfKept(loss, m, g);
    }
    BlockOfGroups(Kept(loss, m), GroupTotals(m));
  }

  lemma BlockOfGroups(f: int -> real, totals: int -> real)
    requires forall g :: 0 <= g < 8 ==> GroupSum(2, 4, f)(g) == totals(g)
    ensures Sum(64, f) == Sum(8, totals)
  {
    SumByRuns(8, 2, 4, f);
    SumCong(8, GroupSum(2, 4, f), totals);
  }

  lemma GroupTotalOfKept(loss: Losses, m: Losses, g: int)
    requires Summarises(m, loss, false)
    ensures GroupSum(2, 4, Kept(loss, m))(g) == GroupTotals(m)(g)
  {
    GroupOfTwo(Kept(loss, m), g);
    KeptRun(loss, m, g * 2);
    KeptRun(loss, m, g * 2 + 1);
    GroupAttained(m, g);
  }

  lemma RebuildErr(w: seq<real>, imp: Importance, m: Losses, sf: real)
    requires sf > 0.0 && Floored(sf) == sf && Summarises(m, Errs(w, imp, sf), false)
    ensures Err(w, imp, Rebuild(w, sf, Lv2Choice(m), DChoice(m))) == Sum(8, GroupTotals(m))
  {
    var e := Rebuild(w, sf, Lv2Choice(m), DChoice(m));
    forall j | 0 <= j < BLK_SIZE ensures Loss(w, imp, Values(e))(j) == Kept(Errs(w, imp, sf), m)(j) {
      RebuildElement(w, imp, m, sf, j);
    }
    SumCong(BLK_SIZE, Loss(w, imp, Values(e)), Kept(Errs(w, imp, sf), m));
    TotalOfKept(Errs(w, imp, sf), m);
  }

  lemma ZeroErr(w: seq<real>, imp: Importance, e: Block)
    requires |w| == BLK_SIZE && MaxAbs(w) == 0.0
    requires forall j :: 0 <= j < BLK_SIZE ==> At(e.sign, j) == 0.0
    ensures Err(w, imp, e) == 0.0
  {
    forall j | 0 <= j < BLK_SIZE ensures Loss(w, imp, Values(e))(j) == 0.0 {
      assert Abs(w[j]) <= 0.0;
      ZeroTerm(w, imp, e, j);
    }
    SumZero(BLK_SIZE, Loss(w, imp, Values(e)));
  }

  lemma ZeroTerm(w: seq<real>, imp: Importance, e: Block, j: int)
    requires At(w, j) == 0.0 && At(e.sign, j) == 0.0
    ensures Term(w, imp, j, Dequant(e, j)) == 0.0
  {
    assert Dequant(e, j) == 0.0;
  }

  /** Phase 2 honours phase 1: the emitted parameters have exactly the error that was scored. */
  lemma EmittedErrIsScore(w: seq<real>, imp: Importance, sf: real)
    requires |w| == BLK_SIZE && sf >= E6M2.Pow2(-48)
    ensures Err(w, imp, Emit(w, imp, sf)) == Score(w, imp, sf)
  {
    FloorIsNoOp(sf);
    if MaxAbs(w) > 0.0 {
      RebuildErr(w, imp, SubErrs(w, imp, sf), sf);
    } else {
      ZeroBlock(w, imp, sf);
    }
  }

  lemma ZeroBlock(w: seq<real>, imp: Importance, sf: real)
    requires |w| == BLK_SIZE && sf > 0.0 && MaxAbs(w) == 0.0
    ensures Err(w, imp, Emit(w, imp, sf)) == 0.0
  {
    var m := SubErrs(w, imp, sf);
    SignsOfZeros(w, sf, Lv2Choice(m), DChoice(m));
    ZeroErr(w, imp, Emit(w, imp, sf));
  }

  lemma SignsOfZeros(w: seq<real>, sf: real, a: int -> bool, d: int -> int)
    requires |w| == BLK_SIZE && sf > 0.0 && MaxAbs(w) == 0.0
    ensures forall j :: 0 <= j < BLK_SIZE ==> At(Rebuild(w, sf, a, d).sign, j) == 0.0
  {
    assert forall j :: 0 <= j < BLK_SIZE ==> Abs(w[j]) <= 0.0;
  }

  /** No legal encoding at the same scale has a smaller error than the score. */
  lemma ScoreIsOptimal(w: seq<real>, imp: Importance, e: Block)
    requires |w| == BLK_SIZE && ValidImportance(imp) && WellFormed(e) && e.sf >= E6M2.Pow2(-48)
    ensures Score(w, imp, e.sf) <= Err(w, imp, e)
  {
    if MaxAbs(w) > 0.0 {
      FloorIsNoOp(e.sf);
      var loss, m := LossTable(w, imp, e.sf), SubErrs(w, imp, e.sf);
      SummaryOfLosses(w, imp, e.sf);
      BeatsEncoding(w, imp, e, loss, false, m);
      TotalOfKept(loss, m);
    } else {
      ErrNonNeg(w, imp, Values(e));
    }
  }

  lemma SummaryOfLosses(w: seq<real>, imp: Importance, sf: real)
    requires sf > 0.0 && Floored(sf) == sf
    ensures Summarises(SubErrs(w, imp, sf), LossTable(w, imp, sf), false)
  {
    var f, g := Errs(w, imp, sf), LossTable(w, imp, sf);
    forall l, h ensures RunSum(4, Row(f, l), h) == RunSum(4, Row(g, l), h) {
      forall j | h * 4 <= j < h * 4 + 4 ensures Row(f, l)(j) == Row(g, l)(j) {
        ErrsAreLosses(w, imp, sf, l, j);
      }
      RunCong(4, Row(f, l), Row(g, l), h);
    }
  }

  /** At equal scale the two-phase and the single-pass searches lose exactly the same. */
  lemma SameErrAsSinglePass(w: seq<real>, imp: Importance, sf: real)
    requires |w| == BLK_SIZE && ValidImportance(imp) && sf >= E6M2.Pow2(-48)
    ensures Err(w, imp, Emit(w, imp, sf)) == Err(w, imp, QuantizeGivenScale(w, imp, sf))
  {
    EmittedErrIsScore(w, imp, sf);
    if MaxAbs(w) > 0.0 {
      ScoreBelowSinglePass(w, imp, sf);
      var m := SubErrs(w, imp, sf);
      RebuildWellFormed(w, sf, Lv2Choice(m), DChoice(m));
      SearchIsOptimal(w, imp, Emit(w, imp, sf));
    } else {
      SinglePassOfZeros(w, imp, sf);
    }
  }

  lemma SinglePassOfZeros(w: seq<real>, imp: Importance, sf: real)
    requires |w| == BLK_SIZE && sf > 0.0 && MaxAbs(w) == 0.0
    ensures Err(w, imp, QuantizeGivenScale(w, imp, sf)) == 0.0
  {
    var m := MseTable(w, imp, sf);
    EncodedZeros(w, sf, g => UseLv2(m, g), h => UseLv3(m, h));
    ZeroErr(w, imp, QuantizeGivenScale(w, imp, sf));
  }

  lemma EncodedZeros(w: seq<real>, sf: real, a: int -> bool, b: int -> bool)
    requires |w| == BLK_SIZE && sf > 0.0 && MaxAbs(w) == 0.0
    ensures forall j :: 0 <= j < BLK_SIZE ==> At(Encode(w, sf, a, b).sign, j) == 0.0
  {
    forall j | 0 <= j < BLK_SIZE ensures At(Encode(w, sf, a, b).sign, j) == 0.0 {
      assert Abs(w[j]) <= 0.0;
      SnapOfZero(Scale2(sf, a(j / 8), b(j / 4)));
    }
  }

  lemma SnapOfZero(s: real)
    requires s > 0.0
    ensures SnapQ(0.0, s) == 0.0
  {
    RoundOfInt(0);
  }

  lemma ScoreBelowSinglePass(w: seq<real>, imp: Importance, sf: real)
    requires |w| == BLK_SIZE && ValidImportance(imp) && sf >= E6M2.Pow2(-48)
    ensures Score(w, imp, sf) <= Err(w, imp, QuantizeGivenScale(w, imp, sf))
  {
    var m := MseTable(w, imp, sf);
    EncodeWellFormed(w, sf, g => UseLv2(m, g), h => UseLv3(m, h));
    ScoreIsOptimal(w, imp, QuantizeGivenScale(w, imp, sf));
  }

  // ----- the winner -----

  /** Every candidate is a table entry, hence at least 2^-48. */
  lemma WindowInTable(w: seq<real>, num: int, c: int)
    requires 1 <= num <= E6M2.TABLE_SIZE && 0 <= c < num
    ensures ShiftedWindow(w, num)[c] in E6M2.Table()
    ensures ShiftedWindow(w, num)[c] >= E6M2.Pow2(-48)
  {
    var i := E6M2.ShiftedStart(E6M2.ClampScale(MaxAbs(w) / 7.0), num) + c;
    assert ShiftedWindow(w, num)[c] == E6M2.Value(i) == E6M2.Table()[i];
    E6M2.TableEnds();
    if i > 0 {
      E6M2.StrictlyIncreasing(0, i);
    }
  }

  /** The block `_quantize_hif4_core` returns. */
  function CoreBlock(w: seq<real>, imp: Importance, num: int): Block
    requires 1 <= num <= E6M2.TABLE_SIZE
  {
    var cs := ShiftedWindow(w, num);
    Emit(w, imp, cs[FirstMin(Scores(w, imp, cs), num)])
  }

  /** The returned block is legal; its scale is from the window, or the smallest of the table for zeros. */
  lemma CoreWellFormed(w: seq<real>, imp: Importance, num: int)
    requires |w| == BLK_SIZE && 1 <= num <= E6M2.TABLE_SIZE
    ensures WellFormed(CoreBlock(w, imp, num))
    ensures MaxAbs(w) > 0.0 ==> CoreBlock(w, imp, num).sf in ShiftedWindow(w, num)
    ensures MaxAbs(w) <= 0.0 ==> CoreBlock(w, imp, num).sf == E6M2.Table()[0]
    ensures MaxAbs(w) <= 0.0 ==> forall j :: 0 <= j < BLK_SIZE ==> CoreBlock(w, imp, num).sign[j] == 0.0
  {
    var cs := ShiftedWindow(w, num);
    var sf := cs[FirstMin(Scores(w, imp, cs), num)];
    var m := SubErrs(w, imp, sf);
    RebuildWellFormed(w, sf, Lv2Choice(m), DChoice(m));
    E6M2.TableEnds();
    if MaxAbs(w) <= 0.0 {
      SignsOfZeros(w, sf, Lv2Choice(m), DChoice(m));
    }
  }

  /** The returned block beats every legal encoding with a scale from the window. */
  lemma CoreOptimal(w: seq<real>, imp: Importance, num: int, e: Block)
    requires |w| == BLK_SIZE && ValidImportance(imp) && 1 <= num <= E6M2.TABLE_SIZE && WellFormed(e)
    ensures e.sf in ShiftedWindow(w, num) ==> Err(w, imp, CoreBlock(w, imp, num)) <= Err(w, imp, e)
  {
    var cs := ShiftedWindow(w, num);
    if e.sf in cs {
      var c :| 0 <= c < num && cs[c] == e.sf;
      var k := FirstMin(Scores(w, imp, cs), num);
      WindowInTable(w, num, c);
      WindowInTable(w, num, k);
      LeastScore(w, imp, cs, num, c);
      EmittedErrIsScore(w, imp, cs[k]);
      ScoreIsOptimal(w, imp, e);
    }
  }

  lemma LeastScore(w: seq<real>, imp: Importance, cs: seq<real>, num: int, c: int)
    requires 0 <= c < num == |cs| && forall c :: 0 <= c < |cs| ==> cs[c] > 0.0
    ensures Score(w, imp, cs[FirstMin(Scores(w, imp, cs), num)]) <= Score(w, imp, cs[c])
  {
    var k := FirstMin(Scores(w, imp, cs), num);
    ScoreAt(w, imp, cs, c);
    ScoreAt(w, imp, cs, k);
  }

  lemma ScoreAt(w: seq<real>, imp: Importance, cs: seq<real>, c: int)
    requires 0 <= c < |cs| && forall c :: 0 <= c < |cs| ==> cs[c] > 0.0
    ensures Scores(w, imp, cs)[c] == Score(w, imp, cs[c])
  {}

  /** From three candidates on, the two-phase quantiser is never worse than Algorithm 1 either. */
  lemma CoreNeverWorseThanBaseline(w: seq<real>, imp: Importance, num: int)
    requires |w| == BLK_SIZE && ValidImportance(imp) && 3 <= num <= E6M2.TABLE_SIZE
    ensures Err(w, imp, CoreBlock(w, imp, num)) <= Err(w, imp, StandardBlock(w))
  {
    StandardWellFormed(w);
    StandardScale(w);
    BaselineInShifted(w, num);
    CoreOptimal(w, imp, num, StandardBlock(w));
  }

  lemma BaselineInShifted(w: seq<real>, num: int)
    requires 3 <= num <= E6M2.TABLE_SIZE
    ensures E6M2.Value(ScaleIndex(w)) in ShiftedWindow(w, num)
  {
    var v := MaxAbs(w) / 7.0;
    var c := E6M2.ClampScale(v);
    assert E6M2.ClampScale(c) == c by {
      E6M2.SmallestScale();
    }
    E6M2.ClampedPosition(v);
    if v <= 0.0 {
      E6M2.TableEnds();
      assert E6M2.Position(c) == 0 by {
        E6M2.SmallestScale();
        assert c == E6M2.Value(0);
      }
    }
    E6M2.NeighbourInShifted(c, num, ScaleIndex(w));
  }

  /** `_quantize_hif4_core` on the blocks of a tensor. */
  method QuantizeCore(ws: seq<seq<real>>, imps: seq<Importance>, num: int) returns (out: seq<Block>, bestErr: seq<Bound>)
    requires |ws| == |imps| && 1 <= num <= E6M2.TABLE_SIZE
    requires forall b :: 0 <= b < |ws| ==> |ws[b]| == BLK_SIZE
    ensures |out| == |bestErr| == |ws|
    ensures forall b :: 0 <= b < |ws| ==> out[b] == CoreBlock(ws[b], imps[b], num)
    ensures forall b :: 0 <= b < |ws| ==> bestErr[b] == Finite(Err(ws[b], imps[b], out[b]))
  {
    var total := |ws|;
    var scores := seq(total, b requires 0 <= b < total => Scores(ws[b], imps[b], ShiftedWindow(ws[b], num)));
    var bestK;
    bestErr, bestK := ScoreLoop(scores, num);
    out := seq(total, b requires 0 <= b < total => Emit(ws[b], imps[b], ShiftedWindow(ws[b], num)[bestK[b]]));
    forall b | 0 <= b < total
      ensures out[b] == CoreBlock(ws[b], imps[b], num) && scores[b][bestK[b]] == Err(ws[b], imps[b], out[b])
    {
      BestIsCore(ws[b], imps[b], num, scores[b], bestK[b], out[b]);
    }
  }

  lemma BestIsCore(w: seq<real>, imp: Importance, num: int, scores: seq<real>, k: int, e: Block)
    requires |w| == BLK_SIZE && 1 <= num <= E6M2.TABLE_SIZE
    requires scores == Scores(w, imp, ShiftedWindow(w, num)) && k == FirstMin(scores, num)
    requires e == Emit(w, imp, ShiftedWindow(w, num)[k])
    ensures e == CoreBlock(w, imp, num) && scores[k] == Err(w, imp, e)
  {
    ScoredErr(w, imp, num, k);
  }

  lemma ScoredErr(w: seq<real>, imp: Importance, num: int, k: int)
    requires |w| == BLK_SIZE && 1 <= num <= E6M2.TABLE_SIZE && 0 <= k < num
    ensures Scores(w, imp, ShiftedWindow(w, num))[k] == Err(w, imp, Emit(w, imp, ShiftedWindow(w, num)[k]))
  {
    WindowInTable(w, num, k);
    EmittedErrIsScore(w, imp, ShiftedWindow(w, num)[k]);
    ScoreAt(w, imp, ShiftedWindow(w, num), k);
  }
}
