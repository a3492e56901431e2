/** The exact micro-exponent search at a fixed block scale: three roundings of the block cover
    all four (level 2, level 3) combinations, and the best combination is picked per group. */
module BlockSearch {
  import opened Sums
  import opened Rounding
  import opened HiF4
  import opened MicroExponents

  // ----- the computation -----

  /** The total scale of rounding level l: sf, 2*sf or 4*sf. */
  function ScaleAt(sf: real, l: int): (d: real)
    requires sf > 0.0
    ensures d > 0.0
  {
    if l == 0 then sf else if l == 1 then sf * 2.0 else sf * 4.0
  }

  /** The element errors of the three roundings. */
  function LossTable(w: seq<real>, imp: Importance, sf: real): Losses
    requires sf > 0.0
  {
    (l, j) => Term(w, imp, j, Snap(At(w, j), ScaleAt(sf, l)))
  }

  /** Their sub-group errors mse00, mse_mid and mse11. */
  function MseTable(w: seq<real>, imp: Importance, sf: real): Losses
    requires sf > 0.0
  {
    SubMse(LossTable(w, imp, sf), imp.Uniform?)
  }

  /** The encoding that follows a choice of exponents (lv2 doubled, lv3 doubled). */
  function Encode(w: seq<real>, sf: real, a: int -> bool, b: int -> bool): (e: Block)
    requires sf > 0.0
  {
    Block(sf,
          seq(8, g => if a(g) then 2.0 else 1.0),
          seq(16, h => if b(h) then 2.0 else 1.0),
          seq(BLK_SIZE, j => Sign(SnapQ(At(w, j), Scale2(sf, a(j / 8), b(j / 4))))),
          seq(BLK_SIZE, j => Abs(SnapQ(At(w, j), Scale2(sf, a(j / 8), b(j / 4))))))
  }

  /** Which of the three roundings a pair of exponents selects. */
  function Scale2(sf: real, a: bool, b: bool): (d: real)
    requires sf > 0.0
    ensures d > 0.0
  {
    ScaleAt(sf, (if a then 1 else 0) + (if b then 1 else 0))
  }

  /** `_quantize_block_given_scale`: the five parameter tensors of one block. */
  function QuantizeGivenScale(w: seq<real>, imp: Importance, sf: real): (e: Block)
    requires sf > 0.0
  {
    var m := MseTable(w, imp, sf);
    Encode(w, sf, g => UseLv2(m, g), h => UseLv3(m, h))
  }

  /** The divisor that turns a block error into `block_mse`; 10^-12 keeps it positive. */
  function BlockNorm(imp: Importance): (n: real)
    ensures n > 0.0
  {
    if imp.Uniform? then 64.0 else MaxR(Sum(BLK_SIZE, j => At(imp.w, j)), 0.000000000001)
  }

  /** `block_mse`, computed from the values kept by the search. */
  function BlockMse(w: seq<real>, imp: Importance, sf: real): real
    requires sf > 0.0
  {
    Sum(BLK_SIZE, Kept(LossTable(w, imp, sf), MseTable(w, imp, sf))) / BlockNorm(imp)
  }

  // ----- what it guarantees -----

  /** With or without importance the divisor is the total weight of the block, but for the floor. */
  lemma NormIsTotalWeight(imp: Importance)
    ensures BlockNorm(imp) == MaxR(Sum(BLK_SIZE, j => Weight(imp, j)), 0.000000000001)
  {
    if imp.Uniform? {
      SumOnes(BLK_SIZE, j => Weight(imp, j));
    } else {
      SumCong(BLK_SIZE, j => At(imp.w, j), j => Weight(imp, j));
    }
  }

  lemma {:induction false} SumOnes(n: nat, f: int -> real)
    requires forall j :: 0 <= j < n ==> f(j) == 1.0
    ensures Sum(n, f) == n as real
  {
    if n > 0 {
      SumOnes(n - 1, f);
    }
  }

  /** The emitted parameters are legal HiF4, whatever exponents are chosen. */
  lemma EncodeWellFormed(w: seq<real>, sf: real, a: int -> bool, b: int -> bool)
    requires sf > 0.0
    ensures WellFormed(Encode(w, sf, a, b))
  {
    var e := Encode(w, sf, a, b);
    forall j | 0 <= j < BLK_SIZE ensures IsMantissa(e.mant[j]) && IsSign(e.sign[j]) {
      var q := SnapQ(At(w, j), Scale2(sf, a(j / 8), b(j / 4)));
      assert e.mant[j] == Abs(q) && e.sign[j] == Sign(q);
      MantissaOfSnap(At(w, j), Scale2(sf, a(j / 8), b(j / 4)));
    }
  }

  lemma MantissaOfSnap(x: real, d: real)
    requires d > 0.0
    ensures IsMantissa(Abs(SnapQ(x, d)))
  {
    var k := SnapInt(x, d);
    var m := if k < 0 then -k else k;
    assert Abs(SnapQ(x, d)) * 4.0 == m as real;
  }

  /** The emitted parameters dequantise to the rounded values whose error was compared. */
  lemma EncodeDequant(w: seq<real>, sf: real, a: int -> bool, b: int -> bool, j: int)
    requires sf > 0.0 && 0 <= j < BLK_SIZE
    ensures Dequant(Encode(w, sf, a, b), j) == Snap(At(w, j), Scale2(sf, a(j / 8), b(j / 4)))
  {
    ProductOfScales(SnapQ(At(w, j), Scale2(sf, a(j / 8), b(j / 4))), sf, a(j / 8), b(j / 4));
  }

  lemma ProductOfScales(q: real, sf: real, a: bool, b: bool)
    requires sf > 0.0
    ensures Sign(q) * Abs(q) * (if b then 2.0 else 1.0) * (if a then 2.0 else 1.0) * sf == q * Scale2(sf, a, b)
  {
    SignTimesAbs(q);
  }

  /** `block_mse` is the error of the emitted parameters, over the norm. */
  lemma QuantizeErr(w: seq<real>, imp: Importance, sf: real)
    requires sf > 0.0
    ensures Err(w, imp, QuantizeGivenScale(w, imp, sf)) == Sum(BLK_SIZE, Kept(LossTable(w, imp, sf), MseTable(w, imp, sf)))
  {
    var m := MseTable(w, imp, sf);
    EncodeErr(w, imp, sf, m, QuantizeGivenScale(w, imp, sf));
  }

  lemma EncodeErr(w: seq<real>, imp: Importance, sf: real, m: Losses, e: Block)
    requires sf > 0.0 && e == Encode(w, sf, g => UseLv2(m, g), h => UseLv3(m, h))
    ensures Err(w, imp, e) == Sum(BLK_SIZE, Kept(LossTable(w, imp, sf), m))
  {
    forall j | 0 <= j < BLK_SIZE ensures Loss(w, imp, Values(e))(j) == Kept(LossTable(w, imp, sf), m)(j) {
      assert (j / 4) / 2 == j / 8;
      EncodeLoss(w, imp, sf, g => UseLv2(m, g), h => UseLv3(m, h), Level(m, j / 4), j);
    }
    SumCong(BLK_SIZE, Loss(w, imp, Values(e)), Kept(LossTable(w, imp, sf), m));
  }

  lemma EncodeLoss(w: seq<real>, imp: Importance, sf: real, a: int -> bool, b: int -> bool, l: int, j: int)
    requires sf > 0.0 && 0 <= j < BLK_SIZE
    requires l == (if a(j / 8) then 1 else 0) + (if b(j / 4) then 1 else 0)
    ensures Loss(w, imp, Values(Encode(w, sf, a, b)))(j) == LossTable(w, imp, sf)(l, j)
  {
    EncodeDequant(w, sf, a, b, j);
  }

  /** At its own total scale, no legal element beats rounding. */
  lemma ElementOptimal(w: seq<real>, imp: Importance, e: Block, j: int)
    requires ValidImportance(imp) && WellFormed(e) && e.sf > 0.0 && 0 <= j < BLK_SIZE
    ensures LossTable(w, imp, e.sf)(Exponent(e.lv2[j / 8]) + Exponent(e.lv3[j / 4]), j) <= Loss(w, imp, Values(e))(j)
  {
    var l := Exponent(e.lv2[j / 8]) + Exponent(e.lv3[j / 4]);
    var d := ScaleAt(e.sf, l);
    var m := SignedMantissa(e.sign[j], e.mant[j]);
    DequantAt(e, j, m);
    SnapOptimal(At(w, j), d, m);
    TermMono(w, imp, j, Snap(At(w, j), d), Dequant(e, j));
  }

  function Exponent(x: real): int {
    if x == 2.0 then 1 else 0
  }

  lemma DequantAt(e: Block, j: int, m: int)
    requires WellFormed(e) && e.sf > 0.0 && 0 <= j < BLK_SIZE
    requires e.sign[j] * e.mant[j] == m as real / 4.0
    ensures Dequant(e, j) == m as real / 4.0 * ScaleAt(e.sf, Exponent(e.lv2[j / 8]) + Exponent(e.lv3[j / 4]))
  {
    assert IsMicroExponent(e.lv2[j / 8]) && IsMicroExponent(e.lv3[j / 4]);
  }

  /** Exactness: among ALL legal encodings with this scale factor, the three-rounding search
      returns one of least weighted squared error. */
  lemma SearchIsOptimal(w: seq<real>, imp: Importance, e: Block)
    requires e.sf > 0.0 && ValidImportance(imp) && WellFormed(e)
    ensures Err(w, imp, QuantizeGivenScale(w, imp, e.sf)) <= Err(w, imp, e)
  {
    QuantizeErr(w, imp, e.sf);
    BeatsEncoding(w, imp, e, LossTable(w, imp, e.sf), imp.Uniform?, MseTable(w, imp, e.sf));
  }

  /** The kept losses beat every legal encoding, whether sub-group errors are means or sums. */
  lemma BeatsEncoding(w: seq<real>, imp: Importance, e: Block, loss: Losses, mean: bool, m: Losses)
    requires e.sf > 0.0 && ValidImportance(imp) && WellFormed(e)
    requires loss == LossTable(w, imp, e.sf) && Summarises(m, loss, mean)
    ensures Sum(BLK_SIZE, Kept(loss, m)) <= Err(w, imp, e)
  {
    var a, b := g => Exponent(At(e.lv2, g)), h => Exponent(At(e.lv3, h));
    forall j | 0 <= j < 64 ensures loss(a(j / 8) + b(j / 4), j) <= Loss(w, imp, Values(e))(j) {
      ElementOptimal(w, imp, e, j);
    }
    ChoiceOptimal(loss, mean, m, a, b, Loss(w, imp, Values(e)));
  }
}
