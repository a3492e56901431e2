/** The HiF4 block format: 64 values share one scale factor, each group of 8 a level-2
    micro-exponent, each sub-group of 4 a level-3 micro-exponent; every value keeps a sign and a
    mantissa in {0, 1/4, ..., 7/4}. Element j of a block lies in sub-group j/4 and group j/8. */
module HiF4 {
  import opened Sums
  import opened Rounding

  const BLK_SIZE := 64

  /** Per-element weights of the squared error; Uniform is the missing importance. */
  datatype Importance = Uniform | Weights(w: seq<real>)

  predicate ValidImportance(imp: Importance) {
    imp.Weights? ==> |imp.w| == BLK_SIZE && forall j :: 0 <= j < BLK_SIZE ==> 0.0 <= imp.w[j]
  }

  function Weight(imp: Importance, j: int): real {
    if imp.Uniform? then 1.0 else At(imp.w, j)
  }

  datatype Block = Block(sf: real, lv2: seq<real>, lv3: seq<real>, sign: seq<real>, mant: seq<real>)

  predicate IsMicroExponent(x: real) { x == 1.0 || x == 2.0 }

  predicate IsSign(x: real) { x == -1.0 || x == 0.0 || x == 1.0 }

  /** A multiple of 1/4 between 0 and 7/4. */
  predicate IsMantissa(x: real) { 0.0 <= x <= 1.75 && (x * 4.0).Floor as real == x * 4.0 }

  /** What the format allows in a block, the scale factor aside. */
  predicate WellFormed(e: Block) {
    && |e.lv2| == 8 && |e.lv3| == 16 && |e.sign| == BLK_SIZE && |e.mant| == BLK_SIZE
    && (forall g :: 0 <= g < 8 ==> IsMicroExponent(e.lv2[g]))
    && (forall h :: 0 <= h < 16 ==> IsMicroExponent(e.lv3[h]))
    && (forall j :: 0 <= j < BLK_SIZE ==> IsSign(e.sign[j]))
    && (forall j :: 0 <= j < BLK_SIZE ==> IsMantissa(e.mant[j]))
  }

  /** `_hif4_dequant`: the value element j stands for. */
  function Dequant(e: Block, j: int): real {
    At(e.sign, j) * At(e.mant, j) * At(e.lv3, j / 4) * At(e.lv2, j / 8) * e.sf
  }

  /** The weighted squared error of element j when it is reconstructed as v. */
  function Term(w: seq<real>, imp: Importance, j: int, v: real): real {
    Weight(imp, j) * Sq(v - At(w, j))
  }

  /** The element errors of the reconstruction v of a block. */
  function Loss(w: seq<real>, imp: Importance, v: int -> real): int -> real {
    j => Term(w, imp, j, v(j))
  }

  /** The weighted squared error of the reconstruction v of a whole block. */
  function ErrOf(w: seq<real>, imp: Importance, v: int -> real): real {
    Sum(BLK_SIZE, Loss(w, imp, v))
  }

  function Values(e: Block): int -> real {
    j => Dequant(e, j)
  }

  function Err(w: seq<real>, imp: Importance, e: Block): real {
    ErrOf(w, imp, Values(e))
  }

  lemma TermMono(w: seq<real>, imp: Importance, j: int, u: real, v: real)
    requires ValidImportance(imp) && Sq(u - At(w, j)) <= Sq(v - At(w, j))
    ensures Term(w, imp, j, u) <= Term(w, imp, j, v)
  {
    var a, b, c := Sq(u - At(w, j)), Sq(v - At(w, j)), Weight(imp, j);
    MulMono(a, b, c);
  }

  /** What the block error is when every squared element error is b. */
  function LevelErr(imp: Importance, b: real): real {
    Sum(BLK_SIZE, LevelLoss(imp, b))
  }

  function LevelLoss(imp: Importance, b: real): int -> real {
    j => Weight(imp, j) * b
  }

  /** A bound on every squared element error bounds the block error. */
  lemma ErrBound(w: seq<real>, imp: Importance, v: int -> real, b: real)
    requires ValidImportance(imp)
    requires forall j :: 0 <= j < BLK_SIZE ==> Sq(v(j) - At(w, j)) <= b
    ensures ErrOf(w, imp, v) <= LevelErr(imp, b)
  {
    forall j | 0 <= j < BLK_SIZE ensures Loss(w, imp, v)(j) <= LevelLoss(imp, b)(j) {
      MulMono(Sq(v(j) - At(w, j)), b, Weight(imp, j));
    }
    SumMono(BLK_SIZE, Loss(w, imp, v), LevelLoss(imp, b));
  }

  lemma ErrNonNeg(w: seq<real>, imp: Importance, v: int -> real)
    requires ValidImportance(imp)
    ensures 0.0 <= ErrOf(w, imp, v)
  {
    forall j | 0 <= j < BLK_SIZE ensures 0.0 <= Loss(w, imp, v)(j) {
      TermNonNeg(w, imp, j, v(j));
    }
    SumNonNeg(BLK_SIZE, Loss(w, imp, v));
  }

  lemma TermNonNeg(w: seq<real>, imp: Importance, j: int, v: real)
    requires ValidImportance(imp)
    ensures 0.0 <= Term(w, imp, j, v)
  {
    SqNonNeg(v - At(w, j));
    MulMono(0.0, Sq(v - At(w, j)), Weight(imp, j));
  }

  /** A sign times a mantissa is an integer in -7..7 over 4. */
  lemma SignedMantissa(sign: real, mant: real) returns (m: int)
    requires IsSign(sign) && IsMantissa(mant)
    ensures -7 <= m <= 7 && sign * mant == m as real / 4.0
  {
    var k := (mant * 4.0).Floor;
    assert 0 <= k <= 7;
    m := if sign == 0.0 then 0 else if sign == 1.0 then k else -k;
  }
}
