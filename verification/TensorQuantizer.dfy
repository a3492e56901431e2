/** The quantiser over a whole tensor: the candidate loop that updates the best parameters of all
    blocks together. */
module TensorQuantizer {
  import opened HiF4
  import opened BlockSearch
  import opened ScaleSearch

  /** The five parameter tensors, one entry per block. */
  datatype Params = Params(sf: seq<real>, lv2: seq<seq<real>>, lv3: seq<seq<real>>,
                           sign: seq<seq<real>>, mant: seq<seq<real>>)

  predicate Sized(p: Params, n: nat) {
    |p.sf| == n && |p.lv2| == n && |p.lv3| == n && |p.sign| == n && |p.mant| == n
  }

  function BlockAt(p: Params, b: int): Block
    requires Sized(p, |p.sf|) && 0 <= b < |p.sf|
  {
    Block(p.sf[b], p.lv2[b], p.lv3[b], p.sign[b], p.mant[b])
  }

  /** A running minimum starts at infinity. */
  datatype Bound = Infinite | Finite(value: real)

  predicate Below(x: real, b: Bound) {
    b.Infinite? || x < b.value
  }

  /** Micro-exponents, signs and mantissas are unset until some block improves. */
  datatype Best = Unset | Set(lv2: seq<seq<real>>, lv3: seq<seq<real>>, sign: seq<seq<real>>, mant: seq<seq<real>>)

  predicate BestSized(p: Best, n: nat) {
    p.Set? ==> |p.lv2| == n && |p.lv3| == n && |p.sign| == n && |p.mant| == n
  }

  /** `torch.where` along the blocks. */
  function Where<T>(mask: seq<bool>, x: seq<T>, y: seq<T>): (r: seq<T>)
    requires |mask| == |x| == |y|
    ensures |r| == |mask|
  {
    seq(|mask|, b requires 0 <= b < |mask| => if mask[b] then x[b] else y[b])
  }

  /** The parameters currently kept for block b. */
  function Current(sf: seq<real>, best: Best, b: int): Block
    requires best.Set? && BestSized(best, |sf|) && 0 <= b < |sf|
  {
    Block(sf[b], best.lv2[b], best.lv3[b], best.sign[b], best.mant[b])
  }

  /** The parameter tensors of a row of encodings. */
  function Tensors(enc: seq<Block>): (t: Best)
    ensures t.Set? && BestSized(t, |enc|)
    ensures forall b :: 0 <= b < |enc| ==>
              t.lv2[b] == enc[b].lv2 && t.lv3[b] == enc[b].lv3 && t.sign[b] == enc[b].sign && t.mant[b] == enc[b].mant
  {
    Set(seq(|enc|, b requires 0 <= b < |enc| => enc[b].lv2), seq(|enc|, b requires 0 <= b < |enc| => enc[b].lv3),
        seq(|enc|, b requires 0 <= b < |enc| => enc[b].sign), seq(|enc|, b requires 0 <= b < |enc| => enc[b].mant))
  }

  function Scales(enc: seq<Block>): (s: seq<real>)
    ensures |s| == |enc|
  {
    seq(|enc|, b requires 0 <= b < |enc| => enc[b].sf)
  }

  /** The body of the candidate loop: replace the parameters of exactly the blocks that improve. */
  method Update(enc: seq<Block>, mse: seq<real>, mse0: seq<Bound>, sf0: seq<real>, best0: Best)
    returns (mse': seq<Bound>, sf': seq<real>, best': Best)
    requires |enc| == |mse| == |mse0| == |sf0| && BestSized(best0, |enc|)
    requires best0.Unset? ==> forall b :: 0 <= b < |enc| ==> mse0[b].Infinite?
    ensures |mse'| == |sf'| == |enc| && BestSized(best', |enc|)
    ensures enc == [] ==> best' == best0
    ensures enc != [] ==> best'.Set?
    ensures forall b :: 0 <= b < |enc| && Below(mse[b], mse0[b]) ==>
              mse'[b] == Finite(mse[b]) && Current(sf', best', b) == enc[b]
    ensures forall b :: 0 <= b < |enc| && !Below(mse[b], mse0[b]) ==>
              best0.Set? && mse'[b] == mse0[b] && Current(sf', best', b) == Current(sf0, best0, b)
  {
    var n := |enc|;
    var improved := seq(n, b requires 0 <= b < n => Below(mse[b], mse0[b]));
    if true !in improved {
      forall b | 0 <= b < n ensures !Below(mse[b], mse0[b]) {
        assert !improved[b];
      }
      assert n > 0 ==> !Below(mse[0], mse0[0]);
      return mse0, sf0, best0;
    }
    mse' := Where(improved, seq(n, b requires 0 <= b < n => Finite(mse[b])), mse0);
    sf' := Where(improved, Scales(enc), sf0);
    var latest := Tensors(enc);
    best' := if best0.Unset? then latest
             else Set(Where(improved, latest.lv2, best0.lv2), Where(improved, latest.lv3, best0.lv3),
                      Where(improved, latest.sign, best0.sign), Where(improved, latest.mant, best0.mant));
  }

  /** After k candidates the kept parameters are those of the first candidate of least error. */
  ghost predicate KeptAfter(enc: seq<Block>, mse: seq<real>, k: int, m: Bound, e: Block) {
    && 1 <= k <= |mse| == |enc|
    && m == Finite(mse[FirstMin(mse, k)])
    && e == enc[FirstMin(mse, k)]
  }

  /** The encodings of a block at each of its candidate scales. */
  function Encodings(w: seq<real>, imp: Importance, cs: seq<real>): (es: seq<Block>)
    requires forall c :: 0 <= c < |cs| ==> cs[c] > 0.0
    ensures |es| == |cs|
  {
    seq(|cs|, c requires 0 <= c < |cs| => QuantizeGivenScale(w, imp, cs[c]))
  }

  /** Keeping or replacing at candidate k carries the invariant on. */
  lemma KeptStep(enc: seq<Block>, mse: seq<real>, k: int, m0: Bound, e0: Block, m: Bound, e: Block)
    requires KeptAfter(enc, mse, k, m0, e0) && k < |mse|
    requires if Below(mse[k], m0) then m == Finite(mse[k]) && e == enc[k] else m == m0 && e == e0
    ensures KeptAfter(enc, mse, k + 1, m, e)
  {}

  /** The candidate loop, over the encodings es[b][c] and errors ms[b][c] of block b at candidate c. */
  method CandidateLoop(es: seq<seq<Block>>, ms: seq<seq<real>>, n: int) returns (p: Params)
    requires 2 <= n && |es| == |ms|
    requires forall b :: 0 <= b < |es| ==> |es[b]| == n
    requires forall b :: 0 <= b < |es| ==> |ms[b]| == n
    ensures Sized(p, |es|)
    ensures forall b :: 0 <= b < |es| ==> BlockAt(p, b) == es[b][FirstMin(ms[b], n)]
  {
    var total := |es|;
    var enc0 := seq(total, b requires 0 <= b < total => es[b][0]);
    var bestMse := seq(total, _ => Infinite);
    var bestSf := seq(total, _ => 0.0);
    var best := Unset;
    for ci := 0 to n
      invariant |bestMse| == |bestSf| == total && BestSized(best, total)
      invariant ci == 0 ==> best.Unset?
      invariant best.Unset? ==> forall b :: 0 <= b < total ==> bestMse[b].Infinite?
      invariant ci > 0 && total > 0 ==> best.Set?
      invariant total == 0 ==> best.Unset?
      invariant ci > 0 && total > 0 ==> forall b :: 0 <= b < total ==>
                  KeptAfter(es[b], ms[b], ci, bestMse[b], Current(bestSf, best, b))
    {
      var enc := seq(total, b requires 0 <= b < total => es[b][ci]);
      var mse := seq(total, b requires 0 <= b < total => ms[b][ci]);
      ghost var mse0, sf0, best0 := bestMse, bestSf, best;
      bestMse, bestSf, best := Update(enc, mse, bestMse, bestSf, best);
      forall b | 0 <= b < total
        ensures KeptAfter(es[b], ms[b], ci + 1, bestMse[b], Current(bestSf, best, b))
      {
        if ci > 0 {
          KeptStep(es[b], ms[b], ci, mse0[b], Current(sf0, best0, b), bestMse[b], Current(bestSf, best, b));
        }
      }
    }
    if best.Unset? {
      best, bestSf := Tensors(enc0), Scales(enc0);
    }
    p := Params(bestSf, best.lv2, best.lv3, best.sign, best.mant);
  }

  lemma SearchIsFirstMin(w: seq<real>, imp: Importance, n: int)
    requires 2 <= n
    ensures SearchBlock(w, imp, n)
         == Encodings(w, imp, Window(w, n))[FirstMin(Mses(w, imp, Window(w, n)), n)]
  {}

  /** `_quantize_hif4_impl`: all blocks of a tensor, each against its own window of n candidates. */
  method QuantizeImpl(ws: seq<seq<real>>, imps: seq<Importance>, n: int) returns (p: Params)
    requires 2 <= n && |ws| == |imps|
    ensures Sized(p, |ws|)
    ensures forall b :: 0 <= b < |ws| ==> BlockAt(p, b) == SearchBlock(ws[b], imps[b], n)
  {
    var total := |ws|;
    var ms := seq(total, b requires 0 <= b < total => Mses(ws[b], imps[b], Window(ws[b], n)));
    var es := seq(total, b requires 0 <= b < total => Encodings(ws[b], imps[b], Window(ws[b], n)));
    p := CandidateLoop(es, ms, n);
    forall b | 0 <= b < total ensures BlockAt(p, b) == SearchBlock(ws[b], imps[b], n) {
      SearchIsFirstMin(ws[b], imps[b], n);
    }
  }
}
