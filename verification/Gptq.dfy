/** Residual compensation with fixed scales (GPTQ): each 64-channel block is re-quantised column by
    column, the rounding error of a column is fed forward to the columns after it, and the result
    replaces the standard parameters only where the Gram-form loss drops by more than a tenth. The
    same procedure serves weights (activation Gram) and activations (weight Gram). */
module Gptq {
  import opened Sums
  import opened Rounding
  import opened HiF4
  import opened Matrices
  import BlockSearch

  // ----- one row of one block -----

  /** A block whose parameters are legal and whose scale is positive. */
  predicate Positive(e: Block) {
    WellFormed(e) && e.sf > 0.0
  }

  /** `total_scale`: the product of the three scales of element j. */
  function TotalScale(e: Block, j: int): (d: real)
    requires Positive(e) && 0 <= j < BLK_SIZE
    ensures d > 0.0
  {
    assert IsMicroExponent(e.lv2[j / 8]) && IsMicroExponent(e.lv3[j / 4]);
    e.sf * e.lv2[j / 8] * e.lv3[j / 4]
  }

  function Diagonal(g: Matrix): int -> real {
    j => g(j, j)
  }

  function MeanDiagonal(g: Matrix): real {
    Sum(BLK_SIZE, Diagonal(g)) / 64.0
  }

  function Damp(g: Matrix): real {
    0.01 * MeanDiagonal(g)
  }

  /** The Gram matrix with one per cent of its mean diagonal added on the diagonal. */
  function Damped(g: Matrix): Matrix {
    (j, k) => if j == k then g(j, k) + Damp(g) else g(j, k)
  }

  /** share(j, k): how much of the error of column j is charged to column k. */
  function Share(h: Matrix): Matrix {
    (j, k) => h(j, k) / MaxR(h(j, j), 0.00000001)
  }

  /** grid(j, x): the value column j may take that is nearest to x. */
  type Grid = (int, real) -> real

  function GridOf(e: Block): Grid
    requires Positive(e)
  {
    (j, x) => if 0 <= j < BLK_SIZE then Snap(x, TotalScale(e, j)) else x
  }

  function Charge(x: real, err: real, part: real): real {
    x - err * part
  }

  /** Column k of the working copy after s columns have been quantised. */
  function Work(w: seq<real>, grid: Grid, share: Matrix, s: nat, k: int): real
    decreases s, 0
  {
    if s == 0 then At(w, k)
    else if k < s then Work(w, grid, share, s - 1, k)
    else Charge(Work(w, grid, share, s - 1, k), StepErr(w, grid, share, s - 1), share(s - 1, k))
  }

  /** The rounding error of column j at its turn. */
  function StepErr(w: seq<real>, grid: Grid, share: Matrix, j: nat): real
    decreases j, 2
  {
    Compensated(w, grid, share, j) - Work(w, grid, share, j, j)
  }

  /** The compensated value of column j. */
  function Compensated(w: seq<real>, grid: Grid, share: Matrix, j: nat): real
    decreases j, 1
  {
    grid(j, Work(w, grid, share, j, j))
  }

  lemma WorkStep(w: seq<real>, grid: Grid, share: Matrix, j: nat, k: int)
    ensures Work(w, grid, share, j + 1, k)
         == if k <= j then Work(w, grid, share, j, k)
            else Charge(Work(w, grid, share, j, k), StepErr(w, grid, share, j), share(j, k))
  {}

  /** Charge the error of column j to every later column, in place. */
  method ChargeAhead(copy: array<real>, share: Matrix, j: nat, err: real)
    requires copy.Length == 64 && j < 64
    modifies copy
    ensures forall i :: 0 <= i <= j ==> copy[i] == old(copy[i])
    ensures forall i :: j < i < 64 ==> copy[i] == Charge(old(copy[i]), err, share(j, i))
  {
    for k := j + 1 to 64
      invariant forall i :: 0 <= i <= j || k <= i < 64 ==> copy[i] == old(copy[i])
      invariant forall i :: j < i < k ==> copy[i] == Charge(old(copy[i]), err, share(j, i))
    {
      copy[k] := Charge(copy[k], err, share(j, k));
    }
  }

  /** The sequential loop on one row: q and the working copy are updated in place. */
  method Compensate(w: seq<real>, grid: Grid, share: Matrix) returns (q: seq<real>)
    requires |w| == BLK_SIZE
    ensures |q| == BLK_SIZE
    ensures forall j :: 0 <= j < BLK_SIZE ==> q[j] == Compensated(w, grid, share, j)
  {
    var copy := new real[64](i requires 0 <= i < 64 => w[i]);
    var out := new real[64](_ => 0.0);
    for j := 0 to 64
      invariant forall k :: 0 <= k < 64 ==> copy[k] == Work(w, grid, share, j, k)
      invariant forall k :: 0 <= k < j ==> out[k] == Compensated(w, grid, share, k)
    {
      out[j] := grid(j, copy[j]);
      var err := out[j] - copy[j];
      assert err == StepErr(w, grid, share, j);
      ghost var before := copy[..];
      ChargeAhead(copy, share, j, err);
      forall k | 0 <= k < 64 ensures copy[k] == Work(w, grid, share, j + 1, k) {
        assert before[k] == Work(w, grid, share, j, k);
        WorkStep(w, grid, share, j, k);
      }
    }
    q := out[..];
  }

  /** The share of each error that reaches column k. */
  function Charged(w: seq<real>, grid: Grid, share: Matrix, k: int): int -> real {
    i => if 0 <= i then StepErr(w, grid, share, i) * share(i, k) else 0.0
  }

  lemma {:induction false} WorkClosedForm(w: seq<real>, grid: Grid, share: Matrix, s: nat, k: int)
    requires s <= k
    ensures Work(w, grid, share, s, k) == At(w, k) - Sum(s, Charged(w, grid, share, k))
  {
    if s > 0 {
      WorkClosedForm(w, grid, share, s - 1, k);
    }
  }

  /** Error feed-forward: what column j finally loses is its own rounding error minus the shares of
      all earlier errors that were charged to it. */
  lemma FeedForward(w: seq<real>, grid: Grid, share: Matrix, j: nat)
    ensures Compensated(w, grid, share, j) - At(w, j) == StepErr(w, grid, share, j) - Sum(j, Charged(w, grid, share, j))
  {
    WorkClosedForm(w, grid, share, j, j);
  }

  /** The damping is one 6400th of the sum of the diagonal. */
  lemma DampMeans(gram: Matrix)
    ensures Damp(gram) * 6400.0 == Sum(BLK_SIZE, j => gram(j, j))
  {
    SumCong(BLK_SIZE, Diagonal(gram), j => gram(j, j));
  }

  /** How the compensation follows from the Gram matrix: quantising column j moves a later column k by the
      rounding error of j times gram(j, k) over the damped diagonal entry of j, and no earlier column. */
  lemma ChargedByGram(gram: Matrix, w: seq<real>, grid: Grid, j: nat, k: nat)
    ensures var share := Share(Damped(gram));
            var moved := Work(w, grid, share, j, k) - Work(w, grid, share, j + 1, k);
            if k <= j then moved == 0.0
            else AtScale(MaxR(gram(j, j) + Damp(gram), 0.00000001), moved) == StepErr(w, grid, share, j) * gram(j, k)
  {
    var share := Share(Damped(gram));
    WorkStep(w, grid, share, j, k);
    if j < k {
      ChargeOfRatio(Work(w, grid, share, j, k), StepErr(w, grid, share, j), gram(j, k), MaxR(gram(j, j) + Damp(gram), 0.00000001));
    }
  }

  lemma ChargeOfRatio(x: real, err: real, g: real, d: real)
    requires d > 0.0
    ensures AtScale(d, x - Charge(x, err, g / d)) == err * g
  {
    assert g / d * d == g;
    assert x - Charge(x, err, g / d) == err * (g / d);
    assert d * (err * (g / d)) == err * (g / d * d);
  }

  // ----- emitting the parameters -----

  /** `gptq_sign` and `gptq_mant`: the compensated values re-expressed with the scales of e. */
  function Reencode(e: Block, q: seq<real>): Block
    requires Positive(e)
  {
    e.(sign := seq(BLK_SIZE, j requires 0 <= j < BLK_SIZE => Sign(SnapQ(At(q, j), TotalScale(e, j)))),
       mant := seq(BLK_SIZE, j requires 0 <= j < BLK_SIZE => Abs(SnapQ(At(q, j), TotalScale(e, j)))))
  }

  /** Re-rounding a value of the grid is exact. */
  lemma SnapTwice(x: real, s: real)
    requires s > 0.0
    ensures SnapQ(Snap(x, s), s) == SnapQ(x, s)
  {
    SnapOnGrid(SnapInt(x, s), s);
  }

  /** The emitted parameters stand for exactly the values whose loss was compared. */
  lemma ReencodeExact(e: Block, q: seq<real>, x: real, j: int)
    requires Positive(e) && 0 <= j < BLK_SIZE && At(q, j) == GridOf(e)(j, x)
    ensures Dequant(Reencode(e, q), j) == At(q, j)
  {
    ReencodeParts(e, q, x, j);
    GridValue(e, x, j);
    DequantOfParts(Reencode(e, q), SnapQ(x, TotalScale(e, j)), TotalScale(e, j), j);
  }

  lemma GridValue(e: Block, x: real, j: int)
    requires Positive(e) && 0 <= j < BLK_SIZE
    ensures GridOf(e)(j, x) == AtScale(SnapQ(x, TotalScale(e, j)), TotalScale(e, j))
  {}

  function AtScale(k: real, d: real): real {
    k * d
  }

  lemma ReencodeParts(e: Block, q: seq<real>, x: real, j: int)
    requires Positive(e) && 0 <= j < BLK_SIZE && At(q, j) == GridOf(e)(j, x)
    ensures var f, k := Reencode(e, q), SnapQ(x, TotalScale(e, j));
            && At(f.sign, j) == Sign(k) && At(f.mant, j) == Abs(k)
            && TotalScale(e, j) == f.sf * At(f.lv2, j / 8) * At(f.lv3, j / 4)
  {
    SnapTwice(x, TotalScale(e, j));
  }

  lemma DequantOfParts(f: Block, k: real, d: real, j: int)
    requires At(f.sign, j) == Sign(k) && At(f.mant, j) == Abs(k)
    requires d == f.sf * At(f.lv2, j / 8) * At(f.lv3, j / 4)
    ensures Dequant(f, j) == AtScale(k, d)
  {
    SignTimesAbs(k);
    ScaleProduct(k, At(f.lv3, j / 4), At(f.lv2, j / 8), f.sf);
  }

  lemma ScaleProduct(k: real, b: real, a: real, sf: real)
    ensures k * b * a * sf == k * (sf * a * b)
  {}

  lemma ReencodePositive(e: Block, q: seq<real>)
    requires Positive(e)
    ensures Positive(Reencode(e, q)) && SameScales(Reencode(e, q), e)
  {
    forall j | 0 <= j < BLK_SIZE ensures IsMantissa(Reencode(e, q).mant[j]) && IsSign(Reencode(e, q).sign[j]) {
      BlockSearch.MantissaOfSnap(At(q, j), TotalScale(e, j));
    }
  }

  predicate SameScales(e: Block, f: Block) {
    e.sf == f.sf && e.lv2 == f.lv2 && e.lv3 == f.lv3
  }

  // ----- one block, all rows -----

  /** The reconstruction errors of the rows of a block. */
  function ErrMatrix(blocks: seq<Block>, ws: seq<seq<real>>): Matrix
    requires |blocks| == |ws|
  {
    (i, j) => if 0 <= i < |blocks| then Dequant(blocks[i], j) - At(ws[i], j) else 0.0
  }

  /** The Gram-form loss of a block: the sum of gram o (E^T E). */
  function BlockLoss(gram: Matrix, blocks: seq<Block>, ws: seq<seq<real>>): real
    requires |blocks| == |ws|
  {
    GramLoss(BLK_SIZE, gram, Gram(|blocks|, ErrMatrix(blocks, ws)))
  }

  function ValueErrors(qs: seq<seq<real>>, ws: seq<seq<real>>): Matrix
    requires |qs| == |ws|
  {
    (i, j) => if 0 <= i < |qs| then At(qs[i], j) - At(ws[i], j) else 0.0
  }

  function ValueLoss(gram: Matrix, qs: seq<seq<real>>, ws: seq<seq<real>>): real
    requires |qs| == |ws|
  {
    GramLoss(BLK_SIZE, gram, Gram(|qs|, ValueErrors(qs, ws)))
  }

  predicate Legal(blocks: seq<Block>, ws: seq<seq<real>>) {
    |blocks| == |ws| && forall i :: 0 <= i < |ws| ==> Positive(blocks[i]) && |ws[i]| == BLK_SIZE
  }

  /** Loss depends on the error matrix only through its entries. */
  lemma LossCong(gram: Matrix, rows: nat, e: Matrix, f: Matrix)
    requires forall i, j :: 0 <= i < rows && 0 <= j < BLK_SIZE ==> e(i, j) == f(i, j)
    ensures GramLoss(BLK_SIZE, gram, Gram(rows, e)) == GramLoss(BLK_SIZE, gram, Gram(rows, f))
  {
    forall j, k | 0 <= j < BLK_SIZE && 0 <= k < BLK_SIZE ensures Gram(rows, e)(j, k) == Gram(rows, f)(j, k) {
      SumCong(rows, CrossTerm(e, e, j, k), CrossTerm(f, f, j, k));
    }
    Sum2Cong(BLK_SIZE, Times(gram, Gram(rows, e)), Times(gram, Gram(rows, f)));
  }

  /** The compensated values of every row of a block. */
  method CompensateRows(blocks: seq<Block>, ws: seq<seq<real>>, share: Matrix) returns (qs: seq<seq<real>>)
    requires Legal(blocks, ws)
    ensures |qs| == |ws|
    ensures forall i :: 0 <= i < |ws| ==> |qs[i]| == BLK_SIZE
    ensures forall i, j :: 0 <= i < |ws| && 0 <= j < BLK_SIZE ==>
              qs[i][j] == Compensated(ws[i], GridOf(blocks[i]), share, j)
  {
    qs := [];
    for i := 0 to |ws|
      invariant |qs| == i
      invariant forall r :: 0 <= r < i ==> |qs[r]| == BLK_SIZE
      invariant forall r, j :: 0 <= r < i && 0 <= j < BLK_SIZE ==>
                  qs[r][j] == Compensated(ws[r], GridOf(blocks[r]), share, j)
    {
      var q := Compensate(ws[i], GridOf(blocks[i]), share);
      qs := qs + [q];
    }
  }

  function ReencodeRows(blocks: seq<Block>, qs: seq<seq<real>>): (r: seq<Block>)
    requires |blocks| == |qs| && forall i :: 0 <= i < |blocks| ==> Positive(blocks[i])
    ensures |r| == |blocks|
  {
    seq(|blocks|, i requires 0 <= i < |blocks| => Reencode(blocks[i], qs[i]))
  }

  /** What the comparison saw is what the emitted parameters lose. */
  lemma EmittedLoss(gram: Matrix, blocks: seq<Block>, ws: seq<seq<real>>, share: Matrix, qs: seq<seq<real>>)
    requires Legal(blocks, ws) && |qs| == |ws|
    requires forall i :: 0 <= i < |ws| ==> |qs[i]| == BLK_SIZE
    requires forall i, j :: 0 <= i < |ws| && 0 <= j < BLK_SIZE ==>
               qs[i][j] == Compensated(ws[i], GridOf(blocks[i]), share, j)
    ensures BlockLoss(gram, ReencodeRows(blocks, qs), ws) == ValueLoss(gram, qs, ws)
  {
    var out := ReencodeRows(blocks, qs);
    forall i, j | 0 <= i < |ws| && 0 <= j < BLK_SIZE ensures ErrMatrix(out, ws)(i, j) == ValueErrors(qs, ws)(i, j) {
      ReencodeExact(blocks[i], qs[i], Work(ws[i], GridOf(blocks[i]), share, j, j), j);
    }
    LossCong(gram, |ws|, ErrMatrix(out, ws), ValueErrors(qs, ws));
  }

  /** The errors of full compensation, whether or not it is kept. */
  function CompensatedErrors(blocks: seq<Block>, ws: seq<seq<real>>, share: Matrix): Matrix
    requires Legal(blocks, ws)
  {
    (i, j) => if 0 <= i < |ws| && 0 <= j then Compensated(ws[i], GridOf(blocks[i]), share, j) - At(ws[i], j) else 0.0
  }

  function CompensatedLoss(gram: Matrix, blocks: seq<Block>, ws: seq<seq<real>>): real
    requires Legal(blocks, ws)
  {
    GramLoss(BLK_SIZE, gram, Gram(|ws|, CompensatedErrors(blocks, ws, Share(Damped(gram)))))
  }

  /** A block is switched exactly when compensation saves more than a tenth, and is otherwise
      untouched; its scales never change. */
  ghost predicate GptqResult(gram: Matrix, before: seq<Block>, ws: seq<seq<real>>, after: seq<Block>)
    requires Legal(before, ws)
  {
    && Legal(after, ws)
    && (forall i :: 0 <= i < |ws| ==> SameScales(after[i], before[i]))
    && (if CompensatedLoss(gram, before, ws) < 0.9 * BlockLoss(gram, before, ws)
        then BlockLoss(gram, after, ws) == CompensatedLoss(gram, before, ws)
        else after == before)
  }

  /** Compensate one block and keep the result exactly when its loss drops below nine tenths. */
  method GptqBlock(gram: Matrix, blocks: seq<Block>, ws: seq<seq<real>>) returns (out: seq<Block>, switched: bool)
    requires Legal(blocks, ws)
    ensures GptqResult(gram, blocks, ws, out)
    ensures !switched ==> out == blocks
  {
    var share := Share(Damped(gram));
    var qs := CompensateRows(blocks, ws, share);
    ComparedLoss(gram, blocks, ws, qs);
    switched := ValueLoss(gram, qs, ws) < BlockLoss(gram, blocks, ws) * 0.9;
    if switched {
      out := ReencodeRows(blocks, qs);
      EmittedLoss(gram, blocks, ws, share, qs);
      ReencodedRows(blocks, ws, qs);
    } else {
      out := blocks;
    }
  }

  lemma ComparedLoss(gram: Matrix, blocks: seq<Block>, ws: seq<seq<real>>, qs: seq<seq<real>>)
    requires Legal(blocks, ws) && |qs| == |ws| && forall i :: 0 <= i < |ws| ==> |qs[i]| == BLK_SIZE
    requires forall i, j :: 0 <= i < |ws| && 0 <= j < BLK_SIZE ==>
               qs[i][j] == Compensated(ws[i], GridOf(blocks[i]), Share(Damped(gram)), j)
    ensures ValueLoss(gram, qs, ws) == CompensatedLoss(gram, blocks, ws)
  {
    LossCong(gram, |ws|, ValueErrors(qs, ws), CompensatedErrors(blocks, ws, Share(Damped(gram))));
  }

  lemma ReencodedRows(blocks: seq<Block>, ws: seq<seq<real>>, qs: seq<seq<real>>)
    requires Legal(blocks, ws) && |qs| == |ws|
    ensures Legal(ReencodeRows(blocks, qs), ws)
    ensures forall i :: 0 <= i < |ws| ==> SameScales(ReencodeRows(blocks, qs)[i], blocks[i])
  {
    var out := ReencodeRows(blocks, qs);
    forall i | 0 <= i < |ws| ensures Positive(out[i]) && SameScales(out[i], blocks[i]) {
      ReencodePositive(blocks[i], qs[i]);
    }
  }

  // ----- all blocks -----

  predicate LegalTensor(grams: seq<Matrix>, cols: seq<seq<Block>>, ws: seq<seq<seq<real>>>) {
    |grams| == |cols| == |ws| && forall b :: 0 <= b < |cols| ==> Legal(cols[b], ws[b])
  }

  /** `_apply_block_gptq` and `_apply_activation_gptq`, block by block: cols[b][i] are the parameters
      of row i in block b, ws[b][i] its 64 values, grams[b] the Gram matrix of the block. */
  method ApplyGptq(grams: seq<Matrix>, cols: seq<seq<Block>>, ws: seq<seq<seq<real>>>) returns (out: seq<seq<Block>>)
    requires LegalTensor(grams, cols, ws)
    ensures |out| == |cols| && Handled(grams, cols, ws, out, |cols|)
  {
    out := cols;
    for b := 0 to |cols|
      invariant |out| == |cols| && Handled(grams, cols, ws, out, b)
      invariant forall a :: b <= a < |cols| ==> out[a] == cols[a]
    {
      var col, switched := GptqBlock(grams[b], cols[b], ws[b]);
      ghost var was := out;
      if switched {
        out := out[b := col];
      }
      assert out == was[b := col];
      HandledStep(grams, cols, ws, was, b, col);
    }
  }

  lemma HandledStep(grams: seq<Matrix>, cols: seq<seq<Block>>, ws: seq<seq<seq<real>>>, out: seq<seq<Block>>, n: nat, col: seq<Block>)
    requires LegalTensor(grams, cols, ws) && n < |cols| == |out|
    requires Handled(grams, cols, ws, out, n) && GptqResult(grams[n], cols[n], ws[n], col)
    ensures Handled(grams, cols, ws, out[n := col], n + 1)
  {}

  /** The first n blocks are compensated or kept. */
  ghost predicate Handled(grams: seq<Matrix>, cols: seq<seq<Block>>, ws: seq<seq<seq<real>>>, out: seq<seq<Block>>, n: nat)
    requires LegalTensor(grams, cols, ws) && n <= |cols| == |out|
  {
    forall b :: 0 <= b < n ==> GptqResult(grams[b], cols[b], ws[b], out[b])
  }

  // ----- what the loss means -----

  /** Rows of a tensor as a matrix. */
  function MatrixOf(rows: seq<seq<real>>): Matrix {
    (t, j) => if 0 <= t < |rows| then At(rows[t], j) else 0.0
  }

  /** `gram / max(total_tokens, 1)`. */
  function Averaged(m: nat, g: Matrix): Matrix {
    (j, k) => g(j, k) / TokenCount(m)
  }

  function TokenCount(m: nat): (n: real)
    ensures n >= 1.0
  {
    if m == 0 then 1.0 else m as real
  }

  /** The averaged Gram matrix of the rows xs. */
  function MeanGram(m: nat, xs: seq<seq<real>>): Matrix {
    Averaged(m, Gram(|xs|, MatrixOf(xs)))
  }

  /** In the entries of the rows: the mean over the rows of the product of columns j and k. */
  lemma MeanGramEntry(xs: seq<seq<real>>, j: int, k: int)
    ensures AtScale(if |xs| == 0 then 1.0 else |xs| as real, MeanGram(|xs|, xs)(j, k))
         == Sum(|xs|, t => if 0 <= t < |xs| then At(xs[t], j) * At(xs[t], k) else 0.0)
  {
    SumCong(|xs|, CrossTerm(MatrixOf(xs), MatrixOf(xs), j, k),
            t => if 0 <= t < |xs| then At(xs[t], j) * At(xs[t], k) else 0.0);
    MeanTimes(Gram(|xs|, MatrixOf(xs))(j, k), TokenCount(|xs|));
  }

  lemma MeanTimes(x: real, n: real)
    requires n >= 1.0
    ensures AtScale(n, x / n) == x
  {}

  /** Equal where a block looks. */
  ghost predicate SameCorner(g: Matrix, h: Matrix) {
    forall j, k :: 0 <= j < BLK_SIZE && 0 <= k < BLK_SIZE ==> g(j, k) == h(j, k)
  }

  /** The loss depends on a Gram matrix only through the entries of the block. */
  lemma SameLoss(g: Matrix, h: Matrix, blocks: seq<Block>, ws: seq<seq<real>>)
    requires |blocks| == |ws| && SameCorner(g, h)
    ensures BlockLoss(g, blocks, ws) == BlockLoss(h, blocks, ws)
  {
    var b := Gram(|blocks|, ErrMatrix(blocks, ws));
    Sum2Cong(BLK_SIZE, Times(g, b), Times(h, b));
  }

  /** The rows of the first n batches. */
  function Stacked(batches: seq<seq<seq<real>>>, n: nat): seq<seq<real>>
    requires n <= |batches|
  {
    if n == 0 then [] else Stacked(batches, n - 1) + batches[n - 1]
  }

  function AllRows(batches: seq<seq<seq<real>>>): seq<seq<real>> {
    Stacked(batches, |batches|)
  }

  lemma GramOfConcat(a: seq<seq<real>>, b: seq<seq<real>>, j: int, k: int)
    ensures Gram(|a + b|, MatrixOf(a + b))(j, k) == Gram(|a|, MatrixOf(a))(j, k) + Gram(|b|, MatrixOf(b))(j, k)
  {
    var x := MatrixOf(a + b);
    var f := CrossTerm(x, x, j, k);
    SumSplit(|a|, |b|, f);
    SumCong(|a|, f, CrossTerm(MatrixOf(a), MatrixOf(a), j, k));
    SumCong(|b|, i => f(|a| + i), CrossTerm(MatrixOf(b), MatrixOf(b), j, k));
  }

  function AddGram(g: Matrix, act: seq<seq<real>>): Matrix {
    (j, k) => g(j, k) + Gram(|act|, MatrixOf(act))(j, k)
  }

  /** The calibration loop for one block: Gram matrices of the batches are added up, then averaged
      over the number of tokens. */
  method CalibrationGram(batches: seq<seq<seq<real>>>) returns (g: Matrix)
    ensures SameCorner(g, MeanGram(|AllRows(batches)|, AllRows(batches)))
  {
    var acc: Matrix := (j, k) => 0.0;
    var total := 0;
    for n := 0 to |batches|
      invariant total == |Stacked(batches, n)|
      invariant forall j, k :: acc(j, k) == Gram(total, MatrixOf(Stacked(batches, n)))(j, k)
    {
      forall j, k
        ensures AddGram(acc, batches[n])(j, k)
             == Gram(|Stacked(batches, n + 1)|, MatrixOf(Stacked(batches, n + 1)))(j, k)
      {
        GramOfConcat(Stacked(batches, n), batches[n], j, k);
      }
      acc := AddGram(acc, batches[n]);
      total := total + |batches[n]|;
    }
    g := Averaged(total, acc);
  }

  /** Weights: the compared loss is the mean squared output error of the block over the calibration rows. */
  lemma WeightLossIsOutputError(xs: seq<seq<real>>, blocks: seq<Block>, ws: seq<seq<real>>)
    requires |blocks| == |ws|
    ensures IsMean(BlockLoss(MeanGram(|xs|, xs), blocks, ws),
                   OutputError(|xs|, |ws|, BLK_SIZE, ErrMatrix(blocks, ws), MatrixOf(xs)), TokenCount(|xs|))
  {
    var g, e := Gram(|xs|, MatrixOf(xs)), ErrMatrix(blocks, ws);
    GramLossIsOutputError(|xs|, |ws|, BLK_SIZE, e, MatrixOf(xs));
    AveragedLoss(BLK_SIZE, |xs|, g, Gram(|ws|, e));
  }

  ghost predicate IsMean(mean: real, total: real, count: real) {
    total == count * mean
  }

  lemma AveragedLoss(n: nat, m: nat, g: Matrix, b: Matrix)
    ensures IsMean(GramLoss(n, Averaged(m, g), b), GramLoss(n, g, b), TokenCount(m))
  {
    var c := TokenCount(m);
    forall i, j | 0 <= i < n && 0 <= j < n
      ensures Times(g, b)(i, j) == c * Times(Averaged(m, g), b)(i, j)
    {
      QuotientTimes(g(i, j), b(i, j), c);
    }
    Sum2Scale(n, c, Times(Averaged(m, g), b), Times(g, b));
  }

  lemma QuotientTimes(x: real, y: real, n: real)
    requires n >= 1.0
    ensures x * y == n * (x / n * y)
  {
    assert n * (x / n) == x;
  }

  /** Activations: with the weight Gram, the compared loss is the squared output error of the block. */
  lemma ActivationLossIsOutputError(what: seq<seq<real>>, blocks: seq<Block>, xs: seq<seq<real>>)
    requires |blocks| == |xs|
    ensures BlockLoss(Gram(|what|, MatrixOf(what)), blocks, xs)
         == OutputError(|what|, |xs|, BLK_SIZE, ErrMatrix(blocks, xs), MatrixOf(what))
  {
    GramLossIsOutputError(|what|, |xs|, BLK_SIZE, ErrMatrix(blocks, xs), MatrixOf(what));
  }

  lemma OutputErrorNonNeg(m: nat, rows: nat, n: nat, e: Matrix, x: Matrix)
    ensures 0.0 <= OutputError(m, rows, n, e, x)
  {
    forall t | 0 <= t < m ensures 0.0 <= OutputErrorAt(rows, n, e, x)(t) {
      forall i | 0 <= i < rows ensures 0.0 <= SquaredOutput(n, e, x, t)(i) {
        SqNonNeg(RowDot(n, e, i, x, t));
      }
      SumNonNeg(rows, SquaredOutput(n, e, x, t));
    }
    SumNonNeg(m, OutputErrorAt(rows, n, e, x));
  }

  /** For any matrix with the entries of an averaged Gram matrix: a block is left as it is, or loses more
      than a tenth of its loss; so no block gets worse. */
  lemma NeverWorse(g: Matrix, xs: seq<seq<real>>, m: nat, before: seq<Block>, ws: seq<seq<real>>, after: seq<Block>)
    requires Legal(before, ws) && SameCorner(g, MeanGram(m, xs)) && GptqResult(g, before, ws, after)
    ensures 0.0 <= BlockLoss(MeanGram(m, xs), after, ws) <= BlockLoss(MeanGram(m, xs), before, ws)
    ensures after == before || BlockLoss(MeanGram(m, xs), after, ws) < 0.9 * BlockLoss(MeanGram(m, xs), before, ws)
  {
    SameLoss(g, MeanGram(m, xs), before, ws);
    SameLoss(g, MeanGram(m, xs), after, ws);
    GramLossNonNeg(xs, m, before, ws);
    GramLossNonNeg(xs, m, after, ws);
  }

  lemma GramLossNonNeg(xs: seq<seq<real>>, m: nat, blocks: seq<Block>, ws: seq<seq<real>>)
    requires |blocks| == |ws|
    ensures 0.0 <= BlockLoss(MeanGram(m, xs), blocks, ws)
  {
    var e := ErrMatrix(blocks, ws);
    AveragedLoss(BLK_SIZE, m, Gram(|xs|, MatrixOf(xs)), Gram(|ws|, e));
    GramLossIsOutputError(|xs|, |ws|, BLK_SIZE, e, MatrixOf(xs));
    OutputErrorNonNeg(|xs|, |ws|, BLK_SIZE, e, MatrixOf(xs));
    FactorNonNeg(TokenCount(m), BlockLoss(MeanGram(m, xs), blocks, ws));
  }

  lemma FactorNonNeg(n: real, x: real)
    requires 0.0 <= n * x && n >= 1.0
    ensures 0.0 <= x
  {}

  /** On the activation side too: against the weight Gram the result is never worse than the standard parameters. */
  lemma ActivationNeverWorse(what: seq<seq<real>>, before: seq<Block>, xs: seq<seq<real>>, after: seq<Block>)
    requires Legal(before, xs) && GptqResult(Gram(|what|, MatrixOf(what)), before, xs, after)
    ensures OutputError(|what|, |xs|, BLK_SIZE, ErrMatrix(after, xs), MatrixOf(what))
         <= OutputError(|what|, |xs|, BLK_SIZE, ErrMatrix(before, xs), MatrixOf(what))
  {
    ActivationLossIsOutputError(what, before, xs);
    ActivationLossIsOutputError(what, after, xs);
    OutputErrorNonNeg(|what|, |xs|, BLK_SIZE, ErrMatrix(before, xs), MatrixOf(what));
  }

  // ----- calibration and compensation together -----

  /** The squared error of the block's outputs over the rows xs. */
  function BlockOutputError(xs: seq<seq<real>>, blocks: seq<Block>, ws: seq<seq<real>>): real
    requires |blocks| == |ws|
  {
    OutputError(|xs|, |ws|, BLK_SIZE, ErrMatrix(blocks, ws), MatrixOf(xs))
  }

  /** The scales are kept, and so is the block, or its squared output error over the rows xs drops by more
      than a tenth. */
  ghost predicate Improved(xs: seq<seq<real>>, before: seq<Block>, ws: seq<seq<real>>, after: seq<Block>) {
    && Legal(before, ws) && Legal(after, ws)
    && (forall i :: 0 <= i < |ws| ==> SameScales(after[i], before[i]))
    && BlockOutputError(xs, after, ws) <= BlockOutputError(xs, before, ws)
    && (after == before || BlockOutputError(xs, after, ws) < 0.9 * BlockOutputError(xs, before, ws))
  }

  /** What the calibrated switch means for the outputs: a block is left as it is, or its squared output
      error over the calibration rows drops by more than a tenth. */
  lemma OutputNeverWorse(g: Matrix, xs: seq<seq<real>>, before: seq<Block>, ws: seq<seq<real>>, after: seq<Block>)
    requires Legal(before, ws) && SameCorner(g, MeanGram(|xs|, xs)) && GptqResult(g, before, ws, after)
    ensures Improved(xs, before, ws, after)
  {
    NeverWorse(g, xs, |xs|, before, ws, after);
    WeightLossIsOutputError(xs, before, ws);
    WeightLossIsOutputError(xs, after, ws);
    MeansToTotals(BlockLoss(MeanGram(|xs|, xs), after, ws), BlockLoss(MeanGram(|xs|, xs), before, ws),
                  BlockOutputError(xs, after, ws), BlockOutputError(xs, before, ws), TokenCount(|xs|));
  }

  lemma MeansToTotals(a: real, b: real, ta: real, tb: real, n: real)
    requires n >= 1.0 && IsMean(a, ta, n) && IsMean(b, tb, n) && a <= b
    ensures ta <= tb
    ensures a < 0.9 * b ==> ta < 0.9 * tb
  {
    MulMono(a, b, n);
    if a < 0.9 * b {
      StrictMulMono(a, 0.9 * b, n);
    }
  }

  /** The output errors of all blocks, added up. */
  function TotalOutputError(xs: seq<seq<seq<real>>>, cols: seq<seq<Block>>, ws: seq<seq<seq<real>>>): real {
    Sum(|cols|, OutputErrorOf(xs, cols, ws))
  }

  function OutputErrorOf(xs: seq<seq<seq<real>>>, cols: seq<seq<Block>>, ws: seq<seq<seq<real>>>): int -> real {
    b => if 0 <= b < |cols| && b < |ws| && b < |xs| && |cols[b]| == |ws[b]| then BlockOutputError(xs[b], cols[b], ws[b]) else 0.0
  }

  /** Over all blocks the output error never rises. */
  lemma TotalNeverWorse(grams: seq<Matrix>, xs: seq<seq<seq<real>>>, cols: seq<seq<Block>>, ws: seq<seq<seq<real>>>, out: seq<seq<Block>>)
    requires LegalTensor(grams, cols, ws) && |xs| == |cols| == |out|
    requires forall b :: 0 <= b < |ws| ==> SameCorner(grams[b], MeanGram(|xs[b]|, xs[b]))
    requires Handled(grams, cols, ws, out, |cols|)
    ensures TotalOutputError(xs, out, ws) <= TotalOutputError(xs, cols, ws)
  {
    forall b | 0 <= b < |ws| ensures OutputErrorOf(xs, out, ws)(b) <= OutputErrorOf(xs, cols, ws)(b) {
      OutputNeverWorse(grams[b], xs[b], cols[b], ws[b], out[b]);
    }
    SumMono(|ws|, OutputErrorOf(xs, out, ws), OutputErrorOf(xs, cols, ws));
  }

  function RowsOf(batches: seq<seq<seq<seq<real>>>>): (xs: seq<seq<seq<real>>>)
    ensures |xs| == |batches| && forall b :: 0 <= b < |batches| ==> xs[b] == AllRows(batches[b])
  {
    seq(|batches|, b requires 0 <= b < |batches| => AllRows(batches[b]))
  }

  /** `_apply_block_gptq`: calibration, compensation and the guarded switch. batches[b] are the calibration
      batches of block b. Scales stay; every block is kept or loses more than a tenth of its output error;
      the total never rises. */
  method CalibratedGptq(batches: seq<seq<seq<seq<real>>>>, cols: seq<seq<Block>>, ws: seq<seq<seq<real>>>)
    returns (out: seq<seq<Block>>)
    requires |batches| == |cols| == |ws| && forall b :: 0 <= b < |cols| ==> Legal(cols[b], ws[b])
    ensures |out| == |cols| && forall b :: 0 <= b < |out| ==> Improved(AllRows(batches[b]), cols[b], ws[b], out[b])
    ensures TotalOutputError(RowsOf(batches), out, ws) <= TotalOutputError(RowsOf(batches), cols, ws)
  {
    var grams := CalibrationGrams(batches);
    out := ApplyGptq(grams, cols, ws);
    TotalNeverWorse(grams, RowsOf(batches), cols, ws, out);
    forall b | 0 <= b < |out| ensures Improved(AllRows(batches[b]), cols[b], ws[b], out[b]) {
      OutputNeverWorse(grams[b], AllRows(batches[b]), cols[b], ws[b], out[b]);
    }
  }

  method CalibrationGrams(batches: seq<seq<seq<seq<real>>>>) returns (grams: seq<Matrix>)
    ensures |grams| == |batches|
    ensures forall b :: 0 <= b < |batches| ==> SameCorner(grams[b], MeanGram(|AllRows(batches[b])|, AllRows(batches[b])))
  {
    grams := [];
    for n := 0 to |batches|
      invariant |grams| == n
      invariant forall b :: 0 <= b < n ==> SameCorner(grams[b], MeanGram(|AllRows(batches[b])|, AllRows(batches[b])))
    {
      var g := CalibrationGram(batches[n]);
      grams := grams + [g];
    }
  }
}
