/** `_quantize_hif4`: rows of C channels, quantised chunk by chunk. */
module RowChunks {
  import opened Sums
  import opened HiF4
  import opened Baseline
  import opened ScaleSearch
  import opened TensorQuantizer
  import opened Indexing

  /** The importance argument of a matrix: none, one weight per channel, or one row of weights per
      row of the matrix (a single row is broadcast). */
  datatype MatrixImportance = Absent | PerChannel(c: seq<real>) | PerRow(rows: seq<seq<real>>)

  /** A matrix of rows of `channels` values, channels a multiple of 64. */
  predicate Rectangular(rows: seq<seq<real>>, channels: nat) {
    channels % BLK_SIZE == 0 && forall i :: 0 <= i < |rows| ==> |rows[i]| == channels
  }

  /** What broadcasting accepts: as many weight rows as matrix rows, or one. */
  predicate Broadcastable(imp: MatrixImportance, m: nat) {
    imp.PerRow? ==> (|imp.rows| == m || |imp.rows| == 1)
  }

  /** The number of blocks in k rows. */
  function BlockCount(k: nat, channels: nat): nat {
    k * (channels / BLK_SIZE)
  }

  lemma BlockCountSplits(start: nat, end: nat, m: nat, channels: nat)
    requires start <= end <= m
    ensures BlockCount(start, channels) + BlockCount(end - start, channels) == BlockCount(end, channels)
    ensures BlockCount(end, channels) <= BlockCount(m, channels)
  {
    var nb := channels / BLK_SIZE;
    assert start * nb + (end - start) * nb == end * nb;
    assert end * nb + (m - end) * nb == m * nb;
  }

  /** Block t of the matrix, counting along the rows. */
  function BlockOf(rows: seq<seq<real>>, channels: nat, t: int): (w: seq<real>)
    requires Rectangular(rows, channels) && 0 <= t < BlockCount(|rows|, channels)
    ensures |w| == BLK_SIZE
  {
    var nb := channels / BLK_SIZE;
    RowOfBlock(|rows|, nb, t);
    rows[t / nb][t % nb * BLK_SIZE..t % nb * BLK_SIZE + BLK_SIZE]
  }

  lemma RowOfBlock(m: nat, nb: nat, t: int)
    requires 0 <= t < m * nb
    ensures 0 < nb && 0 <= t / nb < m && 0 <= t % nb < nb
  {
    assert nb != 0;
    assert t / nb * nb + t % nb == t;
    LessFromProduct(t / nb, m, nb);
  }

  /** The weights of block t; weights for the wrong number of channels are ignored. */
  function ImportanceOf(imp: MatrixImportance, m: nat, channels: nat, t: int): Importance
    requires Broadcastable(imp, m) && channels % BLK_SIZE == 0 && 0 <= t < BlockCount(m, channels)
  {
    var nb := channels / BLK_SIZE;
    RowOfBlock(m, nb, t);
    match imp
    case Absent => Uniform
    case PerChannel(c) => BlockWeights(c, channels, t % nb)
    case PerRow(rs) => BlockWeights(if |rs| == m then rs[t / nb] else rs[0], channels, t % nb)
  }

  function BlockWeights(c: seq<real>, channels: nat, b: int): Importance
    requires channels % BLK_SIZE == 0 && 0 <= b < channels / BLK_SIZE
  {
    if |c| != channels then Uniform else Weights(c[b * BLK_SIZE..b * BLK_SIZE + BLK_SIZE])
  }

  /** What a quantiser does with one block and its weights. */
  type BlockMap = (seq<real>, Importance) -> Block

  /** The search over n candidates. */
  function Searcher(n: int): BlockMap
    requires 2 <= n
  {
    (w, i) => SearchBlock(w, i, n)
  }

  /** The encoding of block t of a matrix under the block quantiser f. */
  ghost function Wanted(rows: seq<seq<real>>, imp: MatrixImportance, channels: nat, f: BlockMap, t: int): Block
    requires Rectangular(rows, channels) && Broadcastable(imp, |rows|)
    requires 0 <= t < BlockCount(|rows|, channels)
  {
    f(BlockOf(rows, channels, t), ImportanceOf(imp, |rows|, channels, t))
  }

  /** bs are the encodings of the first k rows. */
  ghost predicate Agrees(bs: seq<Block>, rows: seq<seq<real>>, imp: MatrixImportance, channels: nat, f: BlockMap, k: int)
    requires Rectangular(rows, channels) && Broadcastable(imp, |rows|)
  {
    && 0 <= k <= |rows| && |bs| == BlockCount(k, channels) <= BlockCount(|rows|, channels)
    && forall t :: 0 <= t < |bs| ==> bs[t] == Wanted(rows, imp, channels, f, t)
  }

  /** p holds the searched encoding of every block of the matrix. */
  ghost predicate Quantized(p: Params, rows: seq<seq<real>>, imp: MatrixImportance, channels: nat, n: int)
    requires Rectangular(rows, channels) && Broadcastable(imp, |rows|) && 2 <= n
  {
    Sized(p, |p.sf|) && Agrees(Blocks(p), rows, imp, channels, Searcher(n), |rows|)
  }

  /** One call of the candidate loop on a matrix. */
  method QuantizeMatrix(rows: seq<seq<real>>, imp: MatrixImportance, channels: nat, n: int) returns (p: Params)
    requires Rectangular(rows, channels) && Broadcastable(imp, |rows|) && 2 <= n
    ensures Quantized(p, rows, imp, channels, n)
  {
    var total := BlockCount(|rows|, channels);
    var ws := seq(total, t requires 0 <= t < total => BlockOf(rows, channels, t));
    var imps := seq(total, t requires 0 <= t < total => ImportanceOf(imp, |rows|, channels, t));
    p := QuantizeImpl(ws, imps, n);
    forall t | 0 <= t < total ensures Blocks(p)[t] == Wanted(rows, imp, channels, Searcher(n), t) {
      assert ws[t] == BlockOf(rows, channels, t) && imps[t] == ImportanceOf(imp, |rows|, channels, t);
    }
  }

  function Concat(p: Params, q: Params): Params {
    Params(p.sf + q.sf, p.lv2 + q.lv2, p.lv3 + q.lv3, p.sign + q.sign, p.mant + q.mant)
  }

  /** The importance passed along with rows start..end. */
  function ChunkImportance(imp: MatrixImportance, m: nat, start: nat, end: nat): MatrixImportance
    requires start <= end <= m
  {
    if imp.PerRow? && |imp.rows| == m then PerRow(imp.rows[start..end]) else imp
  }

  /** Block t of the chunk starting at row `start` is block start*nb + t of the matrix. */
  lemma ChunkBlock(rows: seq<seq<real>>, imp: MatrixImportance, channels: nat, start: nat, end: nat, t: int)
    requires Rectangular(rows, channels) && Broadcastable(imp, |rows|) && start < end <= |rows| && 1 < |rows|
    requires 0 <= t < BlockCount(end - start, channels)
    ensures 0 <= BlockCount(start, channels) + t < BlockCount(|rows|, channels)
    ensures BlockOf(rows[start..end], channels, t) == BlockOf(rows, channels, BlockCount(start, channels) + t)
    ensures Broadcastable(ChunkImportance(imp, |rows|, start, end), end - start)
    ensures ImportanceOf(ChunkImportance(imp, |rows|, start, end), end - start, channels, t)
         == ImportanceOf(imp, |rows|, channels, BlockCount(start, channels) + t)
  {
    var nb := channels / BLK_SIZE;
    RowOfBlock(end - start, nb, t);
    ShiftedDivMod(start, nb, t);
    BlockCountSplits(start, end, |rows|, channels);
  }

  lemma ChunkWanted(rows: seq<seq<real>>, imp: MatrixImportance, channels: nat, f: BlockMap, start: nat, end: nat, t: int)
    requires Rectangular(rows, channels) && Broadcastable(imp, |rows|) && start < end <= |rows| && 1 < |rows|
    requires 0 <= t < BlockCount(end - start, channels)
    ensures Broadcastable(ChunkImportance(imp, |rows|, start, end), end - start)
    ensures BlockCount(start, channels) + t < BlockCount(|rows|, channels)
    ensures Wanted(rows[start..end], ChunkImportance(imp, |rows|, start, end), channels, f, t)
         == Wanted(rows, imp, channels, f, BlockCount(start, channels) + t)
  {
    ChunkBlock(rows, imp, channels, start, end, t);
  }

  function Blocks(p: Params): (bs: seq<Block>)
    requires Sized(p, |p.sf|)
    ensures |bs| == |p.sf|
  {
    seq(|p.sf|, b requires 0 <= b < |p.sf| => BlockAt(p, b))
  }

  lemma BlocksConcat(p: Params, q: Params)
    requires Sized(p, |p.sf|) && Sized(q, |q.sf|)
    ensures Blocks(Concat(p, q)) == Blocks(p) + Blocks(q)
  {}

  /** Appending the encodings of rows start..end to those of the rows before. */
  lemma ChunkAppends(bs: seq<Block>, cs: seq<Block>, rows: seq<seq<real>>, imp: MatrixImportance, channels: nat, f: BlockMap,
                     start: nat, end: nat)
    requires Rectangular(rows, channels) && Broadcastable(imp, |rows|) && 1 < |rows| && start < end <= |rows|
    requires Agrees(bs, rows, imp, channels, f, start)
    requires Broadcastable(ChunkImportance(imp, |rows|, start, end), end - start)
    requires Agrees(cs, rows[start..end], ChunkImportance(imp, |rows|, start, end), channels, f, end - start)
    ensures Agrees(bs + cs, rows, imp, channels, f, end)
  {
    BlockCountSplits(start, end, |rows|, channels);
    var done := BlockCount(start, channels);
    forall t | 0 <= t < |bs + cs| ensures (bs + cs)[t] == Wanted(rows, imp, channels, f, t) {
      if t >= done {
        ChunkWanted(rows, imp, channels, f, start, end, t - done);
      }
    }
  }

  /** Chunked quantisation of any chunk size gives the unchunked result, block for block. */
  method QuantizeChunks(rows: seq<seq<real>>, imp: MatrixImportance, channels: nat, n: int, chunk: nat) returns (p: Params)
    requires Rectangular(rows, channels) && Broadcastable(imp, |rows|) && 2 <= n && 1 <= chunk
    ensures Quantized(p, rows, imp, channels, n)
  {
    if |rows| <= chunk {
      p := QuantizeMatrix(rows, imp, channels, n);
      return;
    }
    p := Params([], [], [], [], []);
    var start := 0;
    while start < |rows|
      invariant 0 <= start <= |rows| && Sized(p, |p.sf|)
      invariant Agrees(Blocks(p), rows, imp, channels, Searcher(n), start)
    {
      var end := if start + chunk < |rows| then start + chunk else |rows|;
      var r := QuantizeMatrix(rows[start..end], ChunkImportance(imp, |rows|, start, end), channels, n);
      ChunkAppends(Blocks(p), Blocks(r), rows, imp, channels, Searcher(n), start, end);
      BlocksConcat(p, r);
      p := Concat(p, r);
      start := end;
    }
  }

  // ----- what the blocks hold, entry by entry -----

  /** Channel c of row i is element c mod 64 of block c div 64 of that row. */
  lemma PlaceOfEntry(nb: nat, i: nat, c: nat)
    requires c < nb * 64
    ensures var t := i * nb + c / 64; t / nb == i && t % nb == c / 64 && t % nb * 64 + c % 64 == c
  {
    LessFromProduct(c / 64, nb, 64);
    DivModUnique(i * nb + c / 64, nb, i, c / 64);
  }

  lemma BlockInMatrix(m: nat, nb: nat, i: nat, b: nat)
    requires i < m && b < nb
    ensures i * nb + b < m * nb
  {
    var k := m - i - 1;
    assert k * nb >= 0;
    assert (i + 1 + k) * nb == i * nb + nb + k * nb;
  }

  /** The blocks of row i, one after the other, are row i: every entry is in exactly its place. */
  lemma BlockEntry(rows: seq<seq<real>>, channels: nat, i: nat, c: nat)
    requires Rectangular(rows, channels) && i < |rows| && c < channels
    ensures var t := i * (channels / BLK_SIZE) + c / BLK_SIZE;
            t < BlockCount(|rows|, channels) && BlockOf(rows, channels, t)[c % BLK_SIZE] == rows[i][c]
  {
    var nb := channels / BLK_SIZE;
    PlaceOfEntry(nb, i, c);
    BlockInMatrix(|rows|, nb, i, c / BLK_SIZE);
  }

  /** The weight of channel c of row i: one where there is none, or where the number of channels is wrong. */
  function WeightAt(imp: MatrixImportance, m: nat, channels: nat, i: nat, c: nat): real
    requires Broadcastable(imp, m) && i < m && c < channels
  {
    match imp
    case Absent => 1.0
    case PerChannel(ws) => if |ws| == channels then ws[c] else 1.0
    case PerRow(rs) =>
      var ws := if |rs| == 1 then rs[0] else rs[i];
      if |ws| == channels then ws[c] else 1.0
  }

  /** Every entry is weighted with its own weight. */
  lemma WeightEntry(imp: MatrixImportance, m: nat, channels: nat, i: nat, c: nat)
    requires Broadcastable(imp, m) && channels % BLK_SIZE == 0 && i < m && c < channels
    ensures var t := i * (channels / BLK_SIZE) + c / BLK_SIZE;
            && t < BlockCount(m, channels)
            && Weight(ImportanceOf(imp, m, channels, t), c % BLK_SIZE) == WeightAt(imp, m, channels, i, c)
  {
    var nb := channels / BLK_SIZE;
    PlaceOfEntry(nb, i, c);
    BlockInMatrix(m, nb, i, c / BLK_SIZE);
  }

  // ----- the error of a matrix -----

  /** The decoded value of channel c of row i. */
  function Decoded(bs: seq<Block>, channels: nat, i: nat, c: nat): real
    requires channels % BLK_SIZE == 0
  {
    var t := i * (channels / BLK_SIZE) + c / BLK_SIZE;
    if t < |bs| then Dequant(bs[t], c % BLK_SIZE) else 0.0
  }

  function WeightedSquare(weight: real, v: real, x: real): real {
    weight * Sq(v - x)
  }

  lemma TermIs(w: seq<real>, imp: Importance, j: int, v: real)
    ensures Term(w, imp, j, v) == WeightedSquare(Weight(imp, j), v, At(w, j))
  {}

  /** The weighted squared error of channel c of row i. */
  function EntryTerm(bs: seq<Block>, rows: seq<seq<real>>, imp: MatrixImportance, channels: nat, i: nat, c: nat): real
    requires Rectangular(rows, channels) && Broadcastable(imp, |rows|) && i < |rows| && c < channels
  {
    WeightedSquare(WeightAt(imp, |rows|, channels, i, c), Decoded(bs, channels, i, c), rows[i][c])
  }

  /** The same, with the entries of the matrix counted along the rows. */
  function EntryLoss(bs: seq<Block>, rows: seq<seq<real>>, imp: MatrixImportance, channels: nat): int -> real
    requires Rectangular(rows, channels) && Broadcastable(imp, |rows|)
  {
    e => if channels > 0 && 0 <= e && e / channels < |rows|
         then EntryTerm(bs, rows, imp, channels, e / channels, e % channels)
         else 0.0
  }

  /** The error of the whole matrix: over all rows, over all channels of the row. */
  function MatrixErr(bs: seq<Block>, rows: seq<seq<real>>, imp: MatrixImportance, channels: nat): real
    requires Rectangular(rows, channels) && Broadcastable(imp, |rows|)
  {
    Sum(|rows|, Runs(channels, EntryLoss(bs, rows, imp, channels)))
  }

  /** The errors of the blocks. */
  ghost function BlockErrs(bs: seq<Block>, rows: seq<seq<real>>, imp: MatrixImportance, channels: nat): int -> real
    requires Rectangular(rows, channels) && Broadcastable(imp, |rows|)
  {
    t => if 0 <= t < |bs| && t < BlockCount(|rows|, channels)
         then Err(BlockOf(rows, channels, t), ImportanceOf(imp, |rows|, channels, t), bs[t]) else 0.0
  }

  /** Entry t * 64 + j of the matrix, as row and channel. */
  lemma EntryOfBlock(m: nat, nb: nat, t: nat, j: nat)
    requires t < m * nb && j < 64
    ensures 0 < nb
    ensures var e, i, c := t * 64 + j, t / nb, t % nb * 64 + j;
            && i < m && c < nb * 64 && e / (nb * 64) == i && e % (nb * 64) == c && e < m * (nb * 64)
            && i * nb + c / 64 == t && c % 64 == j
  {
    RowOfBlock(m, nb, t);
    var i, b := t / nb, t % nb;
    assert t == i * nb + b;
    var c := b * 64 + j;
    DivModUnique(c, 64, b, j);
    assert c < nb * 64;
    EntryNumber(i, nb, b, j, t);
    DivModUnique(t * 64 + j, nb * 64, i, c);
    assert m * (nb * 64) == m * nb * 64;
  }

  lemma EntryNumber(i: int, nb: int, b: int, j: int, t: int)
    requires t == i * nb + b
    ensures t * 64 + j == i * (nb * 64) + (b * 64 + j)
  {}

  lemma BlockTerm(bs: seq<Block>, rows: seq<seq<real>>, imp: MatrixImportance, channels: nat, t: nat, j: nat)
    requires Rectangular(rows, channels) && Broadcastable(imp, |rows|)
    requires t < |bs| == BlockCount(|rows|, channels) && j < BLK_SIZE
    ensures EntryLoss(bs, rows, imp, channels)(t * BLK_SIZE + j)
         == Term(BlockOf(rows, channels, t), ImportanceOf(imp, |rows|, channels, t), j, Dequant(bs[t], j))
  {
    var nb := channels / BLK_SIZE;
    EntryOfBlock(|rows|, nb, t, j);
    TermOfEntry(bs, rows, imp, channels, t / nb, t % nb * BLK_SIZE + j, t, j);
  }

  lemma TermOfEntry(bs: seq<Block>, rows: seq<seq<real>>, imp: MatrixImportance, channels: nat, i: nat, c: nat, t: nat, j: nat)
    requires Rectangular(rows, channels) && Broadcastable(imp, |rows|) && i < |rows| && c < channels
    requires t == i * (channels / BLK_SIZE) + c / BLK_SIZE && j == c % BLK_SIZE && t < |bs| == BlockCount(|rows|, channels)
    ensures EntryTerm(bs, rows, imp, channels, i, c)
         == Term(BlockOf(rows, channels, t), ImportanceOf(imp, |rows|, channels, t), j, Dequant(bs[t], j))
  {
    BlockEntry(rows, channels, i, c);
    WeightEntry(imp, |rows|, channels, i, c);
    TermIs(BlockOf(rows, channels, t), ImportanceOf(imp, |rows|, channels, t), j, Dequant(bs[t], j));
  }

  /** The block errors add up to the error over all entries of the matrix. */
  lemma BlockErrsSum(bs: seq<Block>, rows: seq<seq<real>>, imp: MatrixImportance, channels: nat)
    requires Rectangular(rows, channels) && Broadcastable(imp, |rows|) && |bs| == BlockCount(|rows|, channels)
    ensures MatrixErr(bs, rows, imp, channels) == Sum(|bs|, BlockErrs(bs, rows, imp, channels))
  {
    var f := EntryLoss(bs, rows, imp, channels);
    forall t | 0 <= t < |bs| ensures Runs(BLK_SIZE, f)(t) == BlockErrs(bs, rows, imp, channels)(t) {
      BlockRun(bs, rows, imp, channels, t);
    }
    SumOfRuns(|rows|, channels, f);
    SumOfRuns(|bs|, BLK_SIZE, f);
    EntriesOfBlocks(|rows|, channels);
    SumCong(|bs|, Runs(BLK_SIZE, f), BlockErrs(bs, rows, imp, channels));
  }

  lemma EntriesOfBlocks(m: nat, channels: nat)
    requires channels % BLK_SIZE == 0
    ensures BlockCount(m, channels) * BLK_SIZE == m * channels
  {
    var nb := channels / BLK_SIZE;
    assert m * nb * 64 == m * (nb * 64);
  }

  lemma BlockRun(bs: seq<Block>, rows: seq<seq<real>>, imp: MatrixImportance, channels: nat, t: nat)
    requires Rectangular(rows, channels) && Broadcastable(imp, |rows|) && t < |bs| == BlockCount(|rows|, channels)
    ensures RunSum(BLK_SIZE, EntryLoss(bs, rows, imp, channels), t) == BlockErrs(bs, rows, imp, channels)(t)
  {
    var f := EntryLoss(bs, rows, imp, channels);
    var w, i := BlockOf(rows, channels, t), ImportanceOf(imp, |rows|, channels, t);
    forall j | 0 <= j < BLK_SIZE ensures f(t * BLK_SIZE + j) == Loss(w, i, Values(bs[t]))(j) {
      BlockTerm(bs, rows, imp, channels, t, j);
    }
    SumCong(BLK_SIZE, j => f(t * BLK_SIZE + j), Loss(w, i, Values(bs[t])));
  }

  // ----- the matrix against Algorithm 1 -----

  /** No weight is negative. */
  predicate NonNegative(imp: MatrixImportance) {
    match imp
    case Absent => true
    case PerChannel(c) => forall k :: 0 <= k < |c| ==> 0.0 <= c[k]
    case PerRow(rs) => forall i, k :: 0 <= i < |rs| && 0 <= k < |rs[i]| ==> 0.0 <= rs[i][k]
  }

  lemma WeightsValid(imp: MatrixImportance, m: nat, channels: nat, t: int)
    requires Broadcastable(imp, m) && NonNegative(imp) && channels % BLK_SIZE == 0 && 0 <= t < BlockCount(m, channels)
    ensures ValidImportance(ImportanceOf(imp, m, channels, t))
  {
    RowOfBlock(m, channels / BLK_SIZE, t);
  }

  /** Algorithm 1 on every block of a matrix. */
  ghost predicate StandardMatrix(bs: seq<Block>, rows: seq<seq<real>>, channels: nat)
    requires Rectangular(rows, channels)
  {
    |bs| == BlockCount(|rows|, channels) && forall t :: 0 <= t < |bs| ==> bs[t] == StandardBlock(BlockOf(rows, channels, t))
  }

  lemma BlockNeverWorse(rows: seq<seq<real>>, imp: MatrixImportance, channels: nat, n: int, t: int)
    requires Rectangular(rows, channels) && Broadcastable(imp, |rows|) && NonNegative(imp) && 3 <= n && n % 2 == 1
    requires 0 <= t < BlockCount(|rows|, channels)
    ensures var w, i := BlockOf(rows, channels, t), ImportanceOf(imp, |rows|, channels, t);
            Err(w, i, Wanted(rows, imp, channels, Searcher(n), t)) <= Err(w, i, StandardBlock(w))
  {
    WeightsValid(imp, |rows|, channels, t);
    NeverWorseThanBaseline(BlockOf(rows, channels, t), ImportanceOf(imp, |rows|, channels, t), n);
  }

  /** Over all entries of the matrix, weighted or not, the quantised matrix is never worse than that of
      Algorithm 1, for every odd candidate count. */
  lemma MatrixNeverWorse(p: Params, bs: seq<Block>, rows: seq<seq<real>>, imp: MatrixImportance, channels: nat, n: int)
    requires Rectangular(rows, channels) && Broadcastable(imp, |rows|) && NonNegative(imp) && 3 <= n && n % 2 == 1
    requires Quantized(p, rows, imp, channels, n) && StandardMatrix(bs, rows, channels)
    ensures MatrixErr(Blocks(p), rows, imp, channels) <= MatrixErr(bs, rows, imp, channels)
  {
    var found := Blocks(p);
    forall t | 0 <= t < |bs| ensures BlockErrs(found, rows, imp, channels)(t) <= BlockErrs(bs, rows, imp, channels)(t) {
      assert found[t] == Wanted(rows, imp, channels, Searcher(n), t);
      BlockNeverWorse(rows, imp, channels, n, t);
    }
    MatrixErrMono(found, bs, rows, imp, channels);
  }

  lemma MatrixErrMono(found: seq<Block>, bs: seq<Block>, rows: seq<seq<real>>, imp: MatrixImportance, channels: nat)
    requires Rectangular(rows, channels) && Broadcastable(imp, |rows|) && |found| == |bs| == BlockCount(|rows|, channels)
    requires forall t :: 0 <= t < |bs| ==> BlockErrs(found, rows, imp, channels)(t) <= BlockErrs(bs, rows, imp, channels)(t)
    ensures MatrixErr(found, rows, imp, channels) <= MatrixErr(bs, rows, imp, channels)
  {
    BlockErrsSum(found, rows, imp, channels);
    BlockErrsSum(bs, rows, imp, channels);
    SumMono(|bs|, BlockErrs(found, rows, imp, channels), BlockErrs(bs, rows, imp, channels));
  }

  /** `_quantize_hif4`. Whatever the chunk size: every block of every row is searched with its own weights, the
      error over all entries is the sum of the block errors, and for odd counts it is never larger than that
      of Algorithm 1. */
  method Quantize(rows: seq<seq<real>>, imp: MatrixImportance, channels: nat, n: int, chunk: nat) returns (p: Params)
    requires Rectangular(rows, channels) && Broadcastable(imp, |rows|) && 2 <= n && 1 <= chunk
    ensures Quantized(p, rows, imp, channels, n)
    ensures MatrixErr(Blocks(p), rows, imp, channels) == Sum(BlockCount(|rows|, channels), BlockErrs(Blocks(p), rows, imp, channels))
    ensures 3 <= n && n % 2 == 1 && NonNegative(imp) ==>
              forall bs :: StandardMatrix(bs, rows, channels) ==>
                MatrixErr(Blocks(p), rows, imp, channels) <= MatrixErr(bs, rows, imp, channels)
  {
    p := QuantizeChunks(rows, imp, channels, n, chunk);
    BlockErrsSum(Blocks(p), rows, imp, channels);
    if 3 <= n && n % 2 == 1 && NonNegative(imp) {
      forall bs | StandardMatrix(bs, rows, channels)
        ensures MatrixErr(Blocks(p), rows, imp, channels) <= MatrixErr(bs, rows, imp, channels)
      {
        MatrixNeverWorse(p, bs, rows, imp, channels, n);
      }
    }
  }
}
