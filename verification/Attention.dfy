/** Grouped-query attention logits under the transformations applied before quantisation: Q/K
    smoothing by a positive diagonal and blockwise orthogonal rotation. A token's activations are a
    flat vector; entry r of head h sits at h * headDim + r, and query head h reads key head h / group. */
module Attention {
  import opened Sums
  import opened Rounding
  import opened Matrices
  import opened Hadamard
  import opened Indexing

  type Vector = int -> real

  /** The entries of x from position p on. */
  function Window(x: Vector, p: int): Vector {
    d => x(p + d)
  }

  /** The score of query head h, before the fixed 1/sqrt(headDim) factor. */
  function Logit(headDim: nat, group: nat, q: Vector, k: Vector, h: int): real
    requires 0 < group
  {
    Sum(headDim, Product(Window(q, h * headDim), Window(k, h / group * headDim)))
  }

  // ----- Q/K smoothing -----

  /** `D_g.clamp(1e-4, 1e4)`: whatever the calibration statistics, the diagonal is positive. */
  function ClampedDiagonal(raw: Matrix): Matrix {
    (g, r) => MinR(MaxR(raw(g, r), 0.0001), 10000.0)
  }

  ghost predicate PositiveDiagonal(d: Matrix) {
    forall g, r :: d(g, r) > 0.0
  }

  lemma ClampedIsPositive(raw: Matrix)
    ensures PositiveDiagonal(ClampedDiagonal(raw))
    ensures forall g, r :: 0.0001 <= ClampedDiagonal(raw)(g, r) <= 10000.0
    ensures forall g, r :: 0.0001 <= raw(g, r) <= 10000.0 ==> ClampedDiagonal(raw)(g, r) == raw(g, r)
  {
    forall g, r
      ensures 0.0001 <= ClampedDiagonal(raw)(g, r) <= 10000.0
      ensures 0.0001 <= raw(g, r) <= 10000.0 ==> ClampedDiagonal(raw)(g, r) == raw(g, r)
    {
      assert ClampedDiagonal(raw)(g, r) == MinR(MaxR(raw(g, r), 0.0001), 10000.0);
    }
  }

  /** Q divided by `D_g.repeat_interleave(group)`, flattened. */
  ghost function SmoothQ(headDim: nat, group: nat, d: Matrix, q: Vector): Vector
    requires 0 < headDim && 0 < group && PositiveDiagonal(d)
  {
    i => q(i) / d(i / headDim / group, i % headDim)
  }

  /** K times D_g, flattened. */
  ghost function SmoothK(headDim: nat, d: Matrix, k: Vector): Vector
    requires 0 < headDim
  {
    i => k(i) * d(i / headDim, i % headDim)
  }

  /** Entry r of query head h is divided by, and of key head g multiplied with, the diagonal of its key head. */
  lemma SmoothedEntries(headDim: nat, group: nat, d: Matrix, q: Vector, k: Vector, h: nat, g: nat, r: nat)
    requires 0 < headDim && 0 < group && PositiveDiagonal(d) && r < headDim
    ensures SmoothQ(headDim, group, d, q)(h * headDim + r) * d(h / group, r) == q(h * headDim + r)
    ensures SmoothK(headDim, d, k)(g * headDim + r) == k(g * headDim + r) * d(g, r)
  {
    DivModUnique(h * headDim + r, headDim, h, r);
    DivModUnique(g * headDim + r, headDim, g, r);
  }

  /** Smoothing by any positive diagonal leaves every logit of every query head unchanged. */
  lemma SmoothingKeepsLogits(headDim: nat, group: nat, d: Matrix, q: Vector, k: Vector, h: nat)
    requires 0 < headDim && 0 < group && PositiveDiagonal(d)
    ensures Logit(headDim, group, SmoothQ(headDim, group, d, q), SmoothK(headDim, d, k), h) == Logit(headDim, group, q, k, h)
  {
    var p, p' := h * headDim, h / group * headDim;
    var q', k' := SmoothQ(headDim, group, d, q), SmoothK(headDim, d, k);
    forall r | 0 <= r < headDim
      ensures Product(Window(q', p), Window(k', p'))(r) == Product(Window(q, p), Window(k, p'))(r)
    {
      DivModUnique(p + r, headDim, h, r);
      DivModUnique(p' + r, headDim, h / group, r);
      CancelScale(q(p + r), k(p' + r), d(h / group, r));
    }
    SumCong(headDim, Product(Window(q', p), Window(k', p')), Product(Window(q, p), Window(k, p')));
  }

  lemma CancelScale(x: real, y: real, d: real)
    requires d > 0.0
    ensures x / d * (y * d) == x * y
  {
    assert x / d * d == x;
    assert x / d * (y * d) == x / d * d * y;
  }

  // ----- blockwise rotation -----

  /** A 64 x 64 rotation for every key head and every 64-channel block of a head. */
  type Rotations = (int, int) -> seq<seq<real>>

  ghost predicate AllOrthogonal(hs: Rotations, c: real) {
    forall g, b :: Orthogonal(hs(g, b), 64, c)
  }

  /** `_apply_per_head_hadamard`: block b of head h is multiplied by the rotation of key head h / group. */
  function RotateHeads(headDim: nat, group: nat, hs: Rotations, x: Vector): Vector
    requires 0 < headDim && 0 < group
  {
    i => var h, r := i / headDim, i % headDim;
         RotatedBy(hs(h / group, r / 64), x, h * headDim + r / 64 * 64, r % 64)
  }

  lemma RotatedEntry(headDim: nat, group: nat, hs: Rotations, x: Vector, h: nat, nb: nat, b: nat, e: nat)
    requires 0 < group && headDim == nb * 64 && b < nb && e < 64
    ensures RotateHeads(headDim, group, hs, x)(h * headDim + b * 64 + e)
         == RotatedBy(hs(h / group, b), x, h * headDim + b * 64, e)
  {
    var p := h * headDim;
    var r := b * 64 + e;
    assert r < headDim;
    assert p + b * 64 + e == p + r;
    DivModUnique(p + r, headDim, h, r);
    DivModUnique(r, 64, b, e);
  }

  /** Entry e of the 64 entries of x at p, rotated by m. */
  function RotatedBy(m: seq<seq<real>>, x: Vector, p: int, e: int): real {
    Rotated(64, Window(x, p), EntryOf(m))(e)
  }

  /** The 64 entries of x' at p are those of x, rotated by m. */
  ghost predicate RotatedAt(x': Vector, x: Vector, p: int, m: seq<seq<real>>) {
    forall e :: 0 <= e < 64 ==> x'(p + e) == RotatedBy(m, x, p, e)
  }

  /** Sums over consecutive blocks of 64. */
  function BlockSums(x: Vector, y: Vector, p: int, p': int): Vector {
    b => BlockAt(x, y, p, p', b)
  }

  function BlockAt(x: Vector, y: Vector, p: int, p': int, b: int): real {
    BlockDot(x, y, p + b * 64, p' + b * 64)
  }

  function BlockDot(x: Vector, y: Vector, p: int, p': int): real {
    Sum(64, Product(Window(x, p), Window(y, p')))
  }

  lemma DotByBlocks(nb: nat, x: Vector, y: Vector, p: int, p': int)
    ensures Sum(nb * 64, Product(Window(x, p), Window(y, p'))) == Sum(nb, BlockSums(x, y, p, p'))
  {
    var f := Product(Window(x, p), Window(y, p'));
    SumOfRuns(nb, 64, f);
    forall b | 0 <= b < nb ensures Runs(64, f)(b) == BlockAt(x, y, p, p', b) {
      ShiftedBlock(x, y, p, p', b);
    }
    SumCong(nb, Runs(64, f), BlockSums(x, y, p, p'));
  }

  lemma ShiftedBlock(x: Vector, y: Vector, p: int, p': int, b: int)
    ensures RunSum(64, Product(Window(x, p), Window(y, p')), b) == BlockAt(x, y, p, p', b)
  {
    var f, g := Product(Window(x, p), Window(y, p')), Product(Window(x, p + b * 64), Window(y, p' + b * 64));
    forall c | 0 <= c < 64 ensures f(b * 64 + c) == g(c) {
      assert p + (b * 64 + c) == p + b * 64 + c && p' + (b * 64 + c) == p' + b * 64 + c;
    }
    SumCong(64, i => f(b * 64 + i), g);
  }

  lemma RotatedProduct(x': Vector, y': Vector, x: Vector, y: Vector, p: int, p': int, m: seq<seq<real>>, e: int)
    requires 0 <= e < 64 && RotatedAt(x', x, p, m) && RotatedAt(y', y, p', m)
    ensures Product(Window(x', p), Window(y', p'))(e)
         == Product(Rotated(64, Window(x, p), EntryOf(m)), Rotated(64, Window(y, p'), EntryOf(m)))(e)
  {
    RotatedAtEntry(x', x, p, m, e);
    RotatedAtEntry(y', y, p', m, e);
    ProductAt(Window(x', p), Window(y', p'), Rotated(64, Window(x, p), EntryOf(m)), Rotated(64, Window(y, p'), EntryOf(m)), e);
  }

  lemma RotatedAtEntry(x': Vector, x: Vector, p: int, m: seq<seq<real>>, e: int)
    requires 0 <= e < 64 && RotatedAt(x', x, p, m)
    ensures Window(x', p)(e) == Rotated(64, Window(x, p), EntryOf(m))(e)
  {
    assert x'(p + e) == RotatedBy(m, x, p, e);
  }

  lemma ProductAt(u: Vector, v: Vector, u': Vector, v': Vector, e: int)
    requires u(e) == u'(e) && v(e) == v'(e)
    ensures Product(u, v)(e) == Product(u', v')(e)
  {}

  /** Two blocks rotated by the same matrix keep their inner product, up to c. */
  lemma SameRotation(x': Vector, y': Vector, x: Vector, y: Vector, p: int, p': int, m: seq<seq<real>>, c: real)
    requires Orthogonal(m, 64, c)
    requires RotatedAt(x', x, p, m) && RotatedAt(y', y, p', m)
    ensures BlockDot(x', y', p, p') == Multiple(c, BlockDot(x, y, p, p'))
  {
    var u, v := Rotated(64, Window(x, p), EntryOf(m)), Rotated(64, Window(y, p'), EntryOf(m));
    forall e | 0 <= e < 64 ensures Product(Window(x', p), Window(y', p'))(e) == Product(u, v)(e) {
      RotatedProduct(x', y', x, y, p, p', m, e);
    }
    SumCong(64, Product(Window(x', p), Window(y', p')), Product(u, v));
    RotationPreservesDot(64, Window(x, p), Window(y, p'), m, c);
  }

  lemma BlockKept(headDim: nat, group: nat, hs: Rotations, c: real, q: Vector, k: Vector, h: nat, nb: nat, b: nat)
    requires 0 < group && headDim == nb * 64 && b < nb && AllOrthogonal(hs, c)
    ensures BlockAt(RotateHeads(headDim, group, hs, q), RotateHeads(headDim, 1, hs, k), h * headDim, h / group * headDim, b)
         == Multiple(c, BlockAt(q, k, h * headDim, h / group * headDim, b))
  {
    RotatedWindow(headDim, group, hs, q, h, nb, b, h * headDim + b * 64);
    RotatedWindow(headDim, 1, hs, k, h / group, nb, b, h / group * headDim + b * 64);
    BlockKeptAt(RotateHeads(headDim, group, hs, q), RotateHeads(headDim, 1, hs, k), q, k,
                h * headDim, h / group * headDim, b, hs(h / group, b), c);
  }

  lemma BlockKeptAt(x': Vector, y': Vector, x: Vector, y: Vector, p: int, p': int, b: int, m: seq<seq<real>>, c: real)
    requires Orthogonal(m, 64, c) && RotatedAt(x', x, p + b * 64, m) && RotatedAt(y', y, p' + b * 64, m)
    ensures BlockAt(x', y', p, p', b) == Multiple(c, BlockAt(x, y, p, p', b))
  {
    SameRotation(x', y', x, y, p + b * 64, p' + b * 64, m, c);
  }

  lemma RotatedWindow(headDim: nat, group: nat, hs: Rotations, x: Vector, h: nat, nb: nat, b: nat, p: int)
    requires 0 < group && headDim == nb * 64 && b < nb && p == h * headDim + b * 64
    ensures RotatedAt(RotateHeads(headDim, group, hs, x), x, p, hs(h / group, b))
  {
    var x' := RotateHeads(headDim, group, hs, x);
    forall e | 0 <= e < 64 ensures x'(p + e) == RotatedBy(hs(h / group, b), x, p, e) {
      RotatedEntry(headDim, group, hs, x, h, nb, b, e);
    }
  }

  /** Per-(key head, block) rotation multiplies every logit by the constant of H * H^T. */
  lemma RotationKeepsLogits(headDim: nat, group: nat, hs: Rotations, c: real, q: Vector, k: Vector, h: nat)
    requires 0 < headDim && 0 < group && headDim % 64 == 0 && AllOrthogonal(hs, c)
    ensures Logit(headDim, group, RotateHeads(headDim, group, hs, q), RotateHeads(headDim, 1, hs, k), h)
         == Multiple(c, Logit(headDim, group, q, k, h))
  {
    var nb := headDim / 64;
    forall b | 0 <= b < nb
      ensures BlockAt(RotateHeads(headDim, group, hs, q), RotateHeads(headDim, 1, hs, k), h * headDim, h / group * headDim, b)
           == Multiple(c, BlockAt(q, k, h * headDim, h / group * headDim, b))
    {
      BlockKept(headDim, group, hs, c, q, k, h, nb, b);
    }
    BlocksToDot(headDim, nb, RotateHeads(headDim, group, hs, q), RotateHeads(headDim, 1, hs, k), q, k,
                h * headDim, h / group * headDim, c);
  }

  // ----- the calibrated rotations -----

  /** One random rotation per key head, shared by all its blocks. */
  method CalibrateRotations(signs: seq<seq<real>>, r: real) returns (hs: seq<seq<seq<real>>>)
    requires r * r * 64.0 == 1.0 && forall g :: 0 <= g < |signs| ==> Signs(signs[g], 64)
    ensures |hs| == |signs| && forall g :: 0 <= g < |hs| ==> Orthogonal(hs[g], 64, 1.0)
    ensures forall g :: 0 <= g < |hs| ==> FlippedWalsh(hs[g], 64, signs[g], r)
  {
    hs := [];
    for g := 0 to |signs|
      invariant |hs| == g && forall i :: 0 <= i < g ==> Orthogonal(hs[i], 64, 1.0)
      invariant forall i :: 0 <= i < g ==> FlippedWalsh(hs[i], 64, signs[i], r)
    {
      assert IsPow2(64) by {
        assert IsPow2(8);
      }
      var m := MakeRandomHadamard(64, signs[g], r);
      hs := hs + [m];
    }
  }

  /** The rotation of every key head and block; heads that do not exist are given the first one. */
  function RotationsOf(hs: seq<seq<seq<real>>>): Rotations
    requires hs != []
  {
    (g, b) => if 0 <= g < |hs| then hs[g] else hs[0]
  }

  /** Every block of query head h is multiplied with the rotation of the key head it reads. */
  lemma CalibratedEntry(headDim: nat, group: nat, hs: seq<seq<seq<real>>>, x: Vector, h: nat, nb: nat, b: nat, e: nat)
    requires 0 < group && headDim == nb * 64 && b < nb && e < 64 && h / group < |hs|
    ensures RotateHeads(headDim, group, RotationsOf(hs), x)(h * headDim + b * 64 + e)
         == RotatedBy(hs[h / group], x, h * headDim + b * 64, e)
  {
    RotatedEntry(headDim, group, RotationsOf(hs), x, h, nb, b, e);
  }

  /** With the calibrated rotations every logit is exactly unchanged. */
  lemma CalibratedLogits(headDim: nat, group: nat, hs: seq<seq<seq<real>>>, q: Vector, k: Vector, h: nat)
    requires 0 < headDim && 0 < group && headDim % 64 == 0
    requires hs != [] && forall g :: 0 <= g < |hs| ==> Orthogonal(hs[g], 64, 1.0)
    ensures var rs := RotationsOf(hs);
            Logit(headDim, group, RotateHeads(headDim, group, rs, q), RotateHeads(headDim, 1, rs, k), h) == Logit(headDim, group, q, k, h)
  {
    RotationKeepsLogits(headDim, group, RotationsOf(hs), 1.0, q, k, h);
    MultipleOfOne(Logit(headDim, group, q, k, h));
  }

  lemma BlocksToDot(n: nat, nb: nat, x': Vector, y': Vector, x: Vector, y: Vector, p: int, p': int, c: real)
    requires n == nb * 64
    requires forall b :: 0 <= b < nb ==> BlockAt(x', y', p, p', b) == Multiple(c, BlockAt(x, y, p, p', b))
    ensures Sum(n, Product(Window(x', p), Window(y', p'))) == Multiple(c, Sum(n, Product(Window(x, p), Window(y, p'))))
  {
    DotByBlocks(nb, x, y, p, p');
    DotByBlocks(nb, x', y', p, p');
    ScaledSums(nb, c, BlockSums(x, y, p, p'), BlockSums(x', y', p, p'));
  }

  lemma ScaledSums(n: nat, c: real, f: Vector, g: Vector)
    requires forall b :: 0 <= b < n ==> g(b) == Multiple(c, f(b))
    ensures Sum(n, g) == Multiple(c, Sum(n, f))
  {
    SumScale(n, c, f, g);
  }

  // ----- one rotation for all blocks -----

  /** `_apply_hadamard`: every 64 consecutive channels are multiplied by the same matrix. */
  function ApplyHadamard(x: Vector, m: seq<seq<real>>): Vector {
    i => RotatedBy(m, x, i / 64 * 64, i % 64)
  }

  lemma ApplyHadamardAt(x: Vector, m: seq<seq<real>>, p: int)
    requires p % 64 == 0
    ensures RotatedAt(ApplyHadamard(x, m), x, p, m)
  {
    forall e | 0 <= e < 64 ensures ApplyHadamard(x, m)(p + e) == RotatedBy(m, x, p, e) {
      ApplyHadamardEntry(x, m, p, e);
    }
  }

  lemma ApplyHadamardEntry(x: Vector, m: seq<seq<real>>, p: int, e: int)
    requires p % 64 == 0 && 0 <= e < 64
    ensures ApplyHadamard(x, m)(p + e) == RotatedBy(m, x, p, e)
  {
    var i := p + e;
    assert i / 64 * 64 == p && i % 64 == e;
  }

  /** Rotating both sides blockwise keeps an inner product over whole blocks, up to c. */
  lemma HadamardKeepsDot(n: nat, x: Vector, y: Vector, p: int, p': int, m: seq<seq<real>>, c: real)
    requires Orthogonal(m, 64, c) && n % 64 == 0 && p % 64 == 0 && p' % 64 == 0
    ensures Sum(n, Product(Window(ApplyHadamard(x, m), p), Window(ApplyHadamard(y, m), p')))
         == Multiple(c, Sum(n, Product(Window(x, p), Window(y, p'))))
  {
    var nb := n / 64;
    var x', y' := ApplyHadamard(x, m), ApplyHadamard(y, m);
    forall b | 0 <= b < nb ensures BlockAt(x', y', p, p', b) == Multiple(c, BlockAt(x, y, p, p', b)) {
      HadamardBlock(x, y, p, p', b, m, c);
    }
    BlocksToDot(n, nb, x', y', x, y, p, p', c);
  }

  lemma BlockStart(x: Vector, p: int, b: int, m: seq<seq<real>>)
    requires p % 64 == 0
    ensures RotatedAt(ApplyHadamard(x, m), x, p + b * 64, m)
  {
    ApplyHadamardAt(x, m, p + b * 64);
  }

  lemma HadamardBlock(x: Vector, y: Vector, p: int, p': int, b: int, m: seq<seq<real>>, c: real)
    requires Orthogonal(m, 64, c) && p % 64 == 0 && p' % 64 == 0
    ensures BlockAt(ApplyHadamard(x, m), ApplyHadamard(y, m), p, p', b) == Multiple(c, BlockAt(x, y, p, p', b))
  {
    BlockStart(x, p, b, m);
    BlockStart(y, p', b, m);
    BlockKeptAt(ApplyHadamard(x, m), ApplyHadamard(y, m), x, y, p, p', b, m, c);
  }

  /** The dynamic Q and K paths: divide by and multiply with the smoothing diagonal, then rotate.
      Every logit of every query head is kept, exactly when H * H^T = I. */
  lemma AttentionPathKeepsLogits(headDim: nat, group: nat, d: Matrix, m: seq<seq<real>>, c: real, q: Vector, k: Vector, h: nat)
    requires 0 < headDim && headDim % 64 == 0 && 0 < group && PositiveDiagonal(d) && Orthogonal(m, 64, c)
    ensures Logit(headDim, group, ApplyHadamard(SmoothQ(headDim, group, d, q), m), ApplyHadamard(SmoothK(headDim, d, k), m), h)
         == Multiple(c, Logit(headDim, group, q, k, h))
  {
    SmoothingKeepsLogits(headDim, group, d, q, k, h);
    HadamardKeepsLogits(headDim, group, m, c, SmoothQ(headDim, group, d, q), SmoothK(headDim, d, k), h);
  }

  lemma HadamardKeepsLogits(headDim: nat, group: nat, m: seq<seq<real>>, c: real, q: Vector, k: Vector, h: nat)
    requires headDim % 64 == 0 && 0 < group && Orthogonal(m, 64, c)
    ensures Logit(headDim, group, ApplyHadamard(q, m), ApplyHadamard(k, m), h) == Multiple(c, Logit(headDim, group, q, k, h))
  {
    MultipleOf64(h, headDim);
    MultipleOf64(h / group, headDim);
    HadamardKeepsDot(headDim, q, k, h * headDim, h / group * headDim, m, c);
  }

  lemma MultipleOf64(h: int, n: int)
    requires n % 64 == 0
    ensures h * n % 64 == 0
  {
    assert h * n == h * (n / 64) * 64;
  }

  /** One output of a linear layer. */
  function Output(channels: nat, x: Vector, w: Vector): real {
    Sum(channels, Product(Window(x, 0), Window(w, 0)))
  }

  /** The linear path: activations divided by D and weights multiplied with D, both rotated, give the
      same output, up to c, for every activation row and weight row. */
  lemma LinearPathKeepsOutput(channels: nat, d: Vector, m: seq<seq<real>>, c: real, x: Vector, w: Vector)
    requires channels % 64 == 0 && Orthogonal(m, 64, c) && (forall j :: d(j) > 0.0)
    ensures Output(channels, ApplyHadamard(Quotient(x, d), m), ApplyHadamard(Product(w, d), m))
         == Multiple(c, Output(channels, x, w))
  {
    HadamardKeepsDot(channels, Quotient(x, d), Product(w, d), 0, 0, m, c);
    LinearSmoothing(channels, d, x, w);
  }

  lemma LinearSmoothing(channels: nat, d: Vector, x: Vector, w: Vector)
    requires forall j :: d(j) > 0.0
    ensures Output(channels, Quotient(x, d), Product(w, d)) == Output(channels, x, w)
  {
    forall j | 0 <= j < channels
      ensures Product(Window(Quotient(x, d), 0), Window(Product(w, d), 0))(j) == Product(Window(x, 0), Window(w, 0))(j)
    {
      CancelScale(x(j), w(j), d(j));
    }
    SumCong(channels, Product(Window(Quotient(x, d), 0), Window(Product(w, d), 0)), Product(Window(x, 0), Window(w, 0)));
  }

  ghost function Quotient(x: Vector, d: Vector): Vector
    requires forall j :: d(j) > 0.0
  {
    j => x(j) / d(j)
  }
}
