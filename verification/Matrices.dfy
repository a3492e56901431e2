/** Matrix algebra over finite sums: products of sums, Gram forms and orthogonal rotations. A matrix
    is a function of row and column. */
module Matrices {
  import opened Sums

  type Matrix = (int, int) -> real

  function RowOf(a: Matrix, i: int): int -> real {
    j => a(i, j)
  }

  /** The sum of the n x n corner of a matrix. */
  function Sum2(n: nat, a: Matrix): real {
    Sum(n, RowSum(n, a))
  }

  function RowSum(n: nat, a: Matrix): int -> real {
    i => Sum(n, RowOf(a, i))
  }

  lemma Sum2Cong(n: nat, a: Matrix, b: Matrix)
    requires forall i, j :: 0 <= i < n && 0 <= j < n ==> a(i, j) == b(i, j)
    ensures Sum2(n, a) == Sum2(n, b)
  {
    forall i | 0 <= i < n ensures RowSum(n, a)(i) == RowSum(n, b)(i) {
      SumCong(n, RowOf(a, i), RowOf(b, i));
    }
    SumCong(n, RowSum(n, a), RowSum(n, b));
  }

  lemma Sum2Add(n: nat, a: Matrix, b: Matrix, c: Matrix)
    requires forall i, j :: 0 <= i < n && 0 <= j < n ==> c(i, j) == a(i, j) + b(i, j)
    ensures Sum2(n, c) == Sum2(n, a) + Sum2(n, b)
  {
    forall i | 0 <= i < n ensures RowSum(n, c)(i) == RowSum(n, a)(i) + RowSum(n, b)(i) {
      SumAdd(n, RowOf(a, i), RowOf(b, i), RowOf(c, i));
    }
    SumAdd(n, RowSum(n, a), RowSum(n, b), RowSum(n, c));
  }

  lemma Sum2Scale(n: nat, c: real, a: Matrix, b: Matrix)
    requires forall i, j :: 0 <= i < n && 0 <= j < n ==> b(i, j) == c * a(i, j)
    ensures Sum2(n, b) == c * Sum2(n, a)
  {
    forall i | 0 <= i < n ensures RowSum(n, b)(i) == c * RowSum(n, a)(i) {
      SumScale(n, c, RowOf(a, i), RowOf(b, i));
    }
    SumScale(n, c, RowSum(n, a), RowSum(n, b));
  }

  lemma Sum2Zero(n: nat, a: Matrix)
    requires forall i, j :: 0 <= i < n && 0 <= j < n ==> a(i, j) == 0.0
    ensures Sum2(n, a) == 0.0
  {
    forall i | 0 <= i < n ensures RowSum(n, a)(i) == 0.0 {
      SumZero(n, RowOf(a, i));
    }
    SumZero(n, RowSum(n, a));
  }

  /** A matrix that vanishes off the diagonal sums to its trace. */
  lemma Sum2Diagonal(n: nat, a: Matrix, d: int -> real)
    requires forall i, j :: 0 <= i < n && 0 <= j < n ==> a(i, j) == (if i == j then d(i) else 0.0)
    ensures Sum2(n, a) == Sum(n, d)
  {
    forall i | 0 <= i < n ensures RowSum(n, a)(i) == d(i) {
      SumSingle(n, i, RowOf(a, i));
    }
    SumCong(n, RowSum(n, a), d);
  }

  function Outer(u: int -> real, v: int -> real): Matrix {
    (i, j) => u(i) * v(j)
  }

  /** The product of two sums, expanded. */
  lemma SumProduct(n: nat, u: int -> real, v: int -> real)
    ensures Sum(n, u) * Sum(n, v) == Sum2(n, Outer(u, v))
  {
    var s := Sum(n, v);
    forall i | 0 <= i < n ensures RowSum(n, Outer(u, v))(i) == s * u(i) {
      SumScale(n, u(i), v, RowOf(Outer(u, v), i));
    }
    SumScale(n, s, u, RowSum(n, Outer(u, v)));
  }

  /** The columns of two m-row matrices multiplied: (A^T B)(i, j). */
  function CrossGram(m: nat, a: Matrix, b: Matrix): Matrix {
    (i, j) => Sum(m, CrossTerm(a, b, i, j))
  }

  function CrossTerm(a: Matrix, b: Matrix, i: int, j: int): int -> real {
    t => a(t, i) * b(t, j)
  }

  /** Row sums of A times row sums of B. */
  function RowProducts(n: nat, a: Matrix, b: Matrix): int -> real {
    t => Sum(n, RowOf(a, t)) * Sum(n, RowOf(b, t))
  }

  /** Summing products of row sums is summing all entries of A^T B. */
  lemma {:induction false} CrossSum(m: nat, n: nat, a: Matrix, b: Matrix)
    ensures Sum(m, RowProducts(n, a, b)) == Sum2(n, CrossGram(m, a, b))
  {
    if m == 0 {
      Sum2Zero(n, CrossGram(m, a, b));
    } else {
      CrossSum(m - 1, n, a, b);
      SumProduct(n, RowOf(a, m - 1), RowOf(b, m - 1));
      Sum2Add(n, CrossGram(m - 1, a, b), Outer(RowOf(a, m - 1), RowOf(b, m - 1)), CrossGram(m, a, b));
    }
  }

  // ----- Gram forms -----

  /** X^T X for a matrix of m rows. */
  function Gram(m: nat, x: Matrix): Matrix {
    CrossGram(m, x, x)
  }

  function Times(a: Matrix, b: Matrix): Matrix {
    (i, j) => a(i, j) * b(i, j)
  }

  /** The entrywise product of two n x n matrices, summed: tr(E G E^T) when b is E^T E. */
  function GramLoss(n: nat, g: Matrix, b: Matrix): real {
    Sum2(n, Times(g, b))
  }

  /** The inner product of row i of e and row t of x. */
  function RowDot(n: nat, e: Matrix, i: int, x: Matrix, t: int): real {
    Sum(n, RowDotTerm(e, i, x, t))
  }

  function RowDotTerm(e: Matrix, i: int, x: Matrix, t: int): int -> real {
    j => e(i, j) * x(t, j)
  }

  /** The squared outputs of one row x_t against all rows of e. */
  function OutputsAt(rows: nat, n: nat, e: Matrix, x: Matrix, t: int): real {
    Sum(rows, SquaredOutput(n, e, x, t))
  }

  function SquaredOutput(n: nat, e: Matrix, x: Matrix, t: int): int -> real {
    i => Sq(RowDot(n, e, i, x, t))
  }

  /** The total squared output of e over the first m rows of x: ||X E^T||^2. */
  function OutputError(m: nat, rows: nat, n: nat, e: Matrix, x: Matrix): real {
    Sum(m, OutputErrorAt(rows, n, e, x))
  }

  function OutputErrorAt(rows: nat, n: nat, e: Matrix, x: Matrix): int -> real {
    t => OutputsAt(rows, n, e, x, t)
  }

  function Scaled(e: Matrix, x: Matrix, t: int): Matrix {
    (i, j) => e(i, j) * x(t, j)
  }

  /** One row of x: x_t^T x_t against E^T E is the squared output at x_t. */
  lemma RankOneLoss(rows: nat, n: nat, e: Matrix, x: Matrix, t: int)
    ensures GramLoss(n, Outer(RowOf(x, t), RowOf(x, t)), Gram(rows, e)) == OutputsAt(rows, n, e, x, t)
  {
    var s := Scaled(e, x, t);
    CrossSum(rows, n, s, s);
    forall i | 0 <= i < rows ensures RowProducts(n, s, s)(i) == SquaredOutput(n, e, x, t)(i) {
      SumCong(n, RowOf(s, i), RowDotTerm(e, i, x, t));
    }
    SumCong(rows, RowProducts(n, s, s), SquaredOutput(n, e, x, t));
    forall j, k | 0 <= j < n && 0 <= k < n
      ensures CrossGram(rows, s, s)(j, k) == Times(Outer(RowOf(x, t), RowOf(x, t)), Gram(rows, e))(j, k)
    {
      ScaledEntry(rows, e, x, t, j, k);
    }
    Sum2Cong(n, CrossGram(rows, s, s), Times(Outer(RowOf(x, t), RowOf(x, t)), Gram(rows, e)));
  }

  lemma ScaledEntry(rows: nat, e: Matrix, x: Matrix, t: int, j: int, k: int)
    ensures CrossGram(rows, Scaled(e, x, t), Scaled(e, x, t))(j, k) == x(t, j) * x(t, k) * Gram(rows, e)(j, k)
  {
    var c := x(t, j) * x(t, k);
    var f, h := CrossTerm(e, e, j, k), CrossTerm(Scaled(e, x, t), Scaled(e, x, t), j, k);
    forall i | 0 <= i < rows ensures h(i) == c * f(i) {
      Regroup(e(i, j), x(t, j), e(i, k), x(t, k));
    }
    SumScale(rows, c, f, h);
  }

  lemma Regroup(a: real, b: real, c: real, d: real)
    ensures (a * b) * (c * d) == (b * d) * (a * c)
  {}

  /** The Gram form of the loss is the true squared output error: sum of (X^T X) o (E^T E) = ||X E^T||^2. */
  lemma {:induction false} GramLossIsOutputError(m: nat, rows: nat, n: nat, e: Matrix, x: Matrix)
    ensures GramLoss(n, Gram(m, x), Gram(rows, e)) == OutputError(m, rows, n, e, x)
  {
    var b := Gram(rows, e);
    if m == 0 {
      Sum2Zero(n, Times(Gram(m, x), b));
    } else {
      GramLossIsOutputError(m - 1, rows, n, e, x);
      RankOneLoss(rows, n, e, x, m - 1);
      GramStep(m, n, b, x);
    }
  }

  lemma GramStep(m: nat, n: nat, b: Matrix, x: Matrix)
    requires m > 0
    ensures GramLoss(n, Gram(m, x), b) == GramLoss(n, Gram(m - 1, x), b) + GramLoss(n, Outer(RowOf(x, m - 1), RowOf(x, m - 1)), b)
  {
    var o := Outer(RowOf(x, m - 1), RowOf(x, m - 1));
    forall i, j | 0 <= i < n && 0 <= j < n
      ensures Times(Gram(m, x), b)(i, j) == Times(Gram(m - 1, x), b)(i, j) + Times(o, b)(i, j)
    {
      Distribute(Gram(m - 1, x)(i, j), o(i, j), b(i, j));
    }
    Sum2Add(n, Times(Gram(m - 1, x), b), Times(o, b), Times(Gram(m, x), b));
  }

  lemma Distribute(a: real, b: real, c: real)
    ensures (a + b) * c == a * c + b * c
  {}
}
