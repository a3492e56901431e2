/** Sylvester Hadamard matrices, their random sign flips, and the rotations built from them. */
module Hadamard {
  import opened Sums
  import opened Matrices

  /** The inner product of two rows of length n. */
  function Dot(n: nat, u: seq<real>, v: seq<real>): real {
    Sum(n, DotTerm(u, v))
  }

  function DotTerm(u: seq<real>, v: seq<real>): int -> real {
    j => At(u, j) * At(v, j)
  }

  predicate Square(h: seq<seq<real>>, n: nat) {
    |h| == n && forall i :: 0 <= i < n ==> |h[i]| == n
  }

  /** H * H^T == c * I. */
  ghost predicate Orthogonal(h: seq<seq<real>>, n: nat, c: real) {
    && Square(h, n)
    && forall i, k :: 0 <= i < n && 0 <= k < n ==> Dot(n, h[i], h[k]) == (if i == k then c else 0.0)
  }

  function Multiple(c: real, x: real): real {
    c * x
  }

  function Scale(c: real, u: seq<real>): (r: seq<real>)
    ensures |r| == |u|
  {
    seq(|u|, j requires 0 <= j < |u| => Multiple(c, u[j]))
  }

  function DoubledAt(h: seq<seq<real>>, s: real, i: nat): seq<real>
    requires i < 2 * |h|
  {
    if i < |h| then Scale(s, h[i] + h[i]) else Scale(s, h[i - |h|] + Scale(-1.0, h[i - |h|]))
  }

  /** [[H, H], [H, -H]] times s. */
  function Doubled(h: seq<seq<real>>, s: real): (d: seq<seq<real>>)
    ensures |d| == 2 * |h|
  {
    seq(2 * |h|, i requires 0 <= i < 2 * |h| => DoubledAt(h, s, i))
  }

  lemma DotScale(n: nat, u: seq<real>, v: seq<real>, a: real, b: real)
    requires |u| == |v| == n
    ensures Dot(n, Scale(a, u), Scale(b, v)) == a * b * Dot(n, u, v)
  {
    var f, g := DotTerm(u, v), DotTerm(Scale(a, u), Scale(b, v));
    forall j | 0 <= j < n ensures g(j) == a * b * f(j) {
      Regroup(a, u[j], b, v[j]);
    }
    SumScale(n, a * b, f, g);
  }

  lemma DotConcat(n: nat, u: seq<real>, u2: seq<real>, v: seq<real>, v2: seq<real>)
    requires |u| == |u2| == |v| == |v2| == n
    ensures Dot(2 * n, u + u2, v + v2) == Dot(n, u, v) + Dot(n, u2, v2)
  {
    var f := DotTerm(u + u2, v + v2);
    SumSplit(n, n, f);
    SumCong(n, f, DotTerm(u, v));
    SumCong(n, i => f(n + i), DotTerm(u2, v2));
  }

  /** Rows of the doubled matrix: p and q are the signs of their second halves. */
  lemma DotDoubled(n: nat, u: seq<real>, v: seq<real>, p: real, q: real, s: real)
    requires |u| == |v| == n
    ensures Dot(2 * n, Scale(s, u + Scale(p, u)), Scale(s, v + Scale(q, v))) == HalfSum(s, Dot(n, u, v), p, q)
  {
    DotScale(2 * n, u + Scale(p, u), v + Scale(q, v), s, s);
    DotConcat(n, u, Scale(p, u), v, Scale(q, v));
    DotScale(n, u, v, p, q);
  }

  /** Two halves whose inner products are d and p*q*d, scaled by s on both sides. */
  function HalfSum(s: real, d: real, p: real, q: real): real {
    s * s * (d + p * q * d)
  }

  lemma ScaleOne(u: seq<real>)
    ensures Scale(1.0, u) == u
  {}

  function Base(n: nat, i: int): int {
    if i < n then i else i - n
  }

  function Half(n: nat, i: int): real {
    if i < n then 1.0 else -1.0
  }

  lemma DoubledRow(h: seq<seq<real>>, n: nat, s: real, i: int)
    requires Square(h, n) && 0 <= i < 2 * n
    ensures var u := h[Base(n, i)]; Doubled(h, s)[i] == Scale(s, u + Scale(Half(n, i), u))
  {
    assert Doubled(h, s)[i] == DoubledAt(h, s, i);
    ScaleOne(h[Base(n, i)]);
  }

  lemma DoubledDot(h: seq<seq<real>>, n: nat, s: real, i: int, k: int)
    requires Square(h, n) && 0 <= i < 2 * n && 0 <= k < 2 * n
    ensures var d := Dot(n, h[Base(n, i)], h[Base(n, k)]);
            Dot(2 * n, Doubled(h, s)[i], Doubled(h, s)[k]) == HalfSum(s, d, Half(n, i), Half(n, k))
  {
    DoubledRow(h, n, s, i);
    DoubledRow(h, n, s, k);
    DotDoubled(n, h[Base(n, i)], h[Base(n, k)], Half(n, i), Half(n, k), s);
  }

  /** Equal halves add up, opposite halves cancel. */
  lemma AddOrCancel(n: nat, i: int, k: int, s: real, c: real, d: real, c': real)
    requires 0 <= i < 2 * n && 0 <= k < 2 * n && d == (if Base(n, i) == Base(n, k) then c else 0.0)
    requires c' == 2.0 * (s * s) * c
    ensures HalfSum(s, d, Half(n, i), Half(n, k)) == (if i == k then c' else 0.0)
  {}

  /** One doubling step keeps the matrix orthogonal and multiplies its constant by 2*s^2. */
  lemma DoubledOrthogonal(h: seq<seq<real>>, n: nat, c: real, s: real, c': real)
    requires Orthogonal(h, n, c) && c' == 2.0 * (s * s) * c
    ensures Orthogonal(Doubled(h, s), 2 * n, c')
  {
    forall i, k | 0 <= i < 2 * n && 0 <= k < 2 * n
      ensures Dot(2 * n, Doubled(h, s)[i], Doubled(h, s)[k]) == (if i == k then c' else 0.0)
    {
      DoubledDot(h, n, s, i, k);
      AddOrCancel(n, i, k, s, c, Dot(n, h[Base(n, i)], h[Base(n, k)]), c');
    }
    forall i | 0 <= i < 2 * n ensures |Doubled(h, s)[i]| == 2 * n {
      DoubledRow(h, n, s, i);
    }
  }

  // ----- the entries -----

  lemma MultipleOfOne(x: real)
    ensures Multiple(1.0, x) == x
  {}

  lemma ScaledEntryIs(c: real, u: seq<real>, j: nat)
    requires j < |u|
    ensures Scale(c, u)[j] == Multiple(c, u[j])
  {}

  /** The Walsh sign: whether i and j have an odd number of binary digits in common. */
  predicate Walsh(i: nat, j: nat)
    decreases i + j
  {
    (i != 0 || j != 0) && Walsh(i / 2, j / 2) != (i % 2 == 1 && j % 2 == 1)
  }

  function Signed(c: real, minus: bool): real {
    if minus then -c else c
  }

  lemma {:induction false} WalshIsSymmetric(i: nat, j: nat)
    ensures i == 0 || j == 0 ==> !Walsh(i, j)
    ensures Walsh(i, j) == Walsh(j, i)
    decreases i + j
  {
    if i != 0 || j != 0 {
      WalshIsSymmetric(i / 2, j / 2);
    }
  }

  /** A new leading digit flips the sign exactly when both numbers have it. */
  lemma {:induction false} WalshDoubles(n: nat, i: nat, j: nat, a: bool, b: bool)
    requires IsPow2(n) && i < n && j < n
    ensures Walsh(if a then n + i else i, if b then n + j else j) == (Walsh(i, j) != (a && b))
    decreases n
  {
    if n == 1 {
      assert !Walsh(0, 0);
    } else {
      WalshDoubles(n / 2, i / 2, j / 2, a, b);
      HalvedIndex(n, i, a);
      HalvedIndex(n, j, b);
    }
  }

  lemma HalvedIndex(n: nat, i: nat, a: bool)
    requires n % 2 == 0
    ensures var i' := if a then n + i else i; i' % 2 == i % 2 && i' / 2 == (if a then n / 2 + i / 2 else i / 2)
  {}

  /** Every entry is c times its Walsh sign. */
  ghost predicate WalshEntries(h: seq<seq<real>>, c: real) {
    forall i, j :: 0 <= i < |h| && 0 <= j < |h[i]| ==> h[i][j] == Signed(c, Walsh(i, j))
  }

  /** Entry j of a row whose second half is the first, negated or not. */
  lemma HalvesEntry(n: nat, u: seq<real>, v: seq<real>, s: real, minus: bool, j: nat)
    requires |u| == |v| == n && j < 2 * n && forall k :: 0 <= k < n ==> v[k] == Signed(u[k], minus)
    ensures Scale(s, u + v)[j] == Multiple(s, Signed(u[Base(n, j)], minus && j >= n))
  {
    ScaledEntryIs(s, u + v, j);
  }

  lemma SignOfHalf(x: real, minus: bool)
    ensures Multiple(if minus then -1.0 else 1.0, x) == Signed(x, minus)
  {}

  lemma DoubledEntry(h: seq<seq<real>>, n: nat, s: real, i: nat, j: nat)
    requires Square(h, n) && i < 2 * n && j < 2 * n
    ensures |Doubled(h, s)[i]| == 2 * n
    ensures Doubled(h, s)[i][j] == Multiple(s, Signed(h[Base(n, i)][Base(n, j)], i >= n && j >= n))
  {
    var u, q := h[Base(n, i)], Half(n, i);
    DoubledRow(h, n, s, i);
    forall k | 0 <= k < n ensures Scale(q, u)[k] == Signed(u[k], i >= n) {
      ScaledEntryIs(q, u, k);
      SignOfHalf(u[k], i >= n);
    }
    HalvesEntry(n, u, Scale(q, u), s, i >= n, j);
  }

  /** Doubling keeps the Walsh signs. */
  lemma DoubledWalsh(h: seq<seq<real>>, n: nat, s: real, c: real)
    requires Square(h, n) && IsPow2(n) && WalshEntries(h, c)
    ensures WalshEntries(Doubled(h, s), Multiple(s, c))
  {
    var d := Doubled(h, s);
    forall i: nat, j: nat | i < |d| && j < |d[i]| ensures d[i][j] == Signed(Multiple(s, c), Walsh(i, j)) {
      DoubledEntry(h, n, s, i, 0);
      DoubledWalshAt(h, n, s, c, i, j);
    }
  }

  lemma DoubledWalshAt(h: seq<seq<real>>, n: nat, s: real, c: real, i: nat, j: nat)
    requires Square(h, n) && IsPow2(n) && WalshEntries(h, c) && i < 2 * n && j < 2 * n
    ensures Doubled(h, s)[i] == DoubledAt(h, s, i) && |DoubledAt(h, s, i)| == 2 * n
    ensures DoubledAt(h, s, i)[j] == Signed(Multiple(s, c), Walsh(i, j))
  {
    var e, minus := h[Base(n, i)][Base(n, j)], Walsh(Base(n, i), Base(n, j));
    WalshOfBase(n, i, j);
    DoubledEntry(h, n, s, i, j);
    SignsMeet(Doubled(h, s)[i][j], s, e, c, minus, i >= n && j >= n, Walsh(i, j));
  }

  lemma WalshOfBase(n: nat, i: nat, j: nat)
    requires IsPow2(n) && i < 2 * n && j < 2 * n
    ensures Walsh(i, j) == (Walsh(Base(n, i), Base(n, j)) != (i >= n && j >= n))
  {
    WalshDoubles(n, Base(n, i), Base(n, j), i >= n, j >= n);
  }

  lemma SignsMeet(x: real, s: real, e: real, c: real, minus: bool, again: bool, result: bool)
    requires x == Multiple(s, Signed(e, again)) && e == Signed(c, minus) && result == (minus != again)
    ensures x == Signed(Multiple(s, c), result)
  {}

  // ----- the Sylvester loops -----

  /** n is a power of two. */
  predicate IsPow2(n: nat)
    decreases n
  {
    n == 1 || (n > 1 && n % 2 == 0 && IsPow2(n / 2))
  }

  /** Within one octave there is only one power of two. */
  lemma {:induction false} OnePow2PerOctave(n: nat, m: nat)
    requires IsPow2(n) && IsPow2(m) && n <= m < 2 * n
    ensures m == n
  {
    if n > 1 {
      OnePow2PerOctave(n / 2, m / 2);
    }
  }

  /** One pass of a Sylvester loop. */
  lemma SylvesterStep(h: seq<seq<real>>, n: nat, e: real, s: real, c: real, e': real)
    requires IsPow2(n) && Orthogonal(h, n, e) && WalshEntries(h, c) && e' == 2.0 * (s * s) * e
    ensures IsPow2(2 * n) && Orthogonal(Doubled(h, s), 2 * n, e') && WalshEntries(Doubled(h, s), Multiple(s, c))
  {
    DoubledOrthogonal(h, n, e, s, e');
    DoubledWalsh(h, n, s, c);
  }

  /** `_hadamard_matrix`: doubling until the size reaches n gives H * H^T = size * I, and the size is
      the least power of two that is at least n (n itself when n is one). */
  method HadamardMatrix(n: nat) returns (h: seq<seq<real>>)
    requires 1 <= n
    ensures IsPow2(|h|) && n <= |h| < 2 * n
    ensures IsPow2(n) ==> |h| == n
    ensures Orthogonal(h, |h|, |h| as real)
    ensures WalshEntries(h, 1.0)
  {
    h := [[1.0]];
    UnitOrthogonal();
    while |h| < n
      invariant IsPow2(|h|) && |h| < 2 * n
      invariant Orthogonal(h, |h|, |h| as real) && WalshEntries(h, 1.0)
      decreases n - |h|
    {
      SylvesterStep(h, |h|, |h| as real, 1.0, 1.0, (2 * |h|) as real);
      MultipleOfOne(1.0);
      h := Doubled(h, 1.0);
    }
    if IsPow2(n) {
      OnePow2PerOctave(n, |h|);
    }
  }

  lemma UnitOrthogonal()
    ensures Orthogonal([[1.0]], 1, 1.0)
  {
    SumSingle(1, 0, DotTerm([1.0], [1.0]));
  }

  /** `_hadamard_sylvester`: the same loop scaled by 1/sqrt(2) each time gives H * H^T = I. */
  method NormalizedSylvester(n: nat, inv: real) returns (h: seq<seq<real>>)
    requires 1 <= n && 2.0 * (inv * inv) == 1.0
    ensures IsPow2(|h|) && n <= |h| < 2 * n
    ensures IsPow2(n) ==> |h| == n
    ensures Orthogonal(h, |h|, 1.0)
    ensures exists c :: WalshEntries(h, c) && (inv > 0.0 ==> c > 0.0)
  {
    h := [[1.0]];
    UnitOrthogonal();
    ghost var c := 1.0;
    while |h| < n
      invariant IsPow2(|h|) && |h| < 2 * n
      invariant Orthogonal(h, |h|, 1.0) && WalshEntries(h, c) && (inv > 0.0 ==> c > 0.0)
      decreases n - |h|
    {
      SylvesterStep(h, |h|, 1.0, inv, c, 1.0);
      PositiveProduct(inv, c);
      c := Multiple(inv, c);
      h := Doubled(h, inv);
    }
    if IsPow2(n) {
      OnePow2PerOctave(n, |h|);
    }
  }

  lemma PositiveProduct(a: real, b: real)
    ensures a > 0.0 && b > 0.0 ==> Multiple(a, b) > 0.0
  {}

  // ----- sign flips -----

  predicate Signs(s: seq<real>, n: nat) {
    |s| == n && forall i :: 0 <= i < n ==> s[i] == 1.0 || s[i] == -1.0
  }

  /** S * H scaled by r: row i times r * s[i]. */
  function FlipRows(h: seq<seq<real>>, s: seq<real>, r: real): seq<seq<real>>
    requires |s| == |h|
  {
    seq(|h|, i requires 0 <= i < |h| => Scale(Multiple(r, s[i]), h[i]))
  }

  /** `_make_random_hadamard`: random row signs and the 1/sqrt(n) factor r keep the rotation orthogonal. */
  lemma FlippedRowsOrthogonal(h: seq<seq<real>>, n: nat, c: real, s: seq<real>, r: real)
    requires Orthogonal(h, n, c) && Signs(s, n)
    ensures Orthogonal(FlipRows(h, s, r), n, r * r * c)
  {
    forall i, k | 0 <= i < n && 0 <= k < n
      ensures Dot(n, FlipRows(h, s, r)[i], FlipRows(h, s, r)[k]) == (if i == k then r * r * c else 0.0)
    {
      DotScale(n, h[i], h[k], Multiple(r, s[i]), Multiple(r, s[k]));
      SignsSquare(r, s[i], s[k], Dot(n, h[i], h[k]), i == k);
    }
  }

  lemma SignsSquare(r: real, p: real, q: real, d: real, same: bool)
    requires (p == 1.0 || p == -1.0) && (q == 1.0 || q == -1.0) && (same ==> p == q) && (!same ==> d == 0.0)
    ensures r * p * (r * q) * d == (if same then r * r * d else 0.0)
  {}

  lemma FlippedEntry(h: seq<seq<real>>, n: nat, s: seq<real>, r: real, i: nat, j: nat)
    requires Square(h, n) && |s| == n && i < n && j < n
    ensures |FlipRows(h, s, r)| == n && |FlipRows(h, s, r)[i]| == n
    ensures FlipRows(h, s, r)[i][j] == Multiple(Multiple(r, s[i]), h[i][j])
  {
    assert FlipRows(h, s, r)[i] == Scale(Multiple(r, s[i]), h[i]);
    ScaledEntryIs(Multiple(r, s[i]), h[i], j);
  }

  /** Entry (i, j) is r times the sign of its row times its Walsh sign. */
  ghost predicate FlippedWalsh(m: seq<seq<real>>, n: nat, s: seq<real>, r: real) {
    && Square(m, n) && |s| == n
    && forall i, j :: 0 <= i < n && 0 <= j < n ==> m[i][j] == Signed(Multiple(r, s[i]), Walsh(i, j))
  }

  lemma FlippedEntries(h: seq<seq<real>>, n: nat, s: seq<real>, r: real)
    requires Square(h, n) && |s| == n && WalshEntries(h, 1.0)
    ensures FlippedWalsh(FlipRows(h, s, r), n, s, r)
  {
    forall i, j | 0 <= i < n && 0 <= j < n
      ensures |FlipRows(h, s, r)[i]| == n && FlipRows(h, s, r)[i][j] == Signed(Multiple(r, s[i]), Walsh(i, j))
    {
      FlippedEntry(h, n, s, r, i, j);
      SignTaken(Multiple(r, s[i]), Walsh(i, j));
    }
  }

  lemma SignTaken(c: real, minus: bool)
    ensures Multiple(c, Signed(1.0, minus)) == Signed(c, minus)
  {}

  lemma FlippedSylvester(h: seq<seq<real>>, n: nat, s: seq<real>, r: real)
    requires Orthogonal(h, n, n as real) && WalshEntries(h, 1.0) && Signs(s, n) && r * r * n as real == 1.0
    ensures Orthogonal(FlipRows(h, s, r), n, 1.0) && FlippedWalsh(FlipRows(h, s, r), n, s, r)
  {
    FlippedRowsOrthogonal(h, n, n as real, s, r);
    FlippedEntries(h, n, s, r);
  }

  /** `_make_random_hadamard` for a power of two n and 1/sqrt(n) = r: the result is orthonormal, and
      its entries are r times the Walsh signs, with the sign of their row. */
  method MakeRandomHadamard(n: nat, s: seq<real>, r: real) returns (m: seq<seq<real>>)
    requires IsPow2(n) && Signs(s, n) && r * r * n as real == 1.0
    ensures Orthogonal(m, n, 1.0)
    ensures FlippedWalsh(m, n, s, r)
  {
    var h := HadamardMatrix(n);
    FlippedSylvester(h, n, s, r);
    m := FlipRows(h, s, r);
  }

  /** H * S: column j times s[j]. */
  function FlipColumns(h: seq<seq<real>>, s: seq<real>): seq<seq<real>> {
    seq(|h|, i requires 0 <= i < |h| => seq(|h[i]|, j requires 0 <= j < |h[i]| => h[i][j] * At(s, j)))
  }

  lemma FlippedColumnEntry(h: seq<seq<real>>, n: nat, s: seq<real>, i: nat, j: nat)
    requires Square(h, n) && |s| == n && i < n && j < n
    ensures |FlipColumns(h, s)| == n && |FlipColumns(h, s)[i]| == n && FlipColumns(h, s)[i][j] == h[i][j] * s[j]
  {}

  /** `_random_hadamard`: random column signs change no inner product of rows. */
  lemma FlippedColumnsOrthogonal(h: seq<seq<real>>, n: nat, c: real, s: seq<real>)
    requires Orthogonal(h, n, c) && Signs(s, n)
    ensures Orthogonal(FlipColumns(h, s), n, c)
  {
    forall i, k | 0 <= i < n && 0 <= k < n
      ensures Dot(n, FlipColumns(h, s)[i], FlipColumns(h, s)[k]) == (if i == k then c else 0.0)
    {
      var f, g := DotTerm(h[i], h[k]), DotTerm(FlipColumns(h, s)[i], FlipColumns(h, s)[k]);
      forall j | 0 <= j < n ensures g(j) == f(j) {
        assert s[j] * s[j] == 1.0;
        Regroup(h[i][j], s[j], h[k][j], s[j]);
      }
      SumCong(n, g, f);
    }
  }

  // ----- rotating vectors -----

  function EntryOf(h: seq<seq<real>>): Matrix {
    (d, e) => if 0 <= d < |h| then At(h[d], e) else 0.0
  }

  /** Component e of x * H. */
  function Rotated(n: nat, x: int -> real, h: Matrix): int -> real {
    e => Sum(n, RotTerm(x, h, e))
  }

  function RotTerm(x: int -> real, h: Matrix, e: int): int -> real {
    d => x(d) * h(d, e)
  }

  function Product(u: int -> real, v: int -> real): int -> real {
    j => u(j) * v(j)
  }

  function Weighted(x: int -> real, h: Matrix): Matrix {
    (e, d) => x(d) * h(d, e)
  }

  /** Rows e of two weighted matrices give the components of the rotated vectors; summing their
      products pairs every two rows of H. */
  lemma RotationPreservesDot(n: nat, x: int -> real, y: int -> real, h: seq<seq<real>>, c: real)
    requires Orthogonal(h, n, c)
    ensures Sum(n, Product(Rotated(n, x, EntryOf(h)), Rotated(n, y, EntryOf(h)))) == Multiple(c, Sum(n, Product(x, y)))
  {
    var a, b := Weighted(x, EntryOf(h)), Weighted(y, EntryOf(h));
    ComponentSum(n, x, y, EntryOf(h));
    PairsOfRows(n, x, y, h, c);
    Sum2Diagonal(n, CrossGram(n, a, b), ScaledProduct(c, x, y));
    SumScale(n, c, Product(x, y), ScaledProduct(c, x, y));
  }

  function ScaledProduct(c: real, x: int -> real, y: int -> real): int -> real {
    d => c * (x(d) * y(d))
  }

  lemma ComponentSum(n: nat, x: int -> real, y: int -> real, m: Matrix)
    ensures Sum(n, Product(Rotated(n, x, m), Rotated(n, y, m))) == Sum2(n, CrossGram(n, Weighted(x, m), Weighted(y, m)))
  {
    var a, b := Weighted(x, m), Weighted(y, m);
    CrossSum(n, n, a, b);
    forall e | 0 <= e < n ensures RowProducts(n, a, b)(e) == Product(Rotated(n, x, m), Rotated(n, y, m))(e) {
      SumCong(n, RowOf(a, e), RotTerm(x, m, e));
      SumCong(n, RowOf(b, e), RotTerm(y, m, e));
    }
    SumCong(n, RowProducts(n, a, b), Product(Rotated(n, x, m), Rotated(n, y, m)));
  }

  lemma PairsOfRows(n: nat, x: int -> real, y: int -> real, h: seq<seq<real>>, c: real)
    requires Orthogonal(h, n, c)
    ensures forall d, f :: 0 <= d < n && 0 <= f < n ==>
              (CrossGram(n, Weighted(x, EntryOf(h)), Weighted(y, EntryOf(h)))(d, f)
            == (if d == f then ScaledProduct(c, x, y)(d) else 0.0))
  {
    forall d, f | 0 <= d < n && 0 <= f < n
      ensures CrossGram(n, Weighted(x, EntryOf(h)), Weighted(y, EntryOf(h)))(d, f)
           == (if d == f then ScaledProduct(c, x, y)(d) else 0.0)
    {
      PairOfRows(n, x, y, h, c, d, f);
    }
  }

  lemma PairOfRows(n: nat, x: int -> real, y: int -> real, h: seq<seq<real>>, c: real, d: int, f: int)
    requires Orthogonal(h, n, c) && 0 <= d < n && 0 <= f < n
    ensures CrossGram(n, Weighted(x, EntryOf(h)), Weighted(y, EntryOf(h)))(d, f)
         == (if d == f then ScaledProduct(c, x, y)(d) else 0.0)
  {
    var m := EntryOf(h);
    var g, k := CrossTerm(Weighted(x, m), Weighted(y, m), d, f), DotTerm(h[d], h[f]);
    forall e | 0 <= e < n ensures g(e) == x(d) * y(f) * k(e) {
      Regroup(x(d), At(h[d], e), y(f), At(h[f], e));
    }
    SumScale(n, x(d) * y(f), k, g);
  }
}
