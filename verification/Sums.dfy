/** Finite sums of reals: the `sum`, `mean` and matrix-product reductions of the
    tensor code, with the few laws the proofs need. */
module Sums {

  /** f(0) + f(1) + ... + f(n-1). Naming f in the measure keeps the verifier from unrolling
      sums over a constant range. */
  function Sum(n: nat, f: int -> real): real
    decreases n, f
  {
    if n == 0 then 0.0 else Sum(n - 1, f) + f(n - 1)
  }

  /** The entry of a vector, and 0 outside it, so that a vector can be summed by a total function. */
  function At(v: seq<real>, j: int): real {
    if 0 <= j < |v| then v[j] else 0.0
  }

  function Sq(x: real): real {
    x * x
  }

  lemma SqNonNeg(x: real)
    ensures 0.0 <= Sq(x)
  {}

  lemma {:induction false} SumCong(n: nat, f: int -> real, g: int -> real)
    requires forall i :: 0 <= i < n ==> f(i) == g(i)
    ensures Sum(n, f) == Sum(n, g)
  {
    if n > 0 {
      SumCong(n - 1, f, g);
    }
  }

  lemma {:induction false} SumMono(n: nat, f: int -> real, g: int -> real)
    requires forall i :: 0 <= i < n ==> f(i) <= g(i)
    ensures Sum(n, f) <= Sum(n, g)
  {
    if n > 0 {
      SumMono(n - 1, f, g);
    }
  }

  lemma {:induction false} SumZero(n: nat, f: int -> real)
    requires forall i :: 0 <= i < n ==> f(i) == 0.0
    ensures Sum(n, f) == 0.0
  {
    if n > 0 {
      SumZero(n - 1, f);
    }
  }

  lemma SumNonNeg(n: nat, f: int -> real)
    requires forall i :: 0 <= i < n ==> 0.0 <= f(i)
    ensures 0.0 <= Sum(n, f)
  {
    SumZero(n, i => 0.0);
    SumMono(n, i => 0.0, f);
  }

  /** A sum with at most one nonzero term is that term. */
  lemma {:induction false} SumSingle(n: nat, k: nat, f: int -> real)
    requires k < n
    requires forall i :: 0 <= i < n && i != k ==> f(i) == 0.0
    ensures Sum(n, f) == f(k)
  {
    if k == n - 1 {
      SumZero(n - 1, f);
    } else {
      SumSingle(n - 1, k, f);
    }
  }

  lemma {:induction false} SumAdd(n: nat, f: int -> real, g: int -> real, h: int -> real)
    requires forall i :: 0 <= i < n ==> h(i) == f(i) + g(i)
    ensures Sum(n, h) == Sum(n, f) + Sum(n, g)
  {
    if n > 0 {
      SumAdd(n - 1, f, g, h);
    }
  }

  lemma {:induction false} SumScale(n: nat, c: real, f: int -> real, h: int -> real)
    requires forall i :: 0 <= i < n ==> h(i) == c * f(i)
    ensures Sum(n, h) == c * Sum(n, f)
  {
    if n > 0 {
      SumScale(n - 1, c, f, h);
      assert c * (Sum(n - 1, f) + f(n - 1)) == c * Sum(n - 1, f) + c * f(n - 1);
    }
  }

  /** Splitting the index range in two. */
  lemma {:induction false} SumSplit(a: nat, b: nat, f: int -> real)
    ensures Sum(a + b, f) == Sum(a, f) + Sum(b, i => f(a + i))
  {
    if b > 0 {
      SumSplit(a, b - 1, f);
    }
  }

  /** Reshape: a flat sum over m*k indices is a sum over m rows of k. */
  lemma {:induction false} SumReshape(m: nat, k: nat, f: int -> real)
    ensures Sum(m * k, f) == Sum(m, r => Sum(k, c => f(r * k + c)))
  {
    if m > 0 {
      SumReshape(m - 1, k, f);
      SumSplit((m - 1) * k, k, f);
      assert (m - 1) * k + k == m * k;
      SumCong(k, i => f((m - 1) * k + i), c => f((m - 1) * k + c));
      SumCong(m - 1, r => Sum(k, c => f(r * k + c)), r => Sum(k, c => f(r * k + c)));
    }
  }

  lemma TwoTerms(f: int -> real)
    ensures Sum(2, f) == f(0) + f(1)
  {
    assert Sum(1, f) == Sum(0, f) + f(0);
  }

  /** The h-th run of k consecutive terms. */
  function RunSum(k: nat, f: int -> real, h: int): real {
    Sum(k, i => f(h * k + i))
  }

  function Runs(k: nat, f: int -> real): int -> real {
    h => RunSum(k, f, h)
  }

  lemma SumOfRuns(m: nat, k: nat, f: int -> real)
    ensures Sum(m * k, f) == Sum(m, Runs(k, f))
  {
    SumReshape(m, k, f);
    SumCong(m, r => Sum(k, c => f(r * k + c)), Runs(k, f));
  }

  /** The g-th group of b runs of k terms. */
  function GroupSum(b: nat, k: nat, f: int -> real): int -> real {
    g => Sum(b, s => RunSum(k, f, g * b + s))
  }

  /** A flat sum of a*b*k terms, as a groups of b runs of k. */
  lemma SumByRuns(a: nat, b: nat, k: nat, f: int -> real)
    ensures Sum(a * b * k, f) == Sum(a, GroupSum(b, k, f))
  {
    var run := h => RunSum(k, f, h);
    SumReshape(a * b, k, f);
    SumCong(a * b, r => Sum(k, c => f(r * k + c)), run);
    GroupReshape(a, b, k, f, run);
  }

  lemma GroupReshape(a: nat, b: nat, k: nat, f: int -> real, run: int -> real)
    requires forall h :: run(h) == RunSum(k, f, h)
    ensures Sum(a * b, run) == Sum(a, GroupSum(b, k, f))
  {
    SumReshape(a, b, run);
    forall g | 0 <= g < a ensures Sum(b, c => run(g * b + c)) == GroupSum(b, k, f)(g) {
      SumCong(b, c => run(g * b + c), s => RunSum(k, f, g * b + s));
    }
    SumCong(a, r => Sum(b, c => run(r * b + c)), GroupSum(b, k, f));
  }

  lemma SumByRunsMono(a: nat, b: nat, k: nat, f: int -> real, g: int -> real)
    requires forall i :: 0 <= i < a ==> GroupSum(b, k, f)(i) <= GroupSum(b, k, g)(i)
    ensures Sum(a * b * k, f) <= Sum(a * b * k, g)
  {
    SumByRuns(a, b, k, f);
    SumByRuns(a, b, k, g);
    SumMono(a, GroupSum(b, k, f), GroupSum(b, k, g));
  }

  lemma RunMono(k: nat, f: int -> real, g: int -> real, h: int)
    requires forall j :: h * k <= j < h * k + k ==> f(j) <= g(j)
    ensures RunSum(k, f, h) <= RunSum(k, g, h)
  {
    SumMono(k, i => f(h * k + i), i => g(h * k + i));
  }

  lemma RunCong(k: nat, f: int -> real, g: int -> real, h: int)
    requires forall j :: h * k <= j < h * k + k ==> f(j) == g(j)
    ensures RunSum(k, f, h) == RunSum(k, g, h)
  {
    SumCong(k, i => f(h * k + i), i => g(h * k + i));
  }
}
