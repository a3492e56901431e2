/** The search over a window of candidate scales, for one block. */
module ScaleSearch {
  import opened Rounding
  import opened HiF4
  import opened BlockSearch
  import opened Baseline
  import opened Doubling
  import E6M2

  /** The candidate scales of a block. */
  function Window(w: seq<real>, n: int): (cs: seq<real>)
    requires 2 <= n
    ensures |cs| == n && forall c :: 0 <= c < n ==> cs[c] > 0.0 && cs[c] in E6M2.Table()
  {
    E6M2.Candidates(Target(w), n)
  }

  /** The position of the first least value among the first k. */
  function FirstMin(ms: seq<real>, k: int): (r: int)
    requires 1 <= k <= |ms|
    ensures 0 <= r < k
    ensures forall c :: 0 <= c < k ==> ms[r] <= ms[c]
    ensures forall c :: 0 <= c < r ==> ms[r] < ms[c]
  {
    if k == 1 then 0
    else
      var r := FirstMin(ms, k - 1);
      if ms[k - 1] < ms[r] then k - 1 else r
  }

  /** The `block_mse` of each candidate scale. */
  function Mses(w: seq<real>, imp: Importance, cs: seq<real>): (ms: seq<real>)
    requires forall c :: 0 <= c < |cs| ==> cs[c] > 0.0
    ensures |ms| == |cs|
  {
    seq(|cs|, c requires 0 <= c < |cs| => BlockMse(w, imp, cs[c]))
  }

  /** The first candidate of least `block_mse`. */
  function BestIndex(w: seq<real>, imp: Importance, cs: seq<real>): (r: int)
    requires cs != [] && forall c :: 0 <= c < |cs| ==> cs[c] > 0.0
    ensures 0 <= r < |cs|
  {
    FirstMin(Mses(w, imp, cs), |cs|)
  }

  /** What the candidate loop keeps for a block. */
  function SearchBlock(w: seq<real>, imp: Importance, n: int): Block
    requires 2 <= n
  {
    var cs := Window(w, n);
    QuantizeGivenScale(w, imp, cs[BestIndex(w, imp, cs)])
  }

  /** `block_mse` orders scales as the error of their encodings does. */
  lemma MseOrdersErr(w: seq<real>, imp: Importance, s: real, t: real)
    requires s > 0.0 && t > 0.0
    ensures BlockMse(w, imp, s) <= BlockMse(w, imp, t) <==>
            Err(w, imp, QuantizeGivenScale(w, imp, s)) <= Err(w, imp, QuantizeGivenScale(w, imp, t))
  {
    QuantizeErr(w, imp, s);
    QuantizeErr(w, imp, t);
    DivOrder(Err(w, imp, QuantizeGivenScale(w, imp, s)), Err(w, imp, QuantizeGivenScale(w, imp, t)), BlockNorm(imp));
  }

  lemma DivOrder(x: real, y: real, n: real)
    requires n > 0.0
    ensures x / n <= y / n <==> x <= y
  {
    assert x / n * n == x && y / n * n == y;
    ScaledOrder(x / n, y / n, n);
  }

  lemma ScaledOrder(a: real, b: real, n: real)
    requires n > 0.0
    ensures a <= b <==> a * n <= b * n
  {
    if a <= b {
      MulMono(a, b, n);
    } else {
      StrictMulMono(b, a, n);
    }
  }

  lemma BestBeats(w: seq<real>, imp: Importance, cs: seq<real>, c: int)
    requires 0 <= c < |cs| && forall c :: 0 <= c < |cs| ==> cs[c] > 0.0
    ensures Err(w, imp, QuantizeGivenScale(w, imp, cs[BestIndex(w, imp, cs)]))
         <= Err(w, imp, QuantizeGivenScale(w, imp, cs[c]))
  {
    BestIsLeast(w, imp, cs, c);
    MseOrdersErr(w, imp, cs[BestIndex(w, imp, cs)], cs[c]);
  }

  lemma BestIsLeast(w: seq<real>, imp: Importance, cs: seq<real>, c: int)
    requires 0 <= c < |cs| && forall c :: 0 <= c < |cs| ==> cs[c] > 0.0
    ensures BlockMse(w, imp, cs[BestIndex(w, imp, cs)]) <= BlockMse(w, imp, cs[c])
  {
    var ms := Mses(w, imp, cs);
    assert ms[FirstMin(ms, |cs|)] <= ms[c];
  }

  /** Joint optimality: the searched block has the least weighted error among all legal encodings
      whose scale factor lies in the window. */
  lemma SearchBlockOptimal(w: seq<real>, imp: Importance, n: int, e: Block)
    requires 2 <= n && ValidImportance(imp) && WellFormed(e)
    ensures e.sf in Window(w, n) ==> Err(w, imp, SearchBlock(w, imp, n)) <= Err(w, imp, e)
  {
    var cs := Window(w, n);
    if e.sf in cs {
      var c :| 0 <= c < n && cs[c] == e.sf;
      BestBeats(w, imp, cs, c);
      SearchIsOptimal(w, imp, e);
    }
  }

  lemma SearchBlockWellFormed(w: seq<real>, imp: Importance, n: int)
    requires 2 <= n
    ensures WellFormed(SearchBlock(w, imp, n)) && SearchBlock(w, imp, n).sf in E6M2.Table()
    ensures SearchBlock(w, imp, n).sf in Window(w, n)
  {
    var cs := Window(w, n);
    var m := MseTable(w, imp, cs[BestIndex(w, imp, cs)]);
    EncodeWellFormed(w, cs[BestIndex(w, imp, cs)],
                     g => MicroExponents.UseLv2(m, g), h => MicroExponents.UseLv3(m, h));
  }

  /** Exactly when the window contains the baseline's scale, for every candidate count. */
  lemma BaselineInWindow(w: seq<real>, n: int)
    requires |w| == BLK_SIZE && 2 <= n
    ensures StandardBlock(w).sf in Window(w, n) <==> E6M2.Reached(E6M2.Position(Target(w)), n, ScaleIndex(w))
  {
    StandardScale(w);
    ScaleIndexIsNeighbour(w);
    var idx, r := E6M2.Position(Target(w)), ScaleIndex(w);
    E6M2.NeighbourInWindow(idx, n, r);
    if E6M2.InWindow(idx, n, r) {
      E6M2.WindowMembers(Target(w), n, r);
    }
    if StandardBlock(w).sf in Window(w, n) {
      E6M2.MembersInWindow(Target(w), n, r);
    }
  }

  /** Non-inferiority to Algorithm 1, weighted or not: for every odd candidate count from 3 on, and for
      even counts wherever they reach the baseline's scale. */
  lemma NeverWorseThanBaseline(w: seq<real>, imp: Importance, n: int)
    requires |w| == BLK_SIZE && ValidImportance(imp) && 2 <= n
    ensures n % 2 == 1 || E6M2.Reached(E6M2.Position(Target(w)), n, ScaleIndex(w)) ==>
              Err(w, imp, SearchBlock(w, imp, n)) <= Err(w, imp, StandardBlock(w))
  {
    StandardWellFormed(w);
    BaselineInWindow(w, n);
    SearchBlockOptimal(w, imp, n, StandardBlock(w));
  }

  /** More candidates never give a larger error wherever they supersede the fewer: all odd counts but
      five do so always, for every smaller count, and five for the odd and even counts from five on. */
  lemma WiderIsNeverWorse(w: seq<real>, imp: Importance, m: int, n: int)
    requires |w| == BLK_SIZE && ValidImportance(imp) && 2 <= m <= n
    ensures E6M2.Supersedes(E6M2.Position(Target(w)), m, n) ==>
              Err(w, imp, SearchBlock(w, imp, n)) <= Err(w, imp, SearchBlock(w, imp, m))
  {
    if E6M2.Supersedes(E6M2.Position(Target(w)), m, n) {
      var e := SearchBlock(w, imp, m);
      SearchBlockWellFormed(w, imp, m);
      var r := E6M2.CandidatePosition(Target(w), m, e.sf);
      E6M2.SupersededPositions(E6M2.Position(Target(w)), m, n, r);
      ReachedOrDouble(w, imp, n, e, r);
    }
  }

  /** A legal encoding is not better than the search if its scale is a candidate, or the double of one
      that is at least the target. */
  lemma ReachedOrDouble(w: seq<real>, imp: Importance, n: int, e: Block, r: int)
    requires |w| == BLK_SIZE && ValidImportance(imp) && 2 <= n && WellFormed(e)
    requires 0 <= r < E6M2.TABLE_SIZE && e.sf == E6M2.Value(r) && E6M2.InWindowOrDouble(E6M2.Position(Target(w)), n, r)
    ensures Err(w, imp, SearchBlock(w, imp, n)) <= Err(w, imp, e)
  {
    if E6M2.InWindow(E6M2.Position(Target(w)), n, r) {
      E6M2.WindowMembers(Target(w), n, r);
      SearchBlockOptimal(w, imp, n, e);
    } else {
      E6M2.WindowMembers(Target(w), n, r - 4);
      E6M2.FourUpDoubles(r - 4);
      AboveTarget(w, r - 4);
      BeatsDouble(w, imp, n, E6M2.Value(r - 4), e);
    }
  }

  lemma BeatsDouble(w: seq<real>, imp: Importance, n: int, s: real, e: Block)
    requires |w| == BLK_SIZE && ValidImportance(imp) && 2 <= n && WellFormed(e) && s > 0.0 && e.sf == s * 2.0 && MaxAbs(w) <= 7.0 * s
    ensures s in Window(w, n) ==> Err(w, imp, SearchBlock(w, imp, n)) <= Err(w, imp, e)
  {
    if s in Window(w, n) {
      DoubleNeverHelps(w, imp, s, e);
      BeatsItsScale(w, imp, n, s);
    }
  }

  lemma AboveTarget(w: seq<real>, r: int)
    requires E6M2.Position(Target(w)) <= r < E6M2.TABLE_SIZE
    ensures MaxAbs(w) <= 7.0 * E6M2.Value(r)
  {
    E6M2.AtOrAbove(Target(w), r);
    TargetBounds(w);
  }

  lemma TargetBounds(w: seq<real>)
    ensures MaxAbs(w) <= 7.0 * Target(w)
  {}

  lemma BeatsItsScale(w: seq<real>, imp: Importance, n: int, s: real)
    requires 2 <= n && s > 0.0
    ensures s in Window(w, n) ==> Err(w, imp, SearchBlock(w, imp, n)) <= Err(w, imp, QuantizeGivenScale(w, imp, s))
  {
    var cs := Window(w, n);
    if s in cs {
      var c :| 0 <= c < n && cs[c] == s;
      BestBeats(w, imp, cs, c);
    }
  }
}
