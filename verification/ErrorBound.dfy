/** A worst-case bound on what the searched encoding loses. */
module ErrorBound {
  import opened Sums
  import opened Rounding
  import opened HiF4
  import opened BlockSearch
  import opened Baseline
  import opened Doubling
  import opened ScaleSearch
  import E6M2

  /** Both exponents doubled everywhere: the widest range a scale factor offers. */
  function Widest(w: seq<real>, sf: real): Block
    requires sf > 0.0
  {
    Encode(w, sf, Everywhere(), Everywhere())
  }

  /** With sf at least max/7 the widest encoding clips nothing: each element is off by at most sf/2. */
  lemma WidestElement(w: seq<real>, sf: real, j: int)
    requires |w| == BLK_SIZE && sf > 0.0 && MaxAbs(w) <= 7.0 * sf && 0 <= j < BLK_SIZE
    ensures Sq(Dequant(Widest(w, sf), j) - At(w, j)) <= Sq(sf) / 4.0
  {
    assert Abs(w[j]) <= MaxAbs(w);
    EncodeDequant(w, sf, Everywhere(), Everywhere(), j);
    SnapUnclipped(w[j], sf);
  }

  lemma ElementsToBlock(w: seq<real>, imp: Importance, e: Block, b: real)
    requires ValidImportance(imp)
    requires forall j :: 0 <= j < BLK_SIZE ==> Sq(Dequant(e, j) - At(w, j)) <= b
    ensures Err(w, imp, e) <= LevelErr(imp, b)
  {
    ErrBound(w, imp, Values(e), b);
  }

  lemma WidestErr(w: seq<real>, imp: Importance, sf: real, b: real)
    requires |w| == BLK_SIZE && ValidImportance(imp)
    requires sf > 0.0 && MaxAbs(w) <= 7.0 * sf && Sq(sf) / 4.0 <= b
    ensures Err(w, imp, Widest(w, sf)) <= LevelErr(imp, b)
  {
    forall j | 0 <= j < BLK_SIZE ensures Sq(Dequant(Widest(w, sf), j) - At(w, j)) <= b {
      WidestElement(w, sf, j);
    }
    ElementsToBlock(w, imp, Widest(w, sf), b);
  }

  lemma SearchBeatsWidest(w: seq<real>, imp: Importance, n: int, sf: real)
    requires ValidImportance(imp) && 2 <= n && sf > 0.0 && sf in Window(w, n)
    ensures Err(w, imp, SearchBlock(w, imp, n)) <= Err(w, imp, Widest(w, sf))
  {
    EncodeWellFormed(w, sf, Everywhere(), Everywhere());
    SearchBlockOptimal(w, imp, n, Widest(w, sf));
  }

  /** The entry at or above the target is always a candidate of an odd window, for targets in the table. */
  lemma CeilingInWindow(w: seq<real>, n: int)
    requires 3 <= n && n % 2 == 1 && MaxAbs(w) <= 7.0 * 49152.0
    ensures E6M2.Position(Target(w)) < E6M2.TABLE_SIZE
    ensures E6M2.Value(E6M2.Position(Target(w))) in Window(w, n)
    ensures Target(w) <= E6M2.Value(E6M2.Position(Target(w))) <= 1.25 * Target(w)
  {
    E6M2.TableEnds();
    E6M2.StrictlyIncreasing(0, 254);
    E6M2.CeilingRatio(Target(w));
    var idx := E6M2.Position(Target(w));
    E6M2.NeighbourInWindow(idx, n, idx);
    E6M2.WindowMembers(Target(w), n, idx);
  }

  /** The searched block loses no more than if every element were off by 5/56 of max, that is by
      b = 25/3136 of max^2 in the square, whatever the block and its weights. */
  lemma WeightedErrorBound(w: seq<real>, imp: Importance, n: int, b: real)
    requires |w| == BLK_SIZE && ValidImportance(imp) && 3 <= n && n % 2 == 1
    requires 7.0 * E6M2.Pow2(-48) <= MaxAbs(w) <= 7.0 * 49152.0
    requires b == 25.0 / 3136.0 * Sq(MaxAbs(w))
    ensures Err(w, imp, SearchBlock(w, imp, n)) <= LevelErr(imp, b)
  {
    CeilingInWindow(w, n);
    var sf := E6M2.Value(E6M2.Position(Target(w)));
    CeilingArithmetic(sf, MaxAbs(w));
    SearchBeatsWidest(w, imp, n, sf);
    WidestErr(w, imp, sf, b);
  }

  lemma CeilingArithmetic(sf: real, v: real)
    requires 0.0 <= sf <= 1.25 * (v / 7.0)
    ensures Sq(sf) / 4.0 <= 25.0 / 3136.0 * Sq(v)
  {
    SquareMono(sf, 1.25 * (v / 7.0));
    assert Sq(1.25 * (v / 7.0)) == 25.0 / 784.0 * Sq(v);
  }

  /** Without importance: at most 25/49 of max^2 over the whole block. */
  lemma UniformErrorBound(w: seq<real>, n: int)
    requires |w| == BLK_SIZE && 3 <= n && n % 2 == 1
    requires 7.0 * E6M2.Pow2(-48) <= MaxAbs(w) <= 7.0 * 49152.0
    ensures Err(w, Uniform, SearchBlock(w, Uniform, n)) <= 25.0 / 49.0 * Sq(MaxAbs(w))
  {
    var b := 25.0 / 3136.0 * Sq(MaxAbs(w));
    assert 25.0 / 49.0 * Sq(MaxAbs(w)) == b * 64.0;
    UniformBound(w, n, b);
  }

  lemma UniformBound(w: seq<real>, n: int, b: real)
    requires |w| == BLK_SIZE && 3 <= n && n % 2 == 1
    requires 7.0 * E6M2.Pow2(-48) <= MaxAbs(w) <= 7.0 * 49152.0
    requires b == 25.0 / 3136.0 * Sq(MaxAbs(w))
    ensures Err(w, Uniform, SearchBlock(w, Uniform, n)) <= b * 64.0
  {
    WeightedErrorBound(w, Uniform, n, b);
    UniformLevel(b);
  }

  lemma UniformLevel(b: real)
    ensures LevelErr(Uniform, b) == b * 64.0
  {
    ConstantSum(BLK_SIZE, b, LevelLoss(Uniform, b));
  }

  lemma {:induction false} ConstantSum(n: nat, b: real, f: int -> real)
    requires forall i :: 0 <= i < n ==> f(i) == b
    ensures Sum(n, f) == b * n as real
  {
    if n > 0 {
      ConstantSum(n - 1, b, f);
      OneMore(b, (n - 1) as real, n as real);
    }
  }

  lemma OneMore(b: real, x: real, y: real)
    requires y == x + 1.0
    ensures b * x + b == b * y
  {}
}
