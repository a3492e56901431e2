/** For which pairs of candidate counts more candidates never lose to fewer, on any block: exactly those
    given by `WiderHelps`. Each other pair has a block on which the larger count loses. */
module WiderCounts {
  import opened Sums
  import opened HiF4
  import opened Baseline
  import opened ScaleSearch
  import opened Doubling
  import opened CandidateCounts
  import E6M2

  ghost predicate HoldsFewer(w: seq<real>, imp: Importance, m: int, n: int)
    requires |w| == BLK_SIZE && 2 <= m && 2 <= n
  {
    Err(w, imp, SearchBlock(w, imp, n)) <= Err(w, imp, SearchBlock(w, imp, m))
  }

  /** Eight values 196608 and fifty-six values 12288: exact at the largest scale, which two, three and
      four candidates reach and five do not. */
  function MixedBlock(): (w: seq<real>)
    ensures |w| == BLK_SIZE && forall j :: 0 <= j < BLK_SIZE ==> w[j] == if j < 8 then 196608.0 else 12288.0
  {
    seq(BLK_SIZE, j => if j < 8 then 196608.0 else 12288.0)
  }

  function MixedEncoding(): Block {
    Block(49152.0,
          seq(8, g => if g == 0 then 2.0 else 1.0),
          seq(16, h => if h == 0 || h == 1 then 2.0 else 1.0),
          seq(BLK_SIZE, _ => 1.0),
          seq(BLK_SIZE, j => if j < 8 then 1.0 else 0.25))
  }

  lemma MixedIsExact()
    ensures WellFormed(MixedEncoding()) && Err(MixedBlock(), Uniform, MixedEncoding()) == 0.0
  {
    var e := MixedEncoding();
    assert forall j :: 0 <= j < BLK_SIZE ==> IsMantissa(e.mant[j]);
    forall j | 0 <= j < BLK_SIZE ensures Dequant(e, j) == At(MixedBlock(), j) {}
    ExactBlock(MixedBlock(), Uniform, e);
  }

  lemma MixedPosition()
    ensures E6M2.Position(Target(MixedBlock())) == 251
  {
    var t := Target(MixedBlock());
    MaxIsFirst(MixedBlock(), 196608.0);
    E6M2.SmallestScale();
    LargestEntries();
    var r := E6M2.Position(t);
    if r < 250 {
      E6M2.StrictlyIncreasing(r, 250);
    }
  }

  /** Each of the entries 249 to 253 misses one of the two values. */
  lemma MixedMissed(r: int)
    requires 249 <= r <= 253
    ensures Missed(MixedBlock()[0], E6M2.Value(r)) || Missed(MixedBlock()[8], E6M2.Value(r))
  {
    LargestEntries();
    var s := E6M2.Value(r);
    if r == 250 {
      forall k: int | -28 <= k <= 28 ensures Steps(k, s) != 196608.0 {}
      assert Missed(196608.0, s);
    } else {
      forall k: int | -28 <= k <= 28 ensures Steps(k, s) != 12288.0 {
        assert 5 * k != 12 && 7 * k != 12 && 2 * k != 3 && 5 * k != 6;
      }
      assert Missed(12288.0, s);
    }
  }

  lemma FiveLose()
    ensures 0.0 < Err(MixedBlock(), Uniform, SearchBlock(MixedBlock(), Uniform, 5))
  {
    var w := MixedBlock();
    MixedPosition();
    forall r | 0 <= r < E6M2.TABLE_SIZE && E6M2.InWindow(251, 5, r)
      ensures exists j :: 0 <= j < BLK_SIZE && Missed(w[j], E6M2.Value(r))
    {
      E6M2.WindowBounds(251, 5, r);
      MixedMissed(r);
    }
    SearchLoses(w, 5);
  }

  /** Up to four candidates encode the mixed block exactly. */
  lemma FewerAreExact(m: int)
    requires 2 <= m <= 4
    ensures Err(MixedBlock(), Uniform, SearchBlock(MixedBlock(), Uniform, m)) <= 0.0
  {
    var w := MixedBlock();
    MixedPosition();
    MixedIsExact();
    LargestEntries();
    E6M2.SmallWindow(251, m, 254);
    E6M2.WindowMembers(Target(w), m, 254);
    SearchBlockOptimal(w, Uniform, m, MixedEncoding());
  }

  /** The pairs of counts for which more candidates never lose to fewer. */
  predicate WiderHelps(m: int, n: int) {
    m == n || (n % 2 == 1 && n != 5) || (n % 2 == 0 && m % 2 == 0 && m >= 6)
  }

  /** The block on which n candidates lose to m. */
  function WiderLosingBlock(n: int): (w: seq<real>)
    ensures |w| == BLK_SIZE
  {
    if n == 5 then MixedBlock() else SevenBlock(E6M2.Value(if n == 4 then 253 else 254))
  }

  lemma HelpsSupersedes(idx: int, m: int, n: int)
    requires 2 <= m <= n && 0 <= idx <= E6M2.TABLE_SIZE && WiderHelps(m, n)
    ensures E6M2.Supersedes(idx, m, n)
  {}

  /** A count that reaches entry i encodes seven times it exactly. */
  lemma ReachIsExact(m: int, i: nat)
    requires 2 <= m && i < E6M2.TABLE_SIZE && E6M2.Reached(i, m, i)
    ensures Err(SevenBlock(E6M2.Value(i)), Uniform, SearchBlock(SevenBlock(E6M2.Value(i)), Uniform, m)) <= 0.0
  {
    BaselineIsExact(i);
    NeverWorseThanBaseline(SevenBlock(E6M2.Value(i)), Uniform, m);
  }

  /** Which counts fail: n is five or even, and m reaches the entry that n misses. */
  lemma Failing(m: int, n: int)
    requires 2 <= m <= n && !WiderHelps(m, n)
    ensures n == 5 ==> m <= 4
    ensures n == 4 ==> E6M2.Reached(253, m, 253)
    ensures n != 4 && n != 5 ==> 6 <= n && n % 2 == 0 && E6M2.Reached(254, m, 254)
  {}

  lemma Loses(w: seq<real>, m: int, n: int)
    requires |w| == BLK_SIZE && 2 <= m && 2 <= n
    ensures Err(w, Uniform, SearchBlock(w, Uniform, m)) <= 0.0 < Err(w, Uniform, SearchBlock(w, Uniform, n)) ==>
              !HoldsFewer(w, Uniform, m, n)
  {}

  lemma LosesToFewer(m: int, n: int)
    requires 2 <= m <= n && !WiderHelps(m, n)
    ensures !HoldsFewer(WiderLosingBlock(n), Uniform, m, n)
  {
    Failing(m, n);
    if n == 5 {
      FiveLose();
      FewerAreExact(m);
      Loses(MixedBlock(), m, n);
    } else if n == 4 {
      FourLose();
      ReachIsExact(m, 253);
      Loses(SevenBlock(E6M2.Value(253)), m, n);
    } else {
      EvenCountLoses(n);
      ReachIsExact(m, 254);
      Loses(SevenBlock(E6M2.Value(254)), m, n);
    }
  }

  /** More candidates never lose to fewer, on any block with any weights, exactly for these counts. */
  lemma WiderHoldsExactly(m: int, n: int)
    requires 2 <= m <= n
    ensures (forall w: seq<real>, imp :: |w| == BLK_SIZE && ValidImportance(imp) ==> HoldsFewer(w, imp, m, n)) <==> WiderHelps(m, n)
  {
    if WiderHelps(m, n) {
      forall w: seq<real>, imp | |w| == BLK_SIZE && ValidImportance(imp) ensures HoldsFewer(w, imp, m, n) {
        HelpsSupersedes(E6M2.Position(Target(w)), m, n);
        WiderIsNeverWorse(w, imp, m, n);
      }
    } else {
      LosesToFewer(m, n);
    }
  }
}
