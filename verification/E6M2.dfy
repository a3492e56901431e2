/** The E6M2 scale format: its table of 255 positive values, nearest-value rounding, and the
    windows of candidate scales that the block quantisers search. */
module E6M2 {
  import opened Rounding

  const TABLE_SIZE := 255
  const MIN_EXP := -48

  /** 2^e for any integer e. */
  function Pow2(e: int): (p: real)
    ensures p > 0.0
    decreases if e < 0 then -e else e
  {
    if e == 0 then 1.0 else if e > 0 then 2.0 * Pow2(e - 1) else Pow2(e + 1) / 2.0
  }

  lemma Pow2Step(e: int)
    ensures Pow2(e + 1) == 2.0 * Pow2(e)
  {}

  lemma {:induction false} Pow2Mono(a: int, b: int)
    requires a < b
    ensures 2.0 * Pow2(a) <= Pow2(b)
    decreases b - a
  {
    Pow2Step(b - 1);
    if a < b - 1 {
      Pow2Mono(a, b - 1);
    }
  }

  /** The i-th representable scale: mantissa 1 + (i mod 4)/4, exponent i div 4 - 48. */
  function Value(i: int): (v: real)
    requires 0 <= i
    ensures v > 0.0
  {
    Ldexp(1.0 + (i % 4) as real * 0.25, Pow2(i / 4 + MIN_EXP))
  }

  /** m * p, for a power of two p. */
  function Ldexp(m: real, p: real): (v: real)
    ensures m > 0.0 && p > 0.0 ==> v > 0.0
  {
    m * p
  }

  function Table(): (t: seq<real>)
    ensures |t| == TABLE_SIZE
    ensures forall i :: 0 <= i < TABLE_SIZE ==> t[i] == Value(i)
  {
    seq(TABLE_SIZE, i requires 0 <= i => Value(i))
  }

  /** The two append loops that build the table, ldexp(m, e) being m * 2^e. */
  method GenerateTable() returns (vals: seq<real>)
    ensures vals == Table()
  {
    vals := [];
    for e := -48 to 15
      invariant |vals| == 4 * (e + 48)
      invariant forall i :: 0 <= i < |vals| ==> vals[i] == Value(i)
    {
      for k := 0 to 4
        invariant |vals| == 4 * (e + 48) + k
        invariant forall i :: 0 <= i < |vals| ==> vals[i] == Value(i)
      {
        vals := vals + [Ldexp(1.0 + k as real * 0.25, Pow2(e))];
      }
    }
    for k := 0 to 3
      invariant |vals| == 252 + k
      invariant forall i :: 0 <= i < |vals| ==> vals[i] == Value(i)
    {
      vals := vals + [Ldexp(1.0 + k as real * 0.25, Pow2(15))];
    }
  }

  /** Neighbouring entries grow, by a factor of at most 5/4. */
  lemma AdjacentRatio(i: nat)
    ensures Value(i) < Value(i + 1) <= 1.25 * Value(i)
  {
    var e := i / 4 + MIN_EXP;
    var r := i % 4;
    Pow2Step(e);
    if r == 3 {
      assert (i + 1) / 4 == i / 4 + 1 && (i + 1) % 4 == 0;
    } else {
      assert (i + 1) / 4 == i / 4 && (i + 1) % 4 == r + 1;
    }
  }

  lemma {:induction false} StrictlyIncreasing(i: nat, j: nat)
    requires i < j
    ensures Value(i) < Value(j)
  {
    AdjacentRatio(j - 1);
    if i < j - 1 {
      StrictlyIncreasing(i, j - 1);
    }
  }

  /** The ends of the table: 2^-48 and 1.5 * 2^15 = 49152. */
  lemma TableEnds()
    ensures Value(0) == Pow2(-48)
    ensures Value(254) == 49152.0
  {
    assert Pow2(15) == 32768.0;
  }

  lemma {:induction false} Pow2Inverse(n: int)
    requires 0 <= n
    ensures Pow2(-n) * Pow2(n) == 1.0
  {
    if n > 0 {
      Pow2Inverse(n - 1);
      Pow2Step(-n);
    }
  }

  lemma Pow2By4(e: int)
    ensures Pow2(e + 4) == 16.0 * Pow2(e)
  {
    Pow2Step(e);
    Pow2Step(e + 1);
    Pow2Step(e + 2);
    Pow2Step(e + 3);
  }

  lemma Pow2By16(e: int)
    ensures Pow2(e + 16) == 65536.0 * Pow2(e)
  {
    Pow2By4(e);
    Pow2By4(e + 4);
    Pow2By4(e + 8);
    Pow2By4(e + 12);
  }

  /** 2^-48 as a fraction. */
  lemma SmallestScale()
    ensures Pow2(-48) == 1.0 / 281474976710656.0
  {
    Pow2At48();
    Pow2Inverse(48);
  }

  lemma Pow2At48()
    ensures Pow2(48) == 281474976710656.0
  {
    Pow2From(0);
  }

  lemma Pow2From(e: int)
    ensures Pow2(e + 48) == 281474976710656.0 * Pow2(e)
  {
    Pow2By16(e);
    Pow2By16(e + 16);
    Pow2By16(e + 32);
  }

  /** `searchsorted` (left): the first index from `i` on whose entry is at least x, or |t|. */
  function SearchSorted(t: seq<real>, x: real, i: nat): (r: nat)
    requires i <= |t|
    ensures i <= r <= |t|
    ensures forall k :: i <= k < r ==> t[k] < x
    ensures r < |t| ==> x <= t[r]
    decreases |t| - i, x
  {
    if i == |t| || x <= t[i] then i else SearchSorted(t, x, i + 1)
  }

  /** The position of a target scale in the table. */
  function Position(x: real): (r: nat)
    ensures r <= TABLE_SIZE
    ensures forall k :: 0 <= k < r ==> Value(k) < x
    ensures r < TABLE_SIZE ==> x <= Value(r)
  {
    var t := Table();
    var r := SearchSorted(t, x, 0);
    assert forall k :: 0 <= k < r ==> t[k] == Value(k);
    r
  }

  lemma AtOrAbove(x: real, r: int)
    requires Position(x) <= r < TABLE_SIZE
    ensures x <= Value(r)
  {
    if Position(x) < r {
      StrictlyIncreasing(Position(x), r);
    }
  }

  /** The entry right at or above an in-range target overshoots it by at most a factor 5/4. */
  lemma CeilingRatio(x: real)
    requires Value(0) <= x <= Value(254)
    ensures Position(x) < TABLE_SIZE
    ensures x <= Value(Position(x)) <= 1.25 * x
  {
    var r := Position(x);
    if r > 0 {
      AdjacentRatio(r - 1);
    }
  }

  // ----- nearest-value rounding -----

  /** clamp(min = 2^-48, max = 49152), the two ends of the table. */
  function ClampScale(x: real): real {
    MinR(MaxR(x, Pow2(-48)), 49152.0)
  }

  lemma ClampedPosition(x: real)
    ensures Value(0) <= ClampScale(x) <= Value(254)
    ensures Position(ClampScale(x)) < TABLE_SIZE
  {
    TableEnds();
    StrictlyIncreasing(0, 254);
    CeilingRatio(ClampScale(x));
  }

  /** The index `quantize_to_e6m2` picks for a positive value: the entry below wins ties. */
  function NearestIndex(x: real): (r: nat)
    requires x > 0.0
    ensures r < TABLE_SIZE
  {
    var c := ClampScale(x);
    var idx := Position(c);
    var lo, hi := Clamp(idx - 1, 0, TABLE_SIZE - 1), Clamp(idx, 0, TABLE_SIZE - 1);
    if Abs(c - Value(hi)) < Abs(c - Value(lo)) then hi else lo
  }

  /** `quantize_to_e6m2`: 0 for a non-positive input. */
  function QuantizeScale(x: real): real {
    if x > 0.0 then Value(NearestIndex(x)) else 0.0
  }

  /** Rounding to E6M2 is to nearest: no representable scale is closer to the clamped input. */
  lemma QuantizeScaleNearest(x: real, i: nat)
    requires x > 0.0 && i < TABLE_SIZE
    ensures var c := ClampScale(x);
            Abs(c - Value(NearestIndex(x))) <= Abs(c - Value(i))
  {
    ClampedPosition(x);
    var c := ClampScale(x);
    var idx := Position(c);
    if idx > 0 {
      PositionBrackets(c);
      OutsideNeighbours(idx, i);
      NearerNeighbour(c, Value(idx - 1), Value(idx), Value(i));
    }
  }

  /** A table entry is found at its own position, and is its own nearest entry. */
  lemma EntryPosition(i: nat)
    requires i < TABLE_SIZE
    ensures Position(Value(i)) == i && NearestIndex(Value(i)) == i
  {
    var r := Position(Value(i));
    if r < i {
      StrictlyIncreasing(r, i);
    }
    TableEnds();
    if 0 < i {
      StrictlyIncreasing(0, i);
      StrictlyIncreasing(i - 1, i);
    }
    if i < 254 {
      StrictlyIncreasing(i, 254);
    }
  }

  lemma PositionBrackets(c: real)
    requires 0 < Position(c) < TABLE_SIZE
    ensures Value(Position(c) - 1) < c <= Value(Position(c))
  {}

  lemma OutsideNeighbours(idx: nat, i: nat)
    requires idx > 0
    ensures Value(i) <= Value(idx - 1) || Value(idx) <= Value(i)
  {
    if idx < i {
      StrictlyIncreasing(idx, i);
    } else if i < idx - 1 {
      StrictlyIncreasing(i, idx - 1);
    }
  }

  lemma NearerNeighbour(c: real, lo: real, hi: real, v: real)
    requires lo <= c <= hi && (v <= lo || hi <= v)
    ensures Abs(c - if Abs(c - hi) < Abs(c - lo) then hi else lo) <= Abs(c - v)
  {}

  lemma NearestIs(x: real)
    requires x > 0.0 && Position(ClampScale(x)) > 0
    ensures var c, idx := ClampScale(x), Position(ClampScale(x));
            && idx < TABLE_SIZE && Value(idx - 1) < c <= Value(idx)
            && NearestIndex(x) == if Abs(c - Value(idx)) < Abs(c - Value(idx - 1)) then idx else idx - 1
  {
    ClampedPosition(x);
    PositionBrackets(ClampScale(x));
  }

  /** Of two entries equally near, the smaller one is taken. */
  lemma TiesGoDown(x: real, i: nat)
    requires x > 0.0 && i < TABLE_SIZE
    ensures var c := ClampScale(x);
            Abs(c - Value(i)) == Abs(c - Value(NearestIndex(x))) ==> NearestIndex(x) <= i
  {
    var idx := Position(ClampScale(x));
    if 0 < idx && i < idx {
      NearestIs(x);
      if i < idx - 1 {
        StrictlyIncreasing(i, idx - 1);
      }
      FartherBelow(ClampScale(x), Value(i), Value(idx - 1));
    }
  }

  lemma FartherBelow(c: real, v: real, lo: real)
    requires v <= lo < c
    ensures Abs(c - v) >= Abs(c - lo) && (v < lo ==> Abs(c - v) > Abs(c - lo))
  {}

  // ----- candidate windows -----

  /** The table position of candidate c out of n around searchsorted position idx.
      Up to four candidates use hand-picked offsets, more use a contiguous window. */
  function CandidateIndex(idx: int, n: int, c: int): (r: int)
    requires 2 <= n && 0 <= c < n
    ensures 0 <= r < TABLE_SIZE
  {
    var half := n / 2;
    var centre := Clamp(idx, half, TABLE_SIZE - 1 - half);
    var offset :=
      if n == 2 then [0, 4][c]
      else if n == 3 then [-1, 0, 4][c]
      else if n == 4 then [-1, 0, 2, 4][c]
      else c - half;
    Clamp(centre + offset, 0, TABLE_SIZE - 1)
  }

  /** The candidate scales of a block whose target scale is `target`. */
  function Candidates(target: real, n: int): (cs: seq<real>)
    requires 2 <= n
    ensures |cs| == n
    ensures forall c :: 0 <= c < n ==> cs[c] > 0.0 && cs[c] in Table()
  {
    var idx := Position(target);
    var cs := seq(n, c requires 0 <= c < n => Value(CandidateIndex(idx, n, c)));
    assert forall c :: 0 <= c < n ==> cs[c] == Table()[CandidateIndex(idx, n, c)];
    cs
  }

  /** Table position r is searched around position idx. */
  ghost predicate InWindow(idx: int, n: int, r: int)
    requires 2 <= n
  {
    exists c :: 0 <= c < n && CandidateIndex(idx, n, c) == r
  }

  /** The contiguous windows (n >= 5) in closed form. */
  lemma WindowBounds(idx: int, n: int, r: int)
    requires 5 <= n && 0 <= idx <= TABLE_SIZE && 0 <= r < TABLE_SIZE
    ensures var half := n / 2; var centre := Clamp(idx, half, TABLE_SIZE - 1 - half);
            InWindow(idx, n, r) <==> centre - half <= r <= centre + (n - 1 - half)
  {
    var half := n / 2;
    var centre := Clamp(idx, half, TABLE_SIZE - 1 - half);
    if centre - half <= r <= centre + (n - 1 - half) {
      assert CandidateIndex(idx, n, r - centre + half) == r;
    }
    if c :| 0 <= c < n && CandidateIndex(idx, n, c) == r {
      if half <= TABLE_SIZE - 1 - half {
        assert 0 <= centre + (c - half) < TABLE_SIZE;
      } else {
        assert centre + (n - 1 - half) >= TABLE_SIZE - 2;
      }
    }
  }

  lemma WindowMembers(target: real, n: int, r: int)
    requires 2 <= n && 0 <= r < TABLE_SIZE
    requires InWindow(Position(target), n, r)
    ensures Value(r) in Candidates(target, n)
  {
    var idx := Position(target);
    var c :| 0 <= c < n && CandidateIndex(idx, n, c) == r;
    assert Candidates(target, n)[c] == Value(r);
  }

  lemma MembersInWindow(target: real, n: int, r: int)
    requires 2 <= n && 0 <= r < TABLE_SIZE && Value(r) in Candidates(target, n)
    ensures InWindow(Position(target), n, r)
  {
    var idx := Position(target);
    var c :| 0 <= c < n && Candidates(target, n)[c] == Value(r);
    var k := CandidateIndex(idx, n, c);
    if k < r {
      StrictlyIncreasing(k, r);
    } else if r < k {
      StrictlyIncreasing(r, k);
    }
  }

  /** The table positions next to a searchsorted position. */
  predicate IsNeighbour(idx: int, r: int) {
    r == Clamp(idx - 1, 0, TABLE_SIZE - 1) || r == Clamp(idx, 0, TABLE_SIZE - 1)
  }

  /** Which neighbours a window of n candidates reaches: odd windows all of them; even windows of six
      and more miss the last table entry, four candidates the first and the last but one, and two
      candidates the lower neighbour except at the top. */
  predicate Reached(idx: int, n: int, r: int) {
    if n == 2 then idx >= TABLE_SIZE - 1 || (r == idx && 1 <= idx)
    else if n == 4 then r != 0 && r != TABLE_SIZE - 2
    else n % 2 == 1 || r != TABLE_SIZE - 1
  }

  /** Exactly when a neighbour is a candidate, for every candidate count. */
  lemma NeighbourInWindow(idx: int, n: int, r: int)
    requires 2 <= n && 0 <= idx <= TABLE_SIZE && 0 <= r < TABLE_SIZE && IsNeighbour(idx, r)
    ensures InWindow(idx, n, r) <==> Reached(idx, n, r)
  {
    if n == 2 {
      NeighbourInWindow2(idx, r);
    } else if n == 3 {
      NeighbourInWindow3(idx, r);
    } else if n == 4 {
      NeighbourInWindow4(idx, r);
    } else {
      WindowBounds(idx, n, r);
    }
  }

  lemma NeighbourInWindow2(idx: int, r: int)
    requires 0 <= idx <= TABLE_SIZE && 0 <= r < TABLE_SIZE && IsNeighbour(idx, r)
    ensures InWindow(idx, 2, r) <==> Reached(idx, 2, r)
  {
    if Reached(idx, 2, r) {
      assert CandidateIndex(idx, 2, if r == TABLE_SIZE - 1 then 1 else 0) == r;
    }
    if c :| 0 <= c < 2 && CandidateIndex(idx, 2, c) == r {
      assert c == 0 || c == 1;
    }
  }

  lemma NeighbourInWindow3(idx: int, r: int)
    requires 0 <= idx <= TABLE_SIZE && 0 <= r < TABLE_SIZE && IsNeighbour(idx, r)
    ensures InWindow(idx, 3, r)
  {
    var c := if idx == 0 then 0 else if r == idx then (if idx == 254 then 2 else 1) else
             if idx == 254 then 1 else if idx == 255 then 2 else 0;
    assert CandidateIndex(idx, 3, c) == r;
  }

  lemma NeighbourInWindow4(idx: int, r: int)
    requires 0 <= idx <= TABLE_SIZE && 0 <= r < TABLE_SIZE && IsNeighbour(idx, r)
    ensures InWindow(idx, 4, r) <==> Reached(idx, 4, r)
  {
    if Reached(idx, 4, r) {
      var c := if r == TABLE_SIZE - 1 then 2 else if idx == 1 then 0 else if r == idx && idx <= 252 then 1
               else if idx == 253 then 1 else 0;
      assert CandidateIndex(idx, 4, c) == r;
    }
    if c :| 0 <= c < 4 && CandidateIndex(idx, 4, c) == r {
      assert c == 0 || c == 1 || c == 2 || c == 3;
    }
  }

  // ----- nested windows -----

  /** The centre of the window around position idx. */
  function Centre(idx: int, n: int): int {
    Clamp(idx, n / 2, TABLE_SIZE - 1 - n / 2)
  }

  /** The smallest and the largest position of a window of up to four candidates. */
  function Lowest(idx: int, m: int): int {
    if m == 2 then Centre(idx, m) else Centre(idx, m) - 1
  }

  function Highest(idx: int, m: int): int {
    Clamp(Centre(idx, m) + 4, 0, TABLE_SIZE - 1)
  }

  /** When the window of n candidates contains that of m <= n candidates. */
  predicate Nests(idx: int, m: int, n: int) {
    if m >= 5 then n % 2 == 1 || m % 2 == 0 || (idx < TABLE_SIZE - 1 - m / 2 && m < TABLE_SIZE)
    else if n >= 5 then Centre(idx, n) - n / 2 <= Lowest(idx, m) && Highest(idx, m) <= Centre(idx, n) + (n - 1 - n / 2)
    else m == n || n == 3 || 2 <= idx <= TABLE_SIZE - 3
  }

  ghost predicate Within(idx: int, m: int, n: int)
    requires 2 <= m && 2 <= n
  {
    forall r :: 0 <= r < TABLE_SIZE && InWindow(idx, m, r) ==> InWindow(idx, n, r)
  }

  /** Exactly when the m-candidate window is contained in the n-candidate window. */
  lemma WindowsNested(idx: int, m: int, n: int)
    requires 2 <= m <= n && 0 <= idx <= TABLE_SIZE
    ensures Within(idx, m, n) <==> Nests(idx, m, n)
  {
    if m >= 5 {
      NestedRanges(idx, m, n);
    } else if n >= 5 {
      NestedInRange(idx, m, n);
    } else {
      NestedSmall(idx, m, n);
    }
  }

  lemma NestedRanges(idx: int, m: int, n: int)
    requires 5 <= m <= n && 0 <= idx <= TABLE_SIZE
    ensures Within(idx, m, n) <==> Nests(idx, m, n)
  {
    forall r | 0 <= r < TABLE_SIZE && InWindow(idx, m, r) && Nests(idx, m, n) ensures InWindow(idx, n, r) {
      WindowBounds(idx, m, r);
      WindowBounds(idx, n, r);
    }
    WindowBounds(idx, m, TABLE_SIZE - 1);
    WindowBounds(idx, n, TABLE_SIZE - 1);
  }

  /** The positions of a window of up to four candidates. */
  lemma SmallWindow(idx: int, m: int, r: int)
    requires 2 <= m <= 4 && 0 <= idx <= TABLE_SIZE
    ensures var c := Centre(idx, m);
            InWindow(idx, m, r) <==> r == c || r == Highest(idx, m) || (m >= 3 && r == c - 1) || (m == 4 && r == c + 2)
  {
    var c := Centre(idx, m);
    if r == c {
      assert CandidateIndex(idx, m, if m == 2 then 0 else 1) == r;
    }
    if r == Highest(idx, m) {
      assert CandidateIndex(idx, m, m - 1) == r;
    }
    if m >= 3 && r == c - 1 {
      assert CandidateIndex(idx, m, 0) == r;
    }
    if m == 4 && r == c + 2 {
      assert CandidateIndex(idx, m, 2) == r;
    }
    if k :| 0 <= k < m && CandidateIndex(idx, m, k) == r {
      assert k == 0 || k == 1 || k == 2 || k == 3;
    }
  }

  lemma NestedInRange(idx: int, m: int, n: int)
    requires 2 <= m <= 4 < n && 0 <= idx <= TABLE_SIZE
    ensures Within(idx, m, n) <==> Nests(idx, m, n)
  {
    forall r | 0 <= r < TABLE_SIZE && InWindow(idx, m, r) && Nests(idx, m, n) ensures InWindow(idx, n, r) {
      SmallWindow(idx, m, r);
      WindowBounds(idx, n, r);
    }
    SmallWindow(idx, m, Lowest(idx, m));
    SmallWindow(idx, m, Highest(idx, m));
    WindowBounds(idx, n, Lowest(idx, m));
    WindowBounds(idx, n, Highest(idx, m));
  }

  lemma NestedSmall(idx: int, m: int, n: int)
    requires 2 <= m <= n <= 4 && 0 <= idx <= TABLE_SIZE
    ensures Within(idx, m, n) <==> Nests(idx, m, n)
  {
    forall r | 0 <= r < TABLE_SIZE && InWindow(idx, m, r) && Nests(idx, m, n) ensures InWindow(idx, n, r) {
      SmallWindow(idx, m, r);
      SmallWindow(idx, n, r);
    }
    var r := if idx < 2 then Highest(idx, m) else Centre(idx, m);
    SmallWindow(idx, m, r);
    SmallWindow(idx, n, r);
  }

  /** Three candidates are contained in five or seven only near the ends of the table. */
  lemma ThreeNested(idx: int)
    requires 0 <= idx <= TABLE_SIZE
    ensures Within(idx, 3, 5) <==> idx >= 252
    ensures Within(idx, 3, 7) <==> idx <= 2 || idx >= 251
  {
    WindowsNested(idx, 3, 5);
    WindowsNested(idx, 3, 7);
  }

  /** Nested windows search nested sets of scales. */
  lemma CandidatesNested(target: real, m: int, n: int)
    requires 2 <= m <= n && Nests(Position(target), m, n)
    ensures forall s :: s in Candidates(target, m) ==> s in Candidates(target, n)
  {
    var idx := Position(target);
    WindowsNested(idx, m, n);
    forall s | s in Candidates(target, m) ensures s in Candidates(target, n) {
      var r := CandidatePosition(target, m, s);
      WindowMembers(target, n, r);
    }
  }

  lemma CandidatePosition(target: real, m: int, s: real) returns (r: int)
    requires 2 <= m && s in Candidates(target, m)
    ensures 0 <= r < TABLE_SIZE && s == Value(r) && InWindow(Position(target), m, r)
  {
    var c :| 0 <= c < m && Candidates(target, m)[c] == s;
    r := CandidateIndex(Position(target), m, c);
  }

  // ----- candidates that are doubles -----

  /** Four entries up is twice the scale. */
  lemma FourUpDoubles(i: nat)
    ensures Value(i + 4) == Value(i) * 2.0
  {
    Pow2Step(i / 4 + MIN_EXP);
    assert (i + 4) / 4 == i / 4 + 1 && (i + 4) % 4 == i % 4;
    DoubledLdexp(1.0 + (i % 4) as real * 0.25, Pow2(i / 4 + MIN_EXP));
  }

  lemma DoubledLdexp(m: real, p: real)
    ensures Ldexp(m, 2.0 * p) == Ldexp(m, p) * 2.0
  {}

  /** Table position r, or the one four below it that is not under idx, is searched. */
  ghost predicate InWindowOrDouble(idx: int, n: int, r: int)
    requires 2 <= n
  {
    InWindow(idx, n, r) || (idx <= r - 4 && InWindow(idx, n, r - 4))
  }

  /** When n candidates make all of m <= n candidates unnecessary: the windows nest, or n is odd and what
      is missing are doubles, except for five candidates at one position. */
  predicate Supersedes(idx: int, m: int, n: int) {
    Nests(idx, m, n) || (m <= 4 && n >= 5 && n % 2 == 1 && !(n == 5 && idx == 251))
  }

  lemma SupersededPositions(idx: int, m: int, n: int, r: int)
    requires 2 <= m <= n && 0 <= idx <= TABLE_SIZE && 0 <= r < TABLE_SIZE
    requires Supersedes(idx, m, n) && InWindow(idx, m, r)
    ensures InWindowOrDouble(idx, n, r)
  {
    WindowsNested(idx, m, n);
    if !Nests(idx, m, n) {
      SmallWindow(idx, m, r);
      WindowBounds(idx, n, r);
      if r >= 4 {
        WindowBounds(idx, n, r - 4);
      }
    }
  }

  // ----- the shifted windows of the two-phase quantiser -----

  /** First table position of the window `_get_e6m2_candidates` uses around a clamped centre. */
  function ShiftedStart(centre: real, n: int): (r: int)
    requires 1 <= n <= TABLE_SIZE
    ensures 0 <= r <= TABLE_SIZE - n
  {
    var c := ClampScale(centre);
    Clamp(Position(c) - n / 2 - 1, 0, TABLE_SIZE - n)
  }

  function ShiftedCandidates(centre: real, n: int): (cs: seq<real>)
    requires 1 <= n <= TABLE_SIZE
    ensures |cs| == n
    ensures forall c :: 0 <= c < n ==> cs[c] == Value(ShiftedStart(centre, n) + c)
  {
    var start := ShiftedStart(centre, n);
    Table()[start..start + n]
  }

  /** The shifted window in closed form: n entries, starting n/2 + 1 before the position of the centre,
      pushed inside the table where it would stick out. */
  lemma ShiftedBounds(centre: real, n: int, r: int)
    requires 1 <= n <= TABLE_SIZE && 0 <= r < TABLE_SIZE
    ensures var low := Position(ClampScale(centre)) - n / 2 - 1;
            Value(r) in ShiftedCandidates(centre, n) <==>
            if low < 0 then r < n else if low + n > TABLE_SIZE then r >= TABLE_SIZE - n else low <= r < low + n
  {
    ShiftedMember(centre, n, r);
  }

  lemma ShiftedMember(centre: real, n: int, r: int)
    requires 1 <= n <= TABLE_SIZE && 0 <= r < TABLE_SIZE
    ensures var start := ShiftedStart(centre, n); Value(r) in ShiftedCandidates(centre, n) <==> start <= r < start + n
  {
    var start, cs := ShiftedStart(centre, n), ShiftedCandidates(centre, n);
    if start <= r < start + n {
      assert cs[r - start] == Value(r);
    }
    if Value(r) in cs {
      var c :| 0 <= c < n && cs[c] == Value(r);
      SameEntry(start + c, r);
    }
  }

  /** Equal scales are the same entry. */
  lemma SameEntry(i: nat, j: nat)
    requires Value(i) == Value(j)
    ensures i == j
  {
    if i < j {
      StrictlyIncreasing(i, j);
    } else if j < i {
      StrictlyIncreasing(j, i);
    }
  }

  lemma ShiftedCovers(idx: int, n: int, r: int)
    requires 3 <= n <= TABLE_SIZE && 0 <= idx < TABLE_SIZE && IsNeighbour(idx, r)
    ensures var start := Clamp(idx - n / 2 - 1, 0, TABLE_SIZE - n); start <= r < start + n
  {}

  /** From three candidates on, the shifted window contains both neighbours of the centre. */
  lemma NeighbourInShifted(centre: real, n: int, r: int)
    requires 3 <= n <= TABLE_SIZE && 0 <= r < TABLE_SIZE
    requires IsNeighbour(Position(ClampScale(centre)), r)
    ensures Value(r) in ShiftedCandidates(centre, n)
  {
    ClampedPosition(centre);
    var idx := Position(ClampScale(centre));
    var start := ShiftedStart(centre, n);
    ShiftedCovers(idx, n, r);
    assert ShiftedCandidates(centre, n)[r - start] == Value(r);
  }
}
