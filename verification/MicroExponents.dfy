/** The joint choice of the micro-exponents of a block. A group of 8 elements has an exponent a in
    {0, 1}, each of its two sub-groups of 4 an exponent b in {0, 1}, and the elements of the
    sub-group are rounded at 2^(a+b) times the block scale. Three roundings, at levels 0, 1 and 2,
    therefore cover all four combinations. */
module MicroExponents {
  import opened Sums
  import opened Rounding

  /** A table indexed by rounding level and by element, or by level and sub-group. */
  type Losses = (int, int) -> real

  function Row(loss: Losses, l: int): int -> real {
    j => loss(l, j)
  }

  /** Sub-group errors of a table of element losses: means when there is no importance, else sums. */
  function SubMse(loss: Losses, mean: bool): Losses {
    (l, h) => Averaged(mean, RunSum(4, Row(loss, l), h))
  }

  function Averaged(mean: bool, x: real): real {
    if mean then x / 4.0 else x
  }

  /** m holds the sub-group errors of loss. */
  ghost predicate Summarises(m: Losses, loss: Losses, mean: bool) {
    forall l, h :: m(l, h) == Averaged(mean, RunSum(4, Row(loss, l), h))
  }

  // ----- the choice, from a table m of sub-group errors -----

  /** F(a): the best error of group g with exponent a, each sub-group picking its own b. */
  function GroupMse(m: Losses, a: int, g: int): real {
    Sum(2, s => MinR(m(a, g * 2 + s), m(a + 1, g * 2 + s)))
  }

  predicate UseLv2(m: Losses, g: int) {
    GroupMse(m, 1, g) < GroupMse(m, 0, g)
  }

  predicate UseLv3(m: Losses, h: int) {
    if UseLv2(m, h / 2) then m(2, h) < m(1, h) else m(1, h) < m(0, h)
  }

  /** The level kept for sub-group h: which of the three roundings its elements take. */
  function Level(m: Losses, h: int): (l: int)
    ensures 0 <= l <= 2
  {
    (if UseLv2(m, h / 2) then 1 else 0) + (if UseLv3(m, h) then 1 else 0)
  }

  lemma GroupUnfold(m: Losses, a: int, g: int)
    ensures GroupMse(m, a, g) == MinR(m(a, g * 2), m(a + 1, g * 2)) + MinR(m(a, g * 2 + 1), m(a + 1, g * 2 + 1))
  {
    TwoTerms(s => MinR(m(a, g * 2 + s), m(a + 1, g * 2 + s)));
  }

  /** In its group the choice attains the smaller of F(0) and F(1). */
  lemma GroupAttained(m: Losses, g: int)
    ensures m(Level(m, g * 2), g * 2) + m(Level(m, g * 2 + 1), g * 2 + 1) == MinR(GroupMse(m, 0, g), GroupMse(m, 1, g))
  {
    assert (g * 2) / 2 == g && (g * 2 + 1) / 2 == g;
    GroupUnfold(m, 0, g);
    GroupUnfold(m, 1, g);
  }

  /** No combination of exponents in the group is cheaper than the choice. */
  lemma GroupOptimal(m: Losses, g: int, a: int, b0: int, b1: int)
    requires 0 <= a <= 1 && 0 <= b0 <= 1 && 0 <= b1 <= 1
    ensures m(Level(m, g * 2), g * 2) + m(Level(m, g * 2 + 1), g * 2 + 1)
         <= m(a + b0, g * 2) + m(a + b1, g * 2 + 1)
  {
    GroupAttained(m, g);
    GroupUnfold(m, a, g);
  }

  /** Ties keep the smaller exponent: 2 is taken for a group only when no choice without it does as well. */
  lemma TiesStaySmall(m: Losses, g: int, b0: int, b1: int)
    requires UseLv2(m, g) && 0 <= b0 <= 1 && 0 <= b1 <= 1
    ensures m(Level(m, g * 2), g * 2) + m(Level(m, g * 2 + 1), g * 2 + 1) < m(b0, g * 2) + m(b1, g * 2 + 1)
  {
    GroupAttained(m, g);
    GroupUnfold(m, 0, g);
  }

  /** And for a sub-group only when the level below loses more. */
  lemma SubTiesStaySmall(m: Losses, h: int)
    ensures UseLv3(m, h) ==> m(Level(m, h), h) < m(Level(m, h) - 1, h)
    ensures !UseLv3(m, h) ==> m(Level(m, h), h) <= m(Level(m, h) + 1, h)
  {}

  // ----- the choice, on element losses -----

  /** The element losses that remain after the choice. */
  function Kept(loss: Losses, m: Losses): int -> real {
    j => loss(Level(m, j / 4), j)
  }

  lemma KeptRun(loss: Losses, m: Losses, h: int)
    ensures RunSum(4, Kept(loss, m), h) == RunSum(4, Row(loss, Level(m, h)), h)
  {
    RunCong(4, Kept(loss, m), Row(loss, Level(m, h)), h);
  }

  /** The exact-search theorem: the kept losses sum to no more than those of any other assignment
      of exponents, even when that assignment's elements are not rounded optimally. */
  lemma ChoiceOptimal(loss: Losses, mean: bool, m: Losses, a: int -> int, b: int -> int, other: int -> real)
    requires Summarises(m, loss, mean)
    requires forall g :: 0 <= g < 8 ==> 0 <= a(g) <= 1
    requires forall h :: 0 <= h < 16 ==> 0 <= b(h) <= 1
    requires forall j :: 0 <= j < 64 ==> loss(a(j / 8) + b(j / 4), j) <= other(j)
    ensures Sum(64, Kept(loss, m)) <= Sum(64, other)
  {
    forall g | 0 <= g < 8 ensures GroupSum(2, 4, Kept(loss, m))(g) <= GroupSum(2, 4, other)(g) {
      GroupCase(loss, mean, m, a, b, other, g);
    }
    GroupsToBlock(Kept(loss, m), other);
  }

  lemma GroupsToBlock(f: int -> real, g: int -> real)
    requires forall i :: 0 <= i < 8 ==> GroupSum(2, 4, f)(i) <= GroupSum(2, 4, g)(i)
    ensures Sum(64, f) <= Sum(64, g)
  {
    SumByRunsMono(8, 2, 4, f, g);
  }

  lemma GroupCase(loss: Losses, mean: bool, m: Losses, a: int -> int, b: int -> int, other: int -> real, g: int)
    requires Summarises(m, loss, mean) && 0 <= g < 8
    requires forall g :: 0 <= g < 8 ==> 0 <= a(g) <= 1
    requires forall h :: 0 <= h < 16 ==> 0 <= b(h) <= 1
    requires forall j :: 0 <= j < 64 ==> loss(a(j / 8) + b(j / 4), j) <= other(j)
    ensures GroupSum(2, 4, Kept(loss, m))(g) <= GroupSum(2, 4, other)(g)
  {
    GroupBounds(loss, a, b, other, g);
    GroupStep(loss, mean, m, g, a(g), b(g * 2), b(g * 2 + 1), other);
  }

  lemma GroupBounds(loss: Losses, a: int -> int, b: int -> int, other: int -> real, g: int)
    requires 0 <= g < 8
    requires forall j :: 0 <= j < 64 ==> loss(a(j / 8) + b(j / 4), j) <= other(j)
    ensures forall j :: g * 8 <= j < g * 8 + 4 ==> loss(a(g) + b(g * 2), j) <= other(j)
    ensures forall j :: g * 8 + 4 <= j < g * 8 + 8 ==> loss(a(g) + b(g * 2 + 1), j) <= other(j)
  {}

  lemma GroupStep(loss: Losses, mean: bool, m: Losses, g: int, a: int, b0: int, b1: int, other: int -> real)
    requires Summarises(m, loss, mean)
    requires 0 <= a <= 1 && 0 <= b0 <= 1 && 0 <= b1 <= 1
    requires forall j :: g * 8 <= j < g * 8 + 4 ==> loss(a + b0, j) <= other(j)
    requires forall j :: g * 8 + 4 <= j < g * 8 + 8 ==> loss(a + b1, j) <= other(j)
    ensures GroupSum(2, 4, Kept(loss, m))(g) <= GroupSum(2, 4, other)(g)
  {
    GroupOfTwo(Kept(loss, m), g);
    GroupOfTwo(other, g);
    KeptRun(loss, m, g * 2);
    KeptRun(loss, m, g * 2 + 1);
    GroupOptimal(m, g, a, b0, b1);
    RunMono(4, Row(loss, a + b0), other, g * 2);
    RunMono(4, Row(loss, a + b1), other, g * 2 + 1);
  }

  lemma GroupOfTwo(f: int -> real, g: int)
    ensures GroupSum(2, 4, f)(g) == RunSum(4, f, g * 2) + RunSum(4, f, g * 2 + 1)
  {
    TwoTerms(s => RunSum(4, f, g * 2 + s));
  }
}
