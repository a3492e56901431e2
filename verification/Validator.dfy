/** The submission validator for HiF4 parameters: shapes first, then values. */
module Validator {
  import opened Rounding
  import opened HiF4
  import opened E6M2
  import opened TensorQuantizer
  import ScaleSearch

  // ----- shapes -----

  datatype Name = ScaleFactor | ScaleLv2 | ScaleLv3 | SignName | MantName

  datatype Tensor = Tensor(shape: seq<nat>, data: seq<real>)

  /** The trailing dimensions of each parameter. */
  function Tail(name: Name): seq<nat> {
    match name
    case ScaleFactor => [1, 1, 1]
    case ScaleLv2 => [8, 1, 1]
    case ScaleLv3 => [8, 2, 1]
    case SignName => [8, 2, 4]
    case MantName => [8, 2, 4]
  }

  /** The index that broadcasting reads in a dimension of size d. */
  function Broadcast(d: nat, i: nat): nat {
    if d == 1 then 0 else i
  }

  /** The row-major position at which element (g, s, e) of a block finds its parameter. */
  function BroadcastAt(tail: seq<nat>, g: nat, s: nat, e: nat): nat
    requires |tail| == 3
  {
    (Broadcast(tail[0], g) * tail[1] + Broadcast(tail[1], s)) * tail[2] + Broadcast(tail[2], e)
  }

  /** Where element j of a block finds each of its parameters. */
  function PlaceOf(name: Name, j: nat): nat {
    match name
    case ScaleFactor => 0
    case ScaleLv2 => j / 8
    case ScaleLv3 => j / 4
    case SignName => j
    case MantName => j
  }

  /** Broadcasting the expected shapes hands element j the parameters from which it is decoded. */
  lemma BroadcastMeetsDequant(name: Name, j: nat)
    requires j < BLK_SIZE
    ensures |Tail(name)| == 3 && BroadcastAt(Tail(name), j / 8, j / 4 % 2, j % 4) == PlaceOf(name, j)
  {
    assert (j / 8 * 2 + j / 4 % 2) * 4 + j % 4 == j;
  }

  predicate GoodShape(shape: seq<nat>) {
    shape != [] && shape[|shape| - 1] % BLK_SIZE == 0
  }

  function Prefix(shape: seq<nat>): seq<nat>
    requires GoodShape(shape)
  {
    shape[..|shape| - 1] + [shape[|shape| - 1] / BLK_SIZE]
  }

  /** `_expected_hif4_param_shapes`, which raises unless the shape is good. */
  function ExpectedShape(shape: seq<nat>, name: Name): seq<nat>
    requires GoodShape(shape)
  {
    Prefix(shape) + Tail(name)
  }

  function Numel(shape: seq<nat>): nat {
    if shape == [] then 1 else Numel(shape[..|shape| - 1]) * shape[|shape| - 1]
  }

  /** The broadcast product of the parameters always has as many elements as the original tensor. */
  lemma NumelAgrees(shape: seq<nat>)
    requires GoodShape(shape)
    ensures Numel(ExpectedShape(shape, SignName)) == Numel(shape)
  {
    var p, c := shape[..|shape| - 1], shape[|shape| - 1];
    var q := Prefix(shape);
    NumelAppend(p, c / BLK_SIZE);
    NumelAppend(q, 8);
    NumelAppend(q + [8], 2);
    NumelAppend(q + [8] + [2], 4);
    assert ExpectedShape(shape, SignName) == q + [8] + [2] + [4];
    Times64(Numel(p), c / BLK_SIZE);
  }

  lemma NumelAppend(s: seq<nat>, d: nat)
    ensures Numel(s + [d]) == Numel(s) * d
    ensures Numel([d]) == d
  {
    assert (s + [d])[..|s|] == s;
  }

  lemma Times64(a: int, b: int)
    ensures a * b * 8 * 2 * 4 == a * (b * 64)
  {}

  // ----- scale factors -----

  /** floor(log2(x)). */
  function FloorLog2(x: real): (e: int)
    requires x > 0.0
    decreases if x >= 2.0 then x.Floor else if x < 1.0 then (1.0 / x).Floor else 0
  {
    if x >= 2.0 then FloorLog2(x / 2.0) + 1
    else if x < 1.0 then
      Reciprocal(x);
      FloorLog2(x * 2.0) - 1
    else 0
  }

  lemma Reciprocal(x: real)
    requires 0.0 < x < 1.0
    ensures 1.0 / x > 1.0 && 1.0 / (x * 2.0) == 1.0 / x / 2.0
  {
    assert 1.0 / x * x == 1.0;
    assert 1.0 / (x * 2.0) * (x * 2.0) == 1.0;
  }

  lemma FloorLog2Bounds(x: real)
    requires x > 0.0
    ensures Pow2(FloorLog2(x)) <= x < Pow2(FloorLog2(x) + 1)
    decreases if x >= 2.0 then x.Floor else if x < 1.0 then (1.0 / x).Floor else 0
  {
    if x >= 2.0 {
      FloorLog2Bounds(x / 2.0);
      Pow2Step(FloorLog2(x / 2.0));
      Pow2Step(FloorLog2(x / 2.0) + 1);
    } else if x < 1.0 {
      Reciprocal(x);
      FloorLog2Bounds(x * 2.0);
      Pow2Step(FloorLog2(x * 2.0) - 1);
      Pow2Step(FloorLog2(x * 2.0));
    }
  }

  /** The binade of x determines floor(log2(x)). */
  lemma FloorLog2Unique(x: real, e: int)
    requires x > 0.0 && Pow2(e) <= x < Pow2(e + 1)
    ensures FloorLog2(x) == e
  {
    FloorLog2Bounds(x);
    var f := FloorLog2(x);
    if f < e {
      if f + 1 < e {
        Pow2Mono(f + 1, e);
      }
    } else if e < f {
      if e + 1 < f {
        Pow2Mono(e + 1, f);
      }
    }
  }

  /** `sf_e6m2`: the scale factor rounded to two mantissa bits in its own binade. */
  function RoundedScale(x: real): real {
    RoundedAt(x, FloorLog2(MaxR(x, Pow2(-126))))
  }

  function RoundedAt(x: real, e: int): real {
    RoundedSteps(x, Pow2(2 - e), Pow2(e - 2))
  }

  /** Scale up, round, scale down. */
  function RoundedSteps(x: real, up: real, down: real): real {
    StepsOf(CountedSteps(x, up), down)
  }

  function CountedSteps(x: real, up: real): int {
    RoundEven(x * up)
  }

  function StepsOf(k: int, down: real): real {
    k as real * down
  }

  predicate ScaleBelow(x: real) { x < Pow2(-48) }

  predicate ScaleAbove(x: real) { x > 49152.0 }

  predicate ScaleExact(x: real) { x == RoundedScale(x) }

  lemma Pow2Opposite(e: int)
    ensures Pow2(2 - e) * Pow2(e - 2) == 1.0
  {
    if e >= 2 {
      Pow2Inverse(e - 2);
    } else {
      Pow2Inverse(2 - e);
    }
  }

  /** In range, the floor of 2^-126 under the logarithm does nothing. */
  lemma InRangeExponent(x: real)
    requires !ScaleBelow(x)
    ensures MaxR(x, Pow2(-126)) == x
  {
    Pow2Mono(-126, -48);
  }

  lemma ExactInBinade(x: real, e: int)
    requires !ScaleBelow(x) && Pow2(e) <= x < Pow2(e + 1)
    ensures FloorLog2(MaxR(x, Pow2(-126))) == e
  {
    InRangeExponent(x);
    FloorLog2Unique(x, e);
  }

  /** The three powers around a binade: 2^e = 4 * 2^(e-2), and 2^(2-e) undoes 2^(e-2). */
  lemma BinadePowers(e: int)
    ensures Pow2(e) == 4.0 * Pow2(e - 2) && Pow2(2 - e) * Pow2(e - 2) == 1.0
  {
    Pow2Opposite(e);
    Pow2Step(e - 2);
    Pow2Step(e - 1);
  }

  /** x = m * p is 4*m steps of size down. */
  lemma FourSteps(x: real, m: real, p: real, down: real)
    requires p == 4.0 * down && x == m * p
    ensures x == 4.0 * (m * down)
  {}

  /** Scaling by up counts the steps. */
  lemma CountSteps(x: real, m: real, up: real, down: real)
    requires up * down == 1.0 && x == 4.0 * (m * down)
    ensures x * up == 4.0 * m
  {
    assert m * down * up == m * (up * down);
    assert x * up == 4.0 * (m * down) * up;
  }

  /** A value of 4 + r steps rounds to itself. */
  lemma StepsRound(x: real, m: real, r: int, p: real, up: real, down: real)
    requires p == 4.0 * down && up * down == 1.0 && x == Ldexp(m, p) && m == 1.0 + r as real * 0.25
    ensures RoundedSteps(x, up, down) == x
  {
    FourSteps(x, m, p, down);
    CountSteps(x, m, up, down);
    RoundOfInt(4 + r);
    var k := CountedSteps(x, up);
    assert k == 4 + r;
    StepsTotal(x, m, k, down);
  }

  lemma StepsTotal(x: real, m: real, k: int, down: real)
    requires k as real == 4.0 * m && x == 4.0 * (m * down)
    ensures StepsOf(k, down) == x
  {}

  lemma QuarterRounds(x: real, m: real, r: int, e: int)
    requires m == 1.0 + r as real * 0.25 && x == Ldexp(m, Pow2(e))
    ensures RoundedAt(x, e) == x
  {
    BinadePowers(e);
    StepsRound(x, m, r, Pow2(e), Pow2(2 - e), Pow2(e - 2));
  }

  /** k steps of size down, as a mantissa times p. */
  lemma StepsToMantissa(x: real, k: int, p: real, up: real, down: real, m: real)
    requires down > 0.0 && p == 4.0 * down && p <= x < 2.0 * p
    requires x == RoundedSteps(x, up, down) && k == CountedSteps(x, up)
    requires m == 1.0 + (k - 4) as real * 0.25
    ensures 4 <= k <= 7 && x == Ldexp(m, p)
  {
    assert x == StepsOf(k, down);
    StepCount(k, down, x);
    MantissaTotal(k, down, m, p);
  }

  lemma MantissaTotal(k: int, down: real, m: real, p: real)
    requires p == 4.0 * down && m == 1.0 + (k - 4) as real * 0.25
    ensures StepsOf(k, down) == Ldexp(m, p)
  {
    assert k as real == 4.0 * m;
    assert m * p == 4.0 * (m * down);
  }

  lemma RoundsToQuarter(x: real, e: int) returns (k: int)
    requires x == RoundedAt(x, e) && Pow2(e) <= x < Pow2(e + 1)
    ensures 4 <= k <= 7 && x == Ldexp(1.0 + (k - 4) as real * 0.25, Pow2(e))
  {
    k := CountedSteps(x, Pow2(2 - e));
    BinadePowers(e);
    Pow2Step(e);
    StepsToMantissa(x, k, Pow2(e), Pow2(2 - e), Pow2(e - 2), 1.0 + (k - 4) as real * 0.25);
  }

  lemma StepCount(k: int, d: real, x: real)
    requires d > 0.0 && x == StepsOf(k, d) && 4.0 * d <= x < 8.0 * d
    ensures 4 <= k <= 7
  {
    if k <= 3 {
      MulMono(k as real, 3.0, d);
    } else if k >= 8 {
      MulMono(8.0, k as real, d);
    }
  }

  /** A table entry is in range. */
  lemma TableEntryInRange(i: nat)
    requires i < TABLE_SIZE
    ensures !ScaleBelow(Value(i)) && !ScaleAbove(Value(i))
  {
    TableEnds();
    if i > 0 { StrictlyIncreasing(0, i); }
    if i < 254 { StrictlyIncreasing(i, 254); }
  }

  /** A table entry is a whole number of quarter steps of its binade, so rounding returns it. */
  lemma TableEntryExact(i: nat)
    requires i < TABLE_SIZE
    ensures ScaleExact(Value(i))
  {
    TableEntryInRange(i);
    var e, r := i / 4 + MIN_EXP, i % 4;
    var m := 1.0 + r as real * 0.25;
    QuarterOfBinade(m, e);
    ExactInBinade(Value(i), e);
    QuarterRounds(Value(i), m, r, e);
  }

  lemma QuarterOfBinade(m: real, e: int)
    requires 1.0 <= m < 2.0
    ensures Pow2(e) <= Ldexp(m, Pow2(e)) < Pow2(e + 1)
  {
    Pow2Step(e);
    BetweenBinades(m, Pow2(e));
  }

  lemma BetweenBinades(m: real, p: real)
    requires 1.0 <= m < 2.0 && p > 0.0
    ensures p <= Ldexp(m, p) < 2.0 * p
  {
    assert (m - 1.0) * p >= 0.0;
    assert (2.0 - m) * p > 0.0;
  }

  /** Conversely, an in-range value that rounding returns is a table entry. */
  lemma ExactIsTableEntry(x: real) returns (i: nat)
    requires !ScaleBelow(x) && !ScaleAbove(x) && ScaleExact(x)
    ensures i < TABLE_SIZE && x == Value(i)
  {
    var e := FloorLog2(x);
    FloorLog2Bounds(x);
    ExactInBinade(x, e);
    ExponentRange(x, e);
    var k := RoundsToQuarter(x, e);
    i := 4 * (e - MIN_EXP) + (k - 4);
    assert i / 4 == e - MIN_EXP && i % 4 == k - 4;
    if i >= TABLE_SIZE {
      TopOfTable(i);
      assert false;
    }
  }

  lemma ExponentRange(x: real, e: int)
    requires !ScaleBelow(x) && !ScaleAbove(x) && Pow2(e) <= x < Pow2(e + 1)
    ensures -48 <= e <= 15
  {
    if e < -48 {
      if e + 1 < -48 {
        Pow2Mono(e + 1, -48);
      }
    }
    if e > 15 {
      assert Pow2(15) == 32768.0;
      Pow2Mono(15, e);
    }
  }

  lemma TopOfTable(i: nat)
    requires i >= TABLE_SIZE
    ensures ScaleAbove(Value(i))
  {
    TableEnds();
    StrictlyIncreasing(254, i);
  }

  /** The three scale-factor checks accept exactly the entries of the E6M2 table. */
  lemma ScaleCheckIsTable(x: real)
    ensures (!ScaleBelow(x) && !ScaleAbove(x) && ScaleExact(x)) <==> x in Table()
  {
    if !ScaleBelow(x) && !ScaleAbove(x) && ScaleExact(x) {
      var i := ExactIsTableEntry(x);
      assert Table()[i] == x;
    }
    if x in Table() {
      var i :| 0 <= i < TABLE_SIZE && Table()[i] == x;
      TableEntryInRange(i);
      TableEntryExact(i);
    }
  }

  // ----- the validator -----

  datatype Error =
    | BadOriginalShape
    | Missing(name: Name)
    | WrongShape(name: Name)
    | NumelMismatch
    | ScaleTooSmall
    | ScaleTooLarge
    | ScaleNotE6M2
    | Lv2Values
    | Lv3Values
    | SignValues
    | MantNegative
    | MantTooLarge
    | MantNotQuarter

  const NAMES: seq<Name> := [ScaleFactor, ScaleLv2, ScaleLv3, SignName, MantName]

  /** mant * 4 == round(mant * 4). */
  predicate IsQuarter(x: real) { RoundEven(x * 4.0) as real == x * 4.0 }

  predicate HasShape(params: map<Name, Tensor>, shape: seq<nat>, name: Name)
    requires GoodShape(shape)
  {
    name in params && params[name].shape == ExpectedShape(shape, name)
  }

  ghost predicate ShapesOk(params: map<Name, Tensor>, shape: seq<nat>) {
    GoodShape(shape) && forall name :: name in NAMES ==> HasShape(params, shape, name)
  }

  /** What a submission must satisfy. */
  ghost predicate Accepts(params: map<Name, Tensor>, shape: seq<nat>) {
    && ShapesOk(params, shape)
    && ScaleFactor in params && ScaleLv2 in params && ScaleLv3 in params && SignName in params && MantName in params
    && (forall v :: v in params[ScaleFactor].data ==> v in Table())
    && (forall v :: v in params[ScaleLv2].data ==> IsMicroExponent(v))
    && (forall v :: v in params[ScaleLv3].data ==> IsMicroExponent(v))
    && (forall v :: v in params[SignName].data ==> IsSign(v))
    && (forall v :: v in params[MantName].data ==> IsMantissa(v))
  }

  /** The first loop: every parameter present and of the expected shape. */
  method CheckShapes(params: map<Name, Tensor>, shape: seq<nat>) returns (errors: seq<Error>)
    requires GoodShape(shape)
    ensures errors == [] <==> ShapesOk(params, shape)
  {
    errors := [];
    for k := 0 to |NAMES|
      invariant errors == [] <==> forall i :: 0 <= i < k ==> HasShape(params, shape, NAMES[i])
    {
      var name := NAMES[k];
      if name !in params {
        errors := errors + [Missing(name)];
      } else if params[name].shape != ExpectedShape(shape, name) {
        errors := errors + [WrongShape(name)];
      }
    }
  }

  function ErrorIf(bad: bool, e: Error): seq<Error> {
    if bad then [e] else []
  }

  /** The scale-factor checks. */
  method CheckScales(data: seq<real>) returns (errors: seq<Error>)
    ensures errors == [] <==> forall v :: v in data ==> v in Table()
    ensures forall e :: e in errors ==> e in {ScaleTooSmall, ScaleTooLarge, ScaleNotE6M2}
  {
    forall v ensures (!ScaleBelow(v) && !ScaleAbove(v) && ScaleExact(v)) <==> v in Table() {
      ScaleCheckIsTable(v);
    }
    errors := ErrorIf(exists v :: v in data && ScaleBelow(v), ScaleTooSmall)
            + ErrorIf(exists v :: v in data && ScaleAbove(v), ScaleTooLarge)
            + ErrorIf(exists v :: v in data && !ScaleExact(v), ScaleNotE6M2);
  }

  /** The mantissa checks. */
  method CheckMantissas(data: seq<real>) returns (errors: seq<Error>)
    ensures errors == [] <==> forall v :: v in data ==> IsMantissa(v)
    ensures forall e :: e in errors ==> e in {MantNegative, MantTooLarge, MantNotQuarter}
  {
    forall v ensures IsMantissa(v) <==> (v >= 0.0 && v <= 1.75 && IsQuarter(v)) {
      RoundOfInt((v * 4.0).Floor);
    }
    errors := ErrorIf(exists v :: v in data && v < 0.0, MantNegative)
            + ErrorIf(exists v :: v in data && v > 1.75, MantTooLarge)
            + ErrorIf(exists v :: v in data && !IsQuarter(v), MantNotQuarter);
  }

  /** `validate_hif4_params`: no error is reported exactly for acceptable parameters. */
  method Validate(params: map<Name, Tensor>, shape: seq<nat>) returns (errors: seq<Error>)
    ensures errors == [] <==> Accepts(params, shape)
  {
    if !GoodShape(shape) {
      return [BadOriginalShape];
    }
    errors := CheckShapes(params, shape);
    if errors != [] {
      return;
    }
    assert forall i :: 0 <= i < |NAMES| ==> NAMES[i] in NAMES;
    assert NAMES[0] == ScaleFactor && NAMES[1] == ScaleLv2 && NAMES[2] == ScaleLv3 && NAMES[3] == SignName && NAMES[4] == MantName;
    NumelAgrees(shape);
    var lv2, lv3, sign := params[ScaleLv2].data, params[ScaleLv3].data, params[SignName].data;
    var scaleErrors := CheckScales(params[ScaleFactor].data);
    var mantErrors := CheckMantissas(params[MantName].data);
    errors := ErrorIf(Numel(params[SignName].shape) != Numel(shape), NumelMismatch)
            + scaleErrors
            + ErrorIf(exists v :: v in lv2 && !IsMicroExponent(v), Lv2Values)
            + ErrorIf(exists v :: v in lv3 && !IsMicroExponent(v), Lv3Values)
            + ErrorIf(exists v :: v in sign && !IsSign(v), SignValues)
            + mantErrors;
  }

  // ----- the quantiser's output is acceptable -----

  function Flat(rows: seq<seq<real>>): seq<real> {
    if rows == [] then [] else Flat(rows[..|rows| - 1]) + rows[|rows| - 1]
  }

  lemma {:induction false} FlatMember(rows: seq<seq<real>>, v: real) returns (b: int)
    requires v in Flat(rows)
    ensures 0 <= b < |rows| && v in rows[b]
  {
    if v in rows[|rows| - 1] {
      b := |rows| - 1;
    } else {
      b := FlatMember(rows[..|rows| - 1], v);
    }
  }

  /** The dictionary the quantiser returns for a tensor of the given shape. */
  function ToTensors(p: Params, shape: seq<nat>): map<Name, Tensor>
    requires GoodShape(shape)
  {
    map[ScaleFactor := Tensor(ExpectedShape(shape, ScaleFactor), p.sf),
        ScaleLv2 := Tensor(ExpectedShape(shape, ScaleLv2), Flat(p.lv2)),
        ScaleLv3 := Tensor(ExpectedShape(shape, ScaleLv3), Flat(p.lv3)),
        SignName := Tensor(ExpectedShape(shape, SignName), Flat(p.sign)),
        MantName := Tensor(ExpectedShape(shape, MantName), Flat(p.mant))]
  }

  /** A tensor holds as many values as its shape says. */
  predicate Consistent(t: Tensor) {
    |t.data| == Numel(t.shape)
  }

  lemma {:induction false} FlatLength(rows: seq<seq<real>>, n: nat)
    requires forall b :: 0 <= b < |rows| ==> |rows[b]| == n
    ensures |Flat(rows)| == |rows| * n
  {
    if rows != [] {
      FlatLength(rows[..|rows| - 1], n);
      NextMultiple(|rows|, n);
    }
  }

  lemma NextMultiple(k: nat, n: nat)
    requires k > 0
    ensures (k - 1) * n + n == k * n
  {}

  /** Three trailing dimensions. */
  lemma NumelOfTail(shape: seq<nat>, name: Name)
    requires GoodShape(shape)
    ensures var t := Tail(name); Numel(ExpectedShape(shape, name)) == Numel(Prefix(shape)) * t[0] * t[1] * t[2]
  {
    var q, t := Prefix(shape), Tail(name);
    NumelAppend(q, t[0]);
    NumelAppend(q + [t[0]], t[1]);
    NumelAppend(q + [t[0]] + [t[1]], t[2]);
    assert ExpectedShape(shape, name) == q + [t[0]] + [t[1]] + [t[2]];
  }

  /** The five tensors of one encoding per 64 channels fill their shapes exactly. */
  lemma TensorsConsistent(p: Params, shape: seq<nat>)
    requires GoodShape(shape) && Sized(p, |p.sf|) && |p.sf| == Numel(Prefix(shape))
    requires forall b :: 0 <= b < |p.sf| ==> WellFormed(BlockAt(p, b))
    ensures forall name :: name in ToTensors(p, shape) ==> Consistent(ToTensors(p, shape)[name])
  {
    forall b | 0 <= b < |p.sf|
      ensures |p.lv2[b]| == 8 && |p.lv3[b]| == 16 && |p.sign[b]| == BLK_SIZE && |p.mant[b]| == BLK_SIZE
    {
      assert WellFormed(BlockAt(p, b));
    }
    FlatLength(p.lv2, 8);
    FlatLength(p.lv3, 16);
    FlatLength(p.sign, BLK_SIZE);
    FlatLength(p.mant, BLK_SIZE);
    NumelOfTail(shape, ScaleFactor);
    NumelOfTail(shape, ScaleLv2);
    NumelOfTail(shape, ScaleLv3);
    NumelOfTail(shape, SignName);
    NumelOfTail(shape, MantName);
  }

  /** Legal blocks with E6M2 scales are acceptable, for every shape of whole blocks. */
  lemma LegalBlocksAccepted(p: Params, shape: seq<nat>)
    requires GoodShape(shape) && Sized(p, |p.sf|)
    requires forall b :: 0 <= b < |p.sf| ==> WellFormed(BlockAt(p, b)) && p.sf[b] in Table()
    ensures Accepts(ToTensors(p, shape), shape)
  {
    var ts := ToTensors(p, shape);
    forall v | v in Flat(p.lv2) ensures IsMicroExponent(v) {
      var b := FlatMember(p.lv2, v);
      assert BlockAt(p, b).lv2 == p.lv2[b];
    }
    forall v | v in Flat(p.lv3) ensures IsMicroExponent(v) {
      var b := FlatMember(p.lv3, v);
      assert BlockAt(p, b).lv3 == p.lv3[b];
    }
    forall v | v in Flat(p.sign) ensures IsSign(v) {
      var b := FlatMember(p.sign, v);
      assert BlockAt(p, b).sign == p.sign[b];
    }
    forall v | v in Flat(p.mant) ensures IsMantissa(v) {
      var b := FlatMember(p.mant, v);
      assert BlockAt(p, b).mant == p.mant[b];
    }
  }

  /** Every output of the window search passes every shape and value check. */
  lemma QuantizerOutputAccepted(ws: seq<seq<real>>, imps: seq<Importance>, n: int, p: Params, shape: seq<nat>)
    requires GoodShape(shape) && 2 <= n && |ws| == |imps| == Numel(Prefix(shape)) && Sized(p, |ws|)
    requires forall b :: 0 <= b < |ws| ==> BlockAt(p, b) == ScaleSearch.SearchBlock(ws[b], imps[b], n)
    ensures Accepts(ToTensors(p, shape), shape)
    ensures forall name :: name in ToTensors(p, shape) ==> Consistent(ToTensors(p, shape)[name])
  {
    forall b | 0 <= b < |p.sf| ensures WellFormed(BlockAt(p, b)) && p.sf[b] in Table() {
      ScaleSearch.SearchBlockWellFormed(ws[b], imps[b], n);
      assert BlockAt(p, b).sf == p.sf[b];
    }
    LegalBlocksAccepted(p, shape);
    TensorsConsistent(p, shape);
  }
}
