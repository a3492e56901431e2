/** The Kubernetes feature-gate ledger: from the versioned specs of every gate, one row per gate with
    a spec inside a version range, and the differences between the gate states of two releases. */
module FeatureLedger {
  import opened Options

  datatype Version = Version(major: int, minor: int)

  predicate Less(a: Version, b: Version) {
    a.major < b.major || (a.major == b.major && a.minor < b.minor)
  }

  predicate AtMost(a: Version, b: Version) {
    !Less(b, a)
  }

  /** The major version decides; the minor version counts within one major version, as a number. */
  lemma VersionOrder(a: Version, b: Version)
    ensures a.major < b.major ==> Less(a, b)
    ensures a.major == b.major ==> (Less(a, b) <==> a.minor < b.minor)
    ensures AtMost(a, b) && AtMost(b, a) <==> a == b
  {}

  datatype State = State(stage: string, default: bool, locked: bool)

  /** One versioned spec; explicit tells whether it names a lock. */
  datatype Spec = Spec(version: Version, state: State, explicit: bool)

  /** Ascending versions, as parsing leaves them. */
  ghost predicate Ascending(specs: seq<Spec>) {
    forall i, j :: 0 <= i < j < |specs| ==> AtMost(specs[i].version, specs[j].version)
  }

  ghost predicate StrictlyAscending(specs: seq<Spec>) {
    forall i, j :: 0 <= i < j < |specs| ==> Less(specs[i].version, specs[j].version)
  }

  // ----- list comprehensions -----

  function Filter<T>(f: T -> bool, s: seq<T>): (r: seq<T>)
    ensures |r| <= |s|
  {
    if s == [] then []
    else Filter(f, s[..|s| - 1]) + if f(s[|s| - 1]) then [s[|s| - 1]] else []
  }

  lemma {:induction false} FilterAll<T>(f: T -> bool, s: seq<T>)
    requires forall i :: 0 <= i < |s| ==> f(s[i])
    ensures Filter(f, s) == s
  {
    if s != [] {
      FilterAll(f, s[..|s| - 1]);
    }
  }

  lemma {:induction false} FilterMembers<T>(f: T -> bool, s: seq<T>)
    ensures forall x :: x in Filter(f, s) <==> x in s && f(x)
  {
    if s != [] {
      FilterMembers(f, s[..|s| - 1]);
      assert s == s[..|s| - 1] + [s[|s| - 1]];
    }
  }

  /** A condition that holds on a front part only selects that part. */
  lemma {:induction false} FilterFront<T>(f: T -> bool, s: seq<T>)
    requires forall i, j :: 0 <= i < j < |s| && f(s[j]) ==> f(s[i])
    ensures Filter(f, s) == s[..|Filter(f, s)|]
    ensures forall i :: 0 <= i < |s| ==> (f(s[i]) <==> i < |Filter(f, s)|)
  {
    if s != [] {
      var n := |s| - 1;
      if f(s[n]) {
        FilterAll(f, s);
      } else {
        FilterFront(f, s[..n]);
      }
    }
  }

  lemma {:induction false} FilterWeaker<T>(f: T -> bool, g: T -> bool, s: seq<T>)
    requires forall i :: 0 <= i < |s| && f(s[i]) ==> g(s[i])
    ensures |Filter(f, s)| <= |Filter(g, s)|
  {
    if s != [] {
      FilterWeaker(f, g, s[..|s| - 1]);
    }
  }

  /** A condition that holds exactly between two places selects what lies between. */
  lemma {:induction false} FilterMiddle<T>(f: T -> bool, s: seq<T>, p: nat, q: nat)
    requires p <= q <= |s|
    requires forall i :: 0 <= i < |s| ==> (f(s[i]) <==> p <= i < q)
    ensures Filter(f, s) == s[p..q]
  {
    if s != [] {
      var n := |s| - 1;
      var front := s[..n];
      FilterLast(f, s);
      if q <= n {
        FilterMiddle(f, front, p, q);
        assert front[p..q] == s[p..q];
      } else if p <= n {
        FilterMiddle(f, front, p, n);
        assert front[p..n] + [s[n]] == s[p..q];
      } else {
        FilterMiddle(f, front, n, n);
      }
    }
  }

  lemma FilterLast<T>(f: T -> bool, s: seq<T>)
    requires s != []
    ensures Filter(f, s) == Filter(f, s[..|s| - 1]) + if f(s[|s| - 1]) then [s[|s| - 1]] else []
  {}

  // ----- the state in effect -----

  function UpTo(specs: seq<Spec>, v: Version): seq<Spec> {
    Filter((s: Spec) => AtMost(s.version, v), specs)
  }

  function Before(specs: seq<Spec>, v: Version): seq<Spec> {
    Filter((s: Spec) => Less(s.version, v), specs)
  }

  function InRange(specs: seq<Spec>, start: Version, end: Version): seq<Spec> {
    Filter((s: Spec) => AtMost(start, s.version) && AtMost(s.version, end), specs)
  }

  function LastState(specs: seq<Spec>): Option<State> {
    if specs == [] then None else Some(specs[|specs| - 1].state)
  }

  /** The state in effect at a version: that of the last spec not later. */
  function Effective(specs: seq<Spec>, v: Version): Option<State> {
    LastState(UpTo(specs, v))
  }

  /** The state in effect just before a version. */
  function EffectiveBefore(specs: seq<Spec>, v: Version): Option<State> {
    LastState(Before(specs, v))
  }

  /** A gate that does not exist is off. */
  function DefaultOf(s: Option<State>): bool {
    s.Some? && s.value.default
  }

  /** `parse_file`: the state of every gate in effect at the target version. */
  method StatesAt(names: seq<string>, histories: map<string, seq<Spec>>, target: Version) returns (states: map<string, State>)
    requires forall i :: 0 <= i < |names| ==> names[i] in histories
    requires forall name :: name in histories ==> name in names
    ensures forall name :: name in states ==> name in histories
    ensures forall name :: name in histories ==> Get(states, name) == Effective(histories[name], target)
  {
    states := map[];
    for i := 0 to |names|
      invariant forall name :: name in states ==> name in names[..i]
      invariant forall k :: 0 <= k < i ==> Get(states, names[k]) == Effective(histories[names[k]], target)
    {
      var valid := UpTo(histories[names[i]], target);
      if valid != [] {
        states := states[names[i] := valid[|valid| - 1].state];
      }
    }
  }

  function Get(states: map<string, State>, name: string): Option<State> {
    if name in states then Some(states[name]) else None
  }

  // ----- one row -----

  datatype ChangeType = Added | Deprecated | Changed

  datatype Kind = Versioned | New | StageChange | DefaultChange | LockChange

  datatype Row = Row(
    name: string,
    priorVersion: Version,
    changeType: ChangeType,
    kinds: seq<Kind>,
    before: Option<State>,
    after: State,
    stageArrow: string,
    defaultArrow: string,
    lock: Option<bool>,
    compatible: bool,
    changes: seq<Spec>)

  function Arrow(a: string, b: string): string {
    if a == b || a == "" then "->" + b else a + "->" + b
  }

  function BoolText(b: bool): string {
    if b then "true" else "false"
  }

  /** Some spec has another default than the one before it. */
  predicate DefaultMoves(specs: seq<Spec>) {
    exists i :: 1 <= i < |specs| && specs[i - 1].state.default != specs[i].state.default
  }

  predicate IsAdded(specs: seq<Spec>, start: Version, end: Version)
    requires specs != []
  {
    AtMost(start, specs[0].version) && AtMost(specs[0].version, end)
  }

  function Compatible(added: bool, before: Option<State>, inRange: seq<Spec>): bool
    requires inRange != []
  {
    if added then !(DefaultMoves(inRange) || inRange[|inRange| - 1].state.default)
    else
      var baseline := if before.Some? then before.value.default else inRange[0].state.default;
      baseline == inRange[0].state.default && !DefaultMoves(inRange)
  }

  /** The explicit locks of the range, if any: locked when one of them locks. */
  function LockOf(inRange: seq<Spec>): Option<bool> {
    var locks := Filter((s: Spec) => s.explicit, inRange);
    if locks == [] then None else Some(exists i :: 0 <= i < |locks| && locks[i].state.locked)
  }

  /** A lock is reported exactly when the range names one, and as true exactly when one of them locks. */
  lemma LockMeaning(inRange: seq<Spec>)
    ensures LockOf(inRange) == None <==> forall s :: s in inRange ==> !s.explicit
    ensures LockOf(inRange) == Some(true) <==> exists s :: s in inRange && s.explicit && s.state.locked
  {
    var locks := Filter((s: Spec) => s.explicit, inRange);
    FilterMembers((s: Spec) => s.explicit, inRange);
    if s :| s in inRange && s.explicit && s.state.locked {
      assert s in locks;
      var i :| 0 <= i < |locks| && locks[i] == s;
      assert locks[i].state.locked;
    }
    if i :| 0 <= i < |locks| && locks[i].state.locked {
      assert locks[i] in locks;
    }
    if locks != [] {
      assert locks[0] in locks;
    }
  }

  function TypeOf(added: bool, inRange: seq<Spec>): ChangeType {
    if added then Added
    else if exists i :: 0 <= i < |inRange| && inRange[i].state.stage == "Deprecated" then Deprecated
    else Changed
  }

  function KindsOf(added: bool, shown: State, after: State, lock: Option<bool>): seq<Kind> {
    [Versioned]
    + (if added then [New]
       else (if shown.stage != after.stage then [StageChange] else [])
            + (if shown.default != after.default then [DefaultChange] else []))
    + (if lock.Some? then [LockChange] else [])
  }

  /** The state a row starts from: the one before the range, or else the first in it. */
  function Shown(before: Option<State>, inRange: seq<Spec>): State
    requires inRange != []
  {
    if before.Some? then before.value else inRange[0].state
  }

  function RowOf(name: string, specs: seq<Spec>, start: Version, end: Version): Row
    requires specs != [] && InRange(specs, start, end) != []
  {
    var inRange, prior := InRange(specs, start, end), Before(specs, start);
    var before, after := LastState(prior), inRange[|inRange| - 1].state;
    var added, shown, lock := IsAdded(specs, start, end), Shown(before, inRange), LockOf(inRange);
    Row(
      name,
      if prior != [] then prior[|prior| - 1].version else inRange[0].version,
      TypeOf(added, inRange),
      KindsOf(added, shown, after, lock),
      before,
      after,
      Arrow(shown.stage, after.stage),
      Arrow(BoolText(shown.default), BoolText(after.default)),
      lock,
      Compatible(added, before, inRange),
      inRange)
  }

  function RowNames(rows: seq<Row>): (names: seq<string>)
    ensures |names| == |rows|
  {
    seq(|rows|, i requires 0 <= i < |rows| => rows[i].name)
  }

  lemma RowNamesAppend(rows: seq<Row>, row: Row)
    ensures RowNames(rows + [row]) == RowNames(rows) + [row.name]
  {}

  /** The gate has a spec in the range. */
  ghost predicate Touched(histories: map<string, seq<Spec>>, start: Version, end: Version, name: string) {
    name in histories && exists s :: s in histories[name] && AtMost(start, s.version) && AtMost(s.version, end)
  }

  predicate Moves(histories: map<string, seq<Spec>>, start: Version, end: Version, name: string) {
    name in histories && InRange(histories[name], start, end) != []
  }

  ghost predicate IsRow(histories: map<string, seq<Spec>>, start: Version, end: Version, row: Row) {
    && Moves(histories, start, end, row.name)
    && row == RowOf(row.name, histories[row.name], start, end)
  }

  /** `release_events`: names lists the gates in the order wanted. */
  method ReleaseEvents(names: seq<string>, histories: map<string, seq<Spec>>, start: Version, end: Version)
    returns (rows: seq<Row>)
    requires forall i :: 0 <= i < |names| ==> names[i] in histories
    ensures forall i :: 0 <= i < |rows| ==> IsRow(histories, start, end, rows[i])
    ensures RowNames(rows) == Filter(name => Moves(histories, start, end, name), names)
    ensures forall name :: name in RowNames(rows) <==> name in names && Touched(histories, start, end, name)
  {
    rows := CollectRows(names, histories, start, end);
    RowsExactlyTouched(names, histories, start, end);
  }

  /** The loop over the gates. */
  method CollectRows(names: seq<string>, histories: map<string, seq<Spec>>, start: Version, end: Version)
    returns (rows: seq<Row>)
    requires forall i :: 0 <= i < |names| ==> names[i] in histories
    ensures forall i :: 0 <= i < |rows| ==> IsRow(histories, start, end, rows[i])
    ensures RowNames(rows) == Filter(name => Moves(histories, start, end, name), names)
  {
    rows := [];
    ghost var moves := name => Moves(histories, start, end, name);
    for n := 0 to |names|
      invariant forall i :: 0 <= i < |rows| ==> IsRow(histories, start, end, rows[i])
      invariant RowNames(rows) == Filter(moves, names[..n])
    {
      FilterStep(moves, names, n);
      var name := names[n];
      var specs := histories[name];
      if InRange(specs, start, end) != [] {
        RowNamesAppend(rows, RowOf(name, specs, start, end));
        rows := rows + [RowOf(name, specs, start, end)];
      }
    }
    assert names[..|names|] == names;
  }

  lemma FilterStep<T>(f: T -> bool, s: seq<T>, n: nat)
    requires n < |s|
    ensures Filter(f, s[..n + 1]) == Filter(f, s[..n]) + if f(s[n]) then [s[n]] else []
  {
    assert s[..n + 1][..n] == s[..n];
  }

  /** A gate has a row exactly when one of its specs lies in the range. */
  lemma RowsExactlyTouched(names: seq<string>, histories: map<string, seq<Spec>>, start: Version, end: Version)
    ensures forall name :: name in Filter(name => Moves(histories, start, end, name), names) <==>
                           name in names && Touched(histories, start, end, name)
  {
    FilterMembers(name => Moves(histories, start, end, name), names);
    forall name | name in names ensures Moves(histories, start, end, name) <==> Touched(histories, start, end, name) {
      MovesIffTouched(histories, start, end, name);
    }
  }

  lemma MovesIffTouched(histories: map<string, seq<Spec>>, start: Version, end: Version, name: string)
    ensures Moves(histories, start, end, name) <==> Touched(histories, start, end, name)
  {
    if name in histories {
      var specs := histories[name];
      FilterMembers((s: Spec) => AtMost(start, s.version) && AtMost(s.version, end), specs);
      if InRange(specs, start, end) != [] {
        assert InRange(specs, start, end)[0] in InRange(specs, start, end);
      }
    }
  }

  // ----- the parts of a history -----

  /** An ascending history consists of what lies before the range, inside it, and behind it. */
  lemma Parts(specs: seq<Spec>, start: Version, end: Version)
    requires Ascending(specs) && AtMost(start, end)
    ensures var p, q := |Before(specs, start)|, |UpTo(specs, end)|;
            && p <= q
            && Before(specs, start) == specs[..p] && UpTo(specs, end) == specs[..q]
            && InRange(specs, start, end) == specs[p..q]
            && (forall i :: 0 <= i < |specs| ==> (Less(specs[i].version, start) <==> i < p))
            && (forall i :: 0 <= i < |specs| ==> (AtMost(specs[i].version, end) <==> i < q))
  {
    FilterFront((s: Spec) => Less(s.version, start), specs);
    FilterFront((s: Spec) => AtMost(s.version, end), specs);
    FilterWeaker((s: Spec) => Less(s.version, start), (s: Spec) => AtMost(s.version, end), specs);
    var inside := (s: Spec) => AtMost(start, s.version) && AtMost(s.version, end);
    FilterMiddle(inside, specs, |Before(specs, start)|, |UpTo(specs, end)|);
  }

  /** Where the state in effect at a version inside the range is found. */
  lemma EffectiveInRange(specs: seq<Spec>, start: Version, end: Version, v: Version)
    requires Ascending(specs) && AtMost(start, v) && AtMost(v, end)
    ensures var p, k, q := |Before(specs, start)|, |UpTo(specs, v)|, |UpTo(specs, end)|;
            p <= k <= q && UpTo(specs, v) == specs[..k]
  {
    Parts(specs, start, v);
    FilterWeaker((s: Spec) => AtMost(s.version, v), (s: Spec) => AtMost(s.version, end), specs);
  }

  /** The row tells the state in effect at every version of the range: the last listed change not
      later than it, or else the state before. */
  lemma RowReplays(name: string, specs: seq<Spec>, start: Version, end: Version, v: Version)
    requires Ascending(specs) && specs != [] && InRange(specs, start, end) != []
    requires AtMost(start, v) && AtMost(v, end)
    ensures var row := RowOf(name, specs, start, end);
            Effective(specs, v) == if UpTo(row.changes, v) == [] then row.before else LastState(UpTo(row.changes, v))
  {
    Replay(specs, start, end, v);
  }

  lemma Replay(specs: seq<Spec>, start: Version, end: Version, v: Version)
    requires Ascending(specs) && AtMost(start, v) && AtMost(v, end)
    ensures var changes := UpTo(InRange(specs, start, end), v);
            Effective(specs, v) == if changes == [] then EffectiveBefore(specs, start) else LastState(changes)
  {
    ChangesUpTo(specs, start, end, v);
  }

  lemma ChangesUpTo(specs: seq<Spec>, start: Version, end: Version, v: Version)
    requires Ascending(specs) && AtMost(start, v) && AtMost(v, end)
    ensures var p, k := |Before(specs, start)|, |UpTo(specs, v)|;
            && p <= k <= |specs| && Before(specs, start) == specs[..p] && UpTo(specs, v) == specs[..k]
            && UpTo(InRange(specs, start, end), v) == specs[p..k]
  {
    var upTo := (s: Spec) => AtMost(s.version, v);
    Parts(specs, start, end);
    EffectiveInRange(specs, start, end, v);
    Parts(specs, start, v);
    var p, k, q := |Before(specs, start)|, |UpTo(specs, v)|, |UpTo(specs, end)|;
    var changes := specs[p..q];
    assert forall i :: 0 <= i < |changes| ==> changes[i] == specs[p + i];
    FilterMiddle(upTo, changes, 0, k - p);
  }

  /** The row's end points are the states in effect just before the range and at its end, and a gate
      counts as added exactly when it did not exist before the range. */
  lemma RowEndPoints(name: string, specs: seq<Spec>, start: Version, end: Version)
    requires Ascending(specs) && specs != [] && InRange(specs, start, end) != [] && AtMost(start, end)
    ensures var row := RowOf(name, specs, start, end);
            && row.before == EffectiveBefore(specs, start)
            && Some(row.after) == Effective(specs, end)
            && (row.changeType == Added <==> EffectiveBefore(specs, start) == None)
  {
    Parts(specs, start, end);
  }

  // ----- what a row reports -----

  /** The stage "Deprecated" occurs among the specs of the range. */
  ghost predicate DeprecatedInside(specs: seq<Spec>, start: Version, end: Version) {
    exists i :: 0 <= i < |specs| && Inside(specs[i], start, end) && specs[i].state.stage == "Deprecated"
  }

  lemma InRangeHas(specs: seq<Spec>, start: Version, end: Version)
    ensures forall s :: s in InRange(specs, start, end) <==> s in specs && Inside(s, start, end)
  {
    FilterMembers((s: Spec) => AtMost(start, s.version) && AtMost(s.version, end), specs);
  }

  lemma DeprecatedMeans(specs: seq<Spec>, start: Version, end: Version)
    ensures var r := InRange(specs, start, end);
            (exists i :: 0 <= i < |r| && r[i].state.stage == "Deprecated") <==> DeprecatedInside(specs, start, end)
  {
    var r := InRange(specs, start, end);
    InRangeHas(specs, start, end);
    if i :| 0 <= i < |r| && r[i].state.stage == "Deprecated" {
      assert r[i] in r;
      var k :| 0 <= k < |specs| && specs[k] == r[i];
      assert Inside(specs[k], start, end);
    }
    if k :| 0 <= k < |specs| && Inside(specs[k], start, end) && specs[k].state.stage == "Deprecated" {
      assert specs[k] in r;
    }
  }

  /** A row is Added exactly for a gate that did not exist before the range, Deprecated exactly for an
      older gate with a deprecated spec in the range, and Changed exactly for every other one. */
  lemma ChangeTypeMeans(name: string, specs: seq<Spec>, start: Version, end: Version)
    requires Ascending(specs) && specs != [] && InRange(specs, start, end) != [] && AtMost(start, end)
    ensures var row := RowOf(name, specs, start, end);
            var existed := EffectiveBefore(specs, start) != None;
            && (row.changeType == Added <==> !existed)
            && (row.changeType == Deprecated <==> existed && DeprecatedInside(specs, start, end))
            && (row.changeType == Changed <==> existed && !DeprecatedInside(specs, start, end))
  {
    Parts(specs, start, end);
    DeprecatedMeans(specs, start, end);
  }

  /** The state a row starts from: the one in effect before the range, or for a new gate the first of its
      specs in the range. */
  ghost predicate StartsFrom(specs: seq<Spec>, start: Version, end: Version, s: State, v: Version) {
    if EffectiveBefore(specs, start) != None
    then exists i :: && 0 <= i < |specs| && specs[i].state == s && specs[i].version == v
                     && (forall k :: 0 <= k < |specs| ==> (k <= i <==> Less(specs[k].version, start)))
    else && specs != [] && specs[0].state == s && specs[0].version == v && Inside(specs[0], start, end)
  }

  /** The version and the two arrows of a row: from the state it starts from to the one in effect at the
      end of the range; an unchanged value is shown once. */
  lemma ArrowsMean(name: string, specs: seq<Spec>, start: Version, end: Version) returns (from: State)
    requires Ascending(specs) && specs != [] && InRange(specs, start, end) != [] && AtMost(start, end)
    ensures var row := RowOf(name, specs, start, end);
            && StartsFrom(specs, start, end, from, row.priorVersion)
            && Effective(specs, end).Some?
            && var to := Effective(specs, end).value;
               && (from.stage == to.stage || from.stage == "" ==> row.stageArrow == "->" + to.stage)
               && (from.stage != to.stage && from.stage != "" ==> row.stageArrow == from.stage + "->" + to.stage)
               && (from.default == to.default ==> row.defaultArrow == if to.default then "->true" else "->false")
               && (from.default != to.default ==> row.defaultArrow == if to.default then "false->true" else "true->false")
  {
    Parts(specs, start, end);
    var p, q := |Before(specs, start)|, |UpTo(specs, end)|;
    from := if p > 0 then specs[p - 1].state else specs[0].state;
    var to := specs[q - 1].state;
    assert InRange(specs, start, end)[0] == specs[p];
    assert Shown(LastState(Before(specs, start)), InRange(specs, start, end)) == from;
    assert "false" + "->" + "true" == "false->true" && "true" + "->" + "false" == "true->false";
    assert "->" + "true" == "->true" && "->" + "false" == "->false";
    if p > 0 {
      assert specs[p - 1].state == from;
    }
  }

  /** The kinds a row lists: a new gate is New; an older one shows a stage or default change exactly when
      the state in effect before the range and at its end differ in it; a lock is listed exactly when the
      range names one. */
  lemma KindsMean(name: string, specs: seq<Spec>, start: Version, end: Version)
    requires Ascending(specs) && specs != [] && InRange(specs, start, end) != [] && AtMost(start, end)
    ensures var row := RowOf(name, specs, start, end);
            var before, after := EffectiveBefore(specs, start), Effective(specs, end);
            && Versioned in row.kinds && after.Some?
            && (New in row.kinds <==> before == None)
            && (StageChange in row.kinds <==> before.Some? && before.value.stage != after.value.stage)
            && (DefaultChange in row.kinds <==> before.Some? && before.value.default != after.value.default)
            && (LockChange in row.kinds <==> exists i :: 0 <= i < |specs| && Inside(specs[i], start, end) && specs[i].explicit)
  {
    RowEndPoints(name, specs, start, end);
    RowStart(specs, start, end);
    var r, before := InRange(specs, start, end), EffectiveBefore(specs, start);
    KindsOfMean(IsAdded(specs, start, end), Shown(before, r), r[|r| - 1].state, LockOf(r));
    LockListed(specs, start, end);
  }

  lemma RowStart(specs: seq<Spec>, start: Version, end: Version)
    requires Ascending(specs) && specs != [] && InRange(specs, start, end) != [] && AtMost(start, end)
    ensures IsAdded(specs, start, end) <==> EffectiveBefore(specs, start) == None
  {
    Parts(specs, start, end);
  }

  lemma LockListed(specs: seq<Spec>, start: Version, end: Version)
    ensures LockOf(InRange(specs, start, end)).Some? <==>
            exists i :: 0 <= i < |specs| && Inside(specs[i], start, end) && specs[i].explicit
  {
    var r := InRange(specs, start, end);
    LockMeaning(r);
    InRangeHas(specs, start, end);
    if LockOf(r).Some? {
      var s :| s in r && s.explicit;
      var k :| 0 <= k < |specs| && specs[k] == s;
      assert Inside(specs[k], start, end);
    }
    if k :| 0 <= k < |specs| && Inside(specs[k], start, end) && specs[k].explicit {
      assert specs[k] in r;
    }
  }

  lemma KindsOfMean(added: bool, shown: State, after: State, lock: Option<bool>)
    ensures var kinds := KindsOf(added, shown, after, lock);
            && Versioned in kinds && (New in kinds <==> added) && (LockChange in kinds <==> lock.Some?)
            && (StageChange in kinds <==> !added && shown.stage != after.stage)
            && (DefaultChange in kinds <==> !added && shown.default != after.default)
  {}

  // ----- compatibility -----

  lemma {:induction false} NoMoves(specs: seq<Spec>)
    requires specs != []
    ensures !DefaultMoves(specs) <==> forall i :: 0 <= i < |specs| ==> specs[i].state.default == specs[0].state.default
  {
    if !DefaultMoves(specs) {
      forall i | 0 <= i < |specs| ensures specs[i].state.default == specs[0].state.default {
        NoMovesTo(specs, i);
      }
    }
  }

  lemma {:induction false} NoMovesTo(specs: seq<Spec>, i: nat)
    requires !DefaultMoves(specs) && i < |specs|
    ensures specs[i].state.default == specs[0].state.default
  {
    if i > 0 {
      NoMovesTo(specs, i - 1);
      assert 1 <= i < |specs|;
    }
  }

  /** Every spec in the range has the default in effect before it. */
  ghost predicate EverySpecKeeps(specs: seq<Spec>, start: Version, end: Version) {
    forall i :: 0 <= i < |InRange(specs, start, end)| ==>
      InRange(specs, start, end)[i].state.default == DefaultOf(EffectiveBefore(specs, start))
  }

  /** The row is compatible exactly when every spec in the range has the default in effect before it. */
  lemma CompatibleMeansEverySpec(name: string, specs: seq<Spec>, start: Version, end: Version)
    requires Ascending(specs) && specs != [] && InRange(specs, start, end) != [] && AtMost(start, end)
    ensures RowOf(name, specs, start, end).compatible <==> EverySpecKeeps(specs, start, end)
  {
    Parts(specs, start, end);
    NoMoves(InRange(specs, start, end));
  }

  /** The default in effect does not move from just before the range to its end. */
  ghost predicate DefaultConstant(specs: seq<Spec>, start: Version, end: Version) {
    forall v :: AtMost(start, v) && AtMost(v, end) ==>
      DefaultOf(Effective(specs, v)) == DefaultOf(EffectiveBefore(specs, start))
  }

  /** The spec is in effect at its own version: every later spec has a later version. */
  ghost predicate LastOfVersion(specs: seq<Spec>, i: int) {
    0 <= i < |specs| && forall k :: i < k < |specs| ==> Less(specs[i].version, specs[k].version)
  }

  predicate Inside(s: Spec, start: Version, end: Version) {
    AtMost(start, s.version) && AtMost(s.version, end)
  }

  lemma EffectiveAtOwnVersion(specs: seq<Spec>, i: nat)
    requires Ascending(specs) && LastOfVersion(specs, i)
    ensures Effective(specs, specs[i].version) == Some(specs[i].state)
  {
    var v := specs[i].version;
    Parts(specs, v, v);
    assert i < |UpTo(specs, v)|;
    assert i + 1 < |specs| ==> Less(v, specs[i + 1].version);
  }

  /** The state in effect at a version of the range is that before it, or of a spec of the range that is
      the last of its version. */
  lemma EffectiveIsLast(specs: seq<Spec>, start: Version, end: Version, v: Version)
    requires Ascending(specs) && AtMost(start, v) && AtMost(v, end)
    ensures Effective(specs, v) == EffectiveBefore(specs, start)
            || exists i :: LastOfVersion(specs, i) && Inside(specs[i], start, end) && Effective(specs, v) == Some(specs[i].state)
  {
    Parts(specs, start, v);
    var p, k := |Before(specs, start)|, |UpTo(specs, v)|;
    if k > p {
      assert Effective(specs, v) == Some(specs[k - 1].state);
      assert AtMost(specs[k - 1].version, v);
      assert LastOfVersion(specs, k - 1) && Inside(specs[k - 1], start, end);
    }
  }

  /** Every spec of the range that comes into effect has the default in effect before the range. */
  ghost predicate EffectiveSpecsKeep(specs: seq<Spec>, start: Version, end: Version) {
    forall i :: LastOfVersion(specs, i) && Inside(specs[i], start, end) ==>
      specs[i].state.default == DefaultOf(EffectiveBefore(specs, start))
  }

  /** ... and so has every spec of the range that a later one of the same version hides. */
  ghost predicate ShadowedSpecsKeep(specs: seq<Spec>, start: Version, end: Version) {
    forall i :: 0 <= i < |specs| && !LastOfVersion(specs, i) && Inside(specs[i], start, end) ==>
      specs[i].state.default == DefaultOf(EffectiveBefore(specs, start))
  }

  /** For every history: the default in effect is constant exactly when all specs that come into effect
      keep it. */
  lemma ConstantMeansEffectiveSpecs(specs: seq<Spec>, start: Version, end: Version)
    requires Ascending(specs)
    ensures DefaultConstant(specs, start, end) <==> EffectiveSpecsKeep(specs, start, end)
  {
    if DefaultConstant(specs, start, end) {
      forall i | LastOfVersion(specs, i) && Inside(specs[i], start, end)
        ensures specs[i].state.default == DefaultOf(EffectiveBefore(specs, start))
      {
        EffectiveAtOwnVersion(specs, i);
      }
    }
    if EffectiveSpecsKeep(specs, start, end) {
      forall v | AtMost(start, v) && AtMost(v, end)
        ensures DefaultOf(Effective(specs, v)) == DefaultOf(EffectiveBefore(specs, start))
      {
        EffectiveIsLast(specs, start, end, v);
      }
    }
  }

  lemma EverySpecSplits(specs: seq<Spec>, start: Version, end: Version)
    requires Ascending(specs) && AtMost(start, end)
    ensures EverySpecKeeps(specs, start, end) <==> EffectiveSpecsKeep(specs, start, end) && ShadowedSpecsKeep(specs, start, end)
  {
    Parts(specs, start, end);
    var p, inRange := |Before(specs, start)|, InRange(specs, start, end);
    if EverySpecKeeps(specs, start, end) {
      forall i | 0 <= i < |specs| && Inside(specs[i], start, end)
        ensures specs[i].state.default == DefaultOf(EffectiveBefore(specs, start))
      {
        assert inRange[i - p] == specs[i];
      }
    }
    if EffectiveSpecsKeep(specs, start, end) && ShadowedSpecsKeep(specs, start, end) {
      forall i | 0 <= i < |inRange| ensures inRange[i].state.default == DefaultOf(EffectiveBefore(specs, start)) {
        assert inRange[i] == specs[p + i] && Inside(specs[p + i], start, end);
      }
    }
  }

  /** For every history: a row is compatible exactly when the default in effect is constant over the
      range and no hidden spec deviates from it. */
  lemma CompatibleExactly(name: string, specs: seq<Spec>, start: Version, end: Version)
    requires Ascending(specs) && specs != [] && InRange(specs, start, end) != [] && AtMost(start, end)
    ensures RowOf(name, specs, start, end).compatible <==>
            DefaultConstant(specs, start, end) && ShadowedSpecsKeep(specs, start, end)
  {
    CompatibleMeansEverySpec(name, specs, start, end);
    EverySpecSplits(specs, start, end);
    ConstantMeansEffectiveSpecs(specs, start, end);
  }

  /** So the two notions differ exactly when a hidden spec deviates while all effective ones keep the
      default. */
  lemma CompatibleDiffersWhen(name: string, specs: seq<Spec>, start: Version, end: Version)
    requires Ascending(specs) && specs != [] && InRange(specs, start, end) != [] && AtMost(start, end)
    ensures (RowOf(name, specs, start, end).compatible <==> DefaultConstant(specs, start, end)) <==>
            !(EffectiveSpecsKeep(specs, start, end) && !ShadowedSpecsKeep(specs, start, end))
  {
    CompatibleExactly(name, specs, start, end);
    ConstantMeansEffectiveSpecs(specs, start, end);
  }

  /** For strictly ascending versions, a row is compatible exactly when the default in effect is the
      same from just before the range to its end. */
  lemma CompatibleIff(name: string, specs: seq<Spec>, start: Version, end: Version)
    requires StrictlyAscending(specs) && specs != [] && InRange(specs, start, end) != [] && AtMost(start, end)
    ensures RowOf(name, specs, start, end).compatible <==> DefaultConstant(specs, start, end)
  {
    CompatibleExactly(name, specs, start, end);
    forall i | 0 <= i < |specs| ensures LastOfVersion(specs, i) {}
  }

  /** Two specs of one version: the earlier is never in effect, yet it makes the row incompatible. */
  lemma RepeatedVersion()
    ensures var v := Version(1, 30);
            var specs := [Spec(Version(1, 29), State("Alpha", false, false), false),
                          Spec(v, State("Beta", true, false), false),
                          Spec(v, State("Beta", false, false), false)];
            && Ascending(specs) && InRange(specs, v, v) != []
            && DefaultConstant(specs, v, v) && !RowOf("Gate", specs, v, v).compatible
  {
    var v := Version(1, 30);
    var a, b, c := Spec(Version(1, 29), State("Alpha", false, false), false),
        Spec(v, State("Beta", true, false), false), Spec(v, State("Beta", false, false), false);
    var specs := [a, b, c];
    Parts(specs, v, v);
    assert Before(specs, v) == [a] && UpTo(specs, v) == specs by {
      var p, q := |Before(specs, v)|, |UpTo(specs, v)|;
      assert specs[0] == a && specs[1] == b && specs[2] == c;
      assert p == 1 && q == 3;
    }
    assert InRange(specs, v, v) == [b, c];
    CompatibleMeansEverySpec("Gate", specs, v, v);
    assert InRange(specs, v, v)[0].state.default;
    forall u | AtMost(v, u) && AtMost(u, v) ensures DefaultOf(Effective(specs, u)) == DefaultOf(EffectiveBefore(specs, v)) {
      assert u == v;
    }
  }

  /** A row that reports a changed default is never compatible. */
  lemma ReportedChangeIsIncompatible(name: string, specs: seq<Spec>, start: Version, end: Version)
    requires Ascending(specs) && specs != [] && InRange(specs, start, end) != [] && AtMost(start, end)
    ensures var row := RowOf(name, specs, start, end); DefaultChange in row.kinds ==> !row.compatible
  {
    var before, inRange := EffectiveBefore(specs, start), InRange(specs, start, end);
    var after := inRange[|inRange| - 1].state;
    KindsOfMean(IsAdded(specs, start, end), Shown(before, inRange), after, LockOf(inRange));
    if Compatible(IsAdded(specs, start, end), before, inRange) {
      NoMovesTo(inRange, |inRange| - 1);
    }
  }

  // ----- completeness -----

  /** A gate whose state in effect differs between two moments of the range, the moment just before it
      included, has a row. */
  lemma NoChangeGoesUnseen(histories: map<string, seq<Spec>>, start: Version, end: Version, name: string, u: Version, v: Version)
    requires name in histories && Ascending(histories[name])
    requires AtMost(start, u) && AtMost(u, end) && AtMost(start, v) && AtMost(v, end)
    requires var specs := histories[name];
             Effective(specs, u) != Effective(specs, v) || Effective(specs, u) != EffectiveBefore(specs, start)
    ensures Touched(histories, start, end, name)
  {
    var specs := histories[name];
    Parts(specs, start, end);
    EffectiveInRange(specs, start, end, u);
    EffectiveInRange(specs, start, end, v);
    var p, q := |Before(specs, start)|, |UpTo(specs, end)|;
    assert p < q;
    assert specs[p] in specs && AtMost(start, specs[p].version) && AtMost(specs[p].version, end);
  }

  // ----- differences between two releases -----

  datatype Difference = Difference(name: string, before: Option<State>, after: Option<State>)

  /** `endpoint_differences`: names lists all gates of both releases. */
  method EndpointDifferences(names: seq<string>, earlier: map<string, State>, later: map<string, State>) returns (rows: seq<Difference>)
    requires forall name :: name in earlier || name in later ==> name in names
    ensures forall i :: 0 <= i < |rows| ==>
              rows[i].before == Get(earlier, rows[i].name) && rows[i].after == Get(later, rows[i].name) && rows[i].before != rows[i].after
    ensures forall name :: Get(earlier, name) != Get(later, name) ==> exists i :: 0 <= i < |rows| && rows[i].name == name
    ensures Patched(earlier, rows) == later
  {
    rows := [];
    for n := 0 to |names|
      invariant forall i :: 0 <= i < |rows| ==>
                  rows[i].before == Get(earlier, rows[i].name) && rows[i].after == Get(later, rows[i].name) && rows[i].before != rows[i].after
      invariant forall k :: 0 <= k < n && Get(earlier, names[k]) != Get(later, names[k]) ==>
                  exists i :: 0 <= i < |rows| && rows[i].name == names[k]
    {
      var before, after := Get(earlier, names[n]), Get(later, names[n]);
      if before == after {
        continue;
      }
      ghost var was := rows;
      rows := rows + [Difference(names[n], before, after)];
      assert rows[|was|].name == names[n];
      assert forall i :: 0 <= i < |was| ==> rows[i] == was[i];
    }
    PatchReachesNew(earlier, later, rows);
  }

  /** Carry out the differences. */
  function Patched(states: map<string, State>, rows: seq<Difference>): map<string, State> {
    if rows == [] then states
    else
      var before, row := Patched(states, rows[..|rows| - 1]), rows[|rows| - 1];
      if row.after.Some? then before[row.name := row.after.value] else before - {row.name}
  }

  lemma {:induction false} PatchedAt(states: map<string, State>, target: map<string, State>, rows: seq<Difference>, name: string)
    requires forall i :: 0 <= i < |rows| ==> rows[i].after == Get(target, rows[i].name)
    ensures Get(Patched(states, rows), name) ==
            if exists i :: 0 <= i < |rows| && rows[i].name == name then Get(target, name) else Get(states, name)
  {
    if rows != [] {
      var n := |rows| - 1;
      PatchedAt(states, target, rows[..n], name);
      if rows[n].name != name && exists i :: 0 <= i < |rows| && rows[i].name == name {
        var i :| 0 <= i < |rows| && rows[i].name == name;
        assert rows[..n][i].name == name;
      }
      if exists i :: 0 <= i < n && rows[..n][i].name == name {
        var i :| 0 <= i < n && rows[..n][i].name == name;
        assert rows[i].name == name;
      }
    }
  }

  lemma PatchReachesNew(earlier: map<string, State>, later: map<string, State>, rows: seq<Difference>)
    requires forall i :: 0 <= i < |rows| ==> rows[i].after == Get(later, rows[i].name)
    requires forall name :: Get(earlier, name) != Get(later, name) ==> exists i :: 0 <= i < |rows| && rows[i].name == name
    ensures Patched(earlier, rows) == later
  {
    forall name ensures Get(Patched(earlier, rows), name) == Get(later, name) {
      PatchedAt(earlier, later, rows, name);
    }
    assert forall name :: name in Patched(earlier, rows) <==> Get(Patched(earlier, rows), name).Some?;
    assert forall name :: name in later <==> Get(later, name).Some?;
  }
}
