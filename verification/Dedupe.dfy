/** The paper de-duplicator: records found by several sources are merged first by DOI (or title) and
    then by title. Records are objects that are updated in place and may occur several times. */
module Dedupe {
  import opened Options

  /** What a paper holds at one moment. */
  datatype Record = Record(
    source: string,
    doi: Option<string>,
    title: string,
    summary: string,
    journal: Option<string>,
    authors: seq<string>,
    institutions: seq<string>,
    concepts: seq<string>,
    cited: int,
    openAccess: bool,
    landing: Option<string>,
    pdf: Option<string>)

  class Paper {
    const source: string
    const doi: Option<string>
    const title: string
    var summary: string
    var journal: Option<string>
    var authors: seq<string>
    var institutions: seq<string>
    var concepts: seq<string>
    var cited: int
    var openAccess: bool
    var landing: Option<string>
    var pdf: Option<string>

    constructor (r: Record)
      ensures Now() == r
    {
      source, doi, title := r.source, r.doi, r.title;
      summary, journal, authors := r.summary, r.journal, r.authors;
      institutions, concepts, cited := r.institutions, r.concepts, r.cited;
      openAccess, landing, pdf := r.openAccess, r.landing, r.pdf;
    }

    function Now(): Record
      reads this
    {
      Record(source, doi, title, summary, journal, authors, institutions, concepts, cited, openAccess, landing, pdf)
    }

    /** Take over what this record lacks; an arXiv record takes no journal. */
    method Absorb(other: Paper)
      modifies this
      ensures Now() == Absorbing(old(Now()), old(other.Now()))
    {
      summary := OrText(summary, other.summary);
      journal := OrJournal(source, journal, other.journal);
      authors := OrList(authors, other.authors);
      institutions := OrList(institutions, other.institutions);
      concepts := OrList(concepts, other.concepts);
      cited := Max(cited, other.cited);
      openAccess := openAccess || other.openAccess;
      landing := OrGiven(landing, other.landing);
      pdf := OrGiven(pdf, other.pdf);
    }
  }

  // Python's `or` on texts, lists and optional texts.

  function OrText(a: string, b: string): string {
    if a != "" then a else b
  }

  function OrList(a: seq<string>, b: seq<string>): seq<string> {
    if a != [] then a else b
  }

  function OrGiven(a: Option<string>, b: Option<string>): Option<string> {
    if Given(a) then a else b
  }

  function OrJournal(source: string, a: Option<string>, b: Option<string>): Option<string> {
    OrGiven(a, if source != "arxiv" then b else None)
  }

  function Max(a: int, b: int): int {
    if a >= b then a else b
  }

  /** A truthy optional text. */
  predicate Given(s: Option<string>) {
    s.Some? && s.value != ""
  }

  function Absorbing(w: Record, o: Record): Record {
    Record(
      w.source, w.doi, w.title,
      OrText(w.summary, o.summary),
      OrJournal(w.source, w.journal, o.journal),
      OrList(w.authors, o.authors),
      OrList(w.institutions, o.institutions),
      OrList(w.concepts, o.concepts),
      Max(w.cited, o.cited),
      w.openAccess || o.openAccess,
      OrGiven(w.landing, o.landing),
      OrGiven(w.pdf, o.pdf))
  }

  /** No text, or an empty one. */
  predicate Missing(s: Option<string>) {
    s == None || s == Some("")
  }

  /** b with the identity and every filled field of a put back. */
  function Restored(a: Record, b: Record): Record {
    Record(
      a.source, a.doi, a.title,
      if a.summary == "" then b.summary else a.summary,
      if Missing(a.journal) then b.journal else a.journal,
      if a.authors == [] then b.authors else a.authors,
      if a.institutions == [] then b.institutions else a.institutions,
      if a.concepts == [] then b.concepts else a.concepts,
      b.cited,
      a.openAccess || b.openAccess,
      if Missing(a.landing) then b.landing else a.landing,
      if Missing(a.pdf) then b.pdf else a.pdf)
  }

  /** What absorbing never does: change what identifies a record, replace a field that is filled, lose a
      citation or open access, or give an arXiv record a journal. */
  predicate Preserves(a: Record, b: Record) {
    && Restored(a, b) == b && a.cited <= b.cited
    && (a.source == "arxiv" && Missing(a.journal) ==> Missing(b.journal))
  }

  /** ... and what it does: a gap is filled from the other record. */
  lemma AbsorbingMeans(w: Record, o: Record)
    ensures var r := Absorbing(w, o);
            && Preserves(w, r)
            && (w.summary == "" ==> r.summary == o.summary)
            && (w.authors == [] ==> r.authors == o.authors)
            && (w.institutions == [] ==> r.institutions == o.institutions)
            && (w.concepts == [] ==> r.concepts == o.concepts)
            && (Missing(w.landing) ==> r.landing == o.landing)
            && (Missing(w.pdf) ==> r.pdf == o.pdf)
            && (Missing(w.journal) && w.source != "arxiv" ==> r.journal == o.journal)
            && (r.cited == w.cited || r.cited == o.cited) && r.cited >= o.cited
            && (r.openAccess <==> w.openAccess || o.openAccess)
  {}

  lemma PreservesOn(a: Record, b: Record, c: Record)
    requires Preserves(a, b) && Preserves(b, c)
    ensures Preserves(a, c)
  {}

  // ----- preference -----

  function Priority(source: string): int {
    if source == "arxiv" then 3 else if source == "openalex" then 2 else if source == "crossref" then 1 else 0
  }

  /** arXiv before OpenAlex before Crossref before any other source. */
  lemma SourceOrder(source: string)
    ensures Priority("arxiv") > Priority("openalex") > Priority("crossref")
    ensures source !in {"arxiv", "openalex", "crossref"} ==> Priority(source) < Priority("crossref")
  {}

  /** The tuples compared by `_preferred`: right's is greater than left's. */
  predicate Beats(right: Record, left: Record) {
    var p, q := Priority(right.source), Priority(left.source);
    var a, b := right.summary != "", left.summary != "";
    var c, d := Given(right.doi), Given(left.doi);
    p > q || (p == q && ((a && !b) || (a == b && ((c && !d) || (c == d && right.cited > left.cited)))))
  }

  /** Source, abstract and DOI as one number: each outweighs what comes after it. */
  function Rank(r: Record): int {
    4 * Priority(r.source) + (if r.summary != "" then 2 else 0) + (if Given(r.doi) then 1 else 0)
  }

  /** The tuple comparison orders by rank and then by citations. */
  lemma BeatsIsRank(right: Record, left: Record)
    ensures Beats(right, left) <==> Rank(right) > Rank(left) || (Rank(right) == Rank(left) && right.cited > left.cited)
  {}

  // ----- what merging must not lose -----

  datatype Field = Summary | Authors | Institutions | Concepts | OpenAccess | Landing | Pdf

  /** The citation count, the rank of the source, and which fields are filled. */
  datatype Worth = Worth(cited: int, priority: int, filled: set<Field>)

  predicate Has(r: Record, f: Field) {
    match f
    case Summary => r.summary != ""
    case Authors => r.authors != []
    case Institutions => r.institutions != []
    case Concepts => r.concepts != []
    case OpenAccess => r.openAccess
    case Landing => Given(r.landing)
    case Pdf => Given(r.pdf)
  }

  function Filled(r: Record): set<Field> {
    set f: Field | Has(r, f)
  }

  function WorthOf(r: Record): Worth {
    Worth(r.cited, Priority(r.source), Filled(r))
  }

  predicate AtMost(a: Worth, b: Worth) {
    a.cited <= b.cited && a.priority <= b.priority && a.filled <= b.filled
  }

  function Join(a: Worth, b: Worth): Worth {
    Worth(Max(a.cited, b.cited), Max(a.priority, b.priority), a.filled + b.filled)
  }

  /** The preferred record, having absorbed the other, is worth as much as both. */
  lemma AbsorbingJoins(left: Record, right: Record)
    ensures var w, o := if Beats(right, left) then right else left, if Beats(right, left) then left else right;
            WorthOf(Absorbing(w, o)) == Join(WorthOf(left), WorthOf(right))
  {
    var w, o := if Beats(right, left) then right else left, if Beats(right, left) then left else right;
    AbsorbingFills(w, o);
    assert Filled(w) + Filled(o) == Filled(left) + Filled(right);
  }

  lemma AbsorbingFills(w: Record, o: Record)
    ensures Filled(Absorbing(w, o)) == Filled(w) + Filled(o)
  {
    forall f: Field ensures Has(Absorbing(w, o), f) <==> Has(w, f) || Has(o, f) {
      AbsorbingHas(w, o, f);
    }
  }

  lemma AbsorbingHas(w: Record, o: Record, f: Field)
    ensures Has(Absorbing(w, o), f) <==> Has(w, f) || Has(o, f)
  {
    match f
    case Summary =>
    case Authors =>
    case Institutions =>
    case Concepts =>
    case OpenAccess =>
    case Landing =>
    case Pdf =>
  }

  // ----- one pass -----

  function KeysOf(key: Paper -> string, papers: seq<Paper>): (keys: seq<string>)
    ensures |keys| == |papers|
  {
    seq(|papers|, i requires 0 <= i < |papers| => key(papers[i]))
  }

  /** The non-empty keys in the order of their first occurrence. */
  function FirstKeys(key: Paper -> string, papers: seq<Paper>): seq<string> {
    if papers == [] then []
    else
      var keys, k := FirstKeys(key, papers[..|papers| - 1]), key(papers[|papers| - 1]);
      if k == "" || k in keys then keys else keys + [k]
  }

  predicate Distinct(keys: seq<string>) {
    forall i, j :: 0 <= i < j < |keys| ==> keys[i] != keys[j]
  }

  ghost predicate Separate(key: Paper -> string, papers: seq<Paper>) {
    Distinct(KeysOf(key, papers)) && forall i :: 0 <= i < |papers| ==> key(papers[i]) != ""
  }

  /** The joint worth of the papers with key k. */
  function JoinOf(worth: map<Paper, Worth>, key: Paper -> string, papers: seq<Paper>, k: string): Option<Worth>
    requires forall p :: p in papers ==> p in worth
  {
    if papers == [] then None
    else
      var front, p := papers[..|papers| - 1], papers[|papers| - 1];
      var before := JoinOf(worth, key, front, k);
      if key(p) != k then before
      else if before.None? then Some(worth[p])
      else Some(Join(before.value, worth[p]))
  }

  /** Every paper still has what it had as a record of was. */
  ghost predicate Keeps(was: map<Paper, Record>, papers: seq<Paper>)
    reads papers
  {
    forall p :: p in papers ==> p in was && Preserves(was[p], p.Now())
  }

  ghost function Worths(papers: seq<Paper>): (m: map<Paper, Worth>)
    reads papers
    ensures m.Keys == set p | p in papers
    ensures forall p :: p in papers ==> m[p] == WorthOf(p.Now())
  {
    map p | p in papers :: WorthOf(p.Now())
  }

  lemma {:induction false} FirstKeysAre(key: Paper -> string, papers: seq<Paper>)
    ensures Distinct(FirstKeys(key, papers)) && "" !in FirstKeys(key, papers)
    ensures forall k :: k in FirstKeys(key, papers) <==> k != "" && exists i :: 0 <= i < |papers| && key(papers[i]) == k
  {
    if papers != [] {
      var n := |papers| - 1;
      FirstKeysAre(key, papers[..n]);
      forall k | k != "" && exists i :: 0 <= i < |papers| && key(papers[i]) == k
        ensures k in FirstKeys(key, papers)
      {
        var i :| 0 <= i < |papers| && key(papers[i]) == k;
        if i < n {
          assert papers[..n][i] == papers[i];
        }
      }
      forall k | k in FirstKeys(key, papers) ensures exists i :: 0 <= i < |papers| && key(papers[i]) == k {
        if k in FirstKeys(key, papers[..n]) {
          var i :| 0 <= i < n && key(papers[..n][i]) == k;
          assert key(papers[i]) == k;
        } else {
          assert key(papers[n]) == k;
        }
      }
    }
  }

  /** The joint worth is at least as good as every paper of the group. */
  lemma {:induction false} JoinOfBounds(worth: map<Paper, Worth>, key: Paper -> string, papers: seq<Paper>, i: nat)
    requires forall p :: p in papers ==> p in worth
    requires i < |papers|
    ensures var j := JoinOf(worth, key, papers, key(papers[i])); j.Some? && AtMost(worth[papers[i]], j.value)
  {
    var n := |papers| - 1;
    if i < n {
      JoinOfBounds(worth, key, papers[..n], i);
    }
  }

  ghost predicate Bounds(worth: map<Paper, Worth>, key: Paper -> string, papers: seq<Paper>, k: string, u: Worth)
    requires forall p :: p in papers ==> p in worth
  {
    forall i :: 0 <= i < |papers| && key(papers[i]) == k ==> AtMost(worth[papers[i]], u)
  }

  /** ... and the least such. */
  lemma {:induction false} JoinOfIsLeast(worth: map<Paper, Worth>, key: Paper -> string, papers: seq<Paper>, k: string, u: Worth)
    requires forall p :: p in papers ==> p in worth
    requires Bounds(worth, key, papers, k, u)
    ensures JoinOf(worth, key, papers, k).Some? ==> AtMost(JoinOf(worth, key, papers, k).value, u)
  {
    if papers != [] {
      var n := |papers| - 1;
      assert forall i :: 0 <= i < n ==> papers[..n][i] == papers[i];
      JoinOfIsLeast(worth, key, papers[..n], k, u);
    }
  }

  /** The dictionary after n papers: the first keys in order, each with a paper of its own. */
  ghost predicate Listed(key: Paper -> string, papers: seq<Paper>, n: nat, order: seq<string>, seen: map<string, Paper>) {
    && n <= |papers|
    && order == FirstKeys(key, papers[..n])
    && (forall k :: k in seen <==> k in order)
    && (forall k :: k in seen ==> seen[k] in papers[..n] && key(seen[k]) == k)
  }

  ghost predicate Known(papers: seq<Paper>, worth: map<Paper, Worth>) {
    forall p :: p in papers ==> p in worth
  }

  /** Each kept paper has the joint worth of its group so far. */
  ghost predicate Joined(now: map<Paper, Worth>, worth: map<Paper, Worth>, key: Paper -> string, papers: seq<Paper>,
                         n: nat, seen: map<string, Paper>)
    requires n <= |papers| && Known(papers, worth)
  {
    forall k :: k in seen ==> seen[k] in now && JoinOf(worth, key, papers[..n], k) == Some(now[seen[k]])
  }

  ghost predicate BelowKept(now: map<Paper, Worth>, key: Paper -> string, papers: seq<Paper>, n: nat, seen: map<string, Paper>, p: Paper)
    requires n <= |papers| && p in now
  {
    p in papers[..n] && key(p) in seen && seen[key(p)] in now && AtMost(now[p], now[seen[key(p)]])
  }

  /** A paper has its initial worth, or is worth no more than the kept one of its group. */
  ghost predicate Bounded(now: map<Paper, Worth>, worth: map<Paper, Worth>, key: Paper -> string, papers: seq<Paper>,
                          n: nat, seen: map<string, Paper>)
    requires n <= |papers| && Known(papers, worth) && Known(papers, now)
  {
    forall p :: p in papers ==> now[p] == worth[p] || BelowKept(now, key, papers, n, seen, p)
  }

  /** The state of a pass after n papers: `now` the current worth of every paper, `worth` the initial one. */
  ghost predicate Tracks(now: map<Paper, Worth>, worth: map<Paper, Worth>, key: Paper -> string, papers: seq<Paper>,
                         n: nat, order: seq<string>, seen: map<string, Paper>)
  {
    && Listed(key, papers, n, order, seen) && Known(papers, worth) && Known(papers, now)
    && Joined(now, worth, key, papers, n, seen) && Bounded(now, worth, key, papers, n, seen)
  }

  lemma FrontOf(papers: seq<Paper>, n: nat)
    requires n < |papers|
    ensures papers[..n + 1][..n] == papers[..n] && papers[..n + 1][n] == papers[n]
    ensures forall p :: p in papers[..n + 1] <==> p in papers[..n] || p == papers[n]
  {
    assert papers[..n + 1] == papers[..n] + [papers[n]];
  }

  lemma SkipStep(now: map<Paper, Worth>, worth: map<Paper, Worth>, key: Paper -> string, papers: seq<Paper>,
                 n: nat, order: seq<string>, seen: map<string, Paper>)
    requires Tracks(now, worth, key, papers, n, order, seen)
    requires n < |papers| && key(papers[n]) == ""
    ensures Tracks(now, worth, key, papers, n + 1, order, seen)
  {
    FrontOf(papers, n);
    FirstKeysAre(key, papers[..n]);
  }

  lemma NewStep(now: map<Paper, Worth>, worth: map<Paper, Worth>, key: Paper -> string, papers: seq<Paper>,
                n: nat, order: seq<string>, seen: map<string, Paper>)
    requires Tracks(now, worth, key, papers, n, order, seen)
    requires n < |papers| && key(papers[n]) != "" && key(papers[n]) !in seen
    ensures var k := key(papers[n]); Tracks(now, worth, key, papers, n + 1, order + [k], seen[k := papers[n]])
  {
    FrontOf(papers, n);
    var k := key(papers[n]);
    NewListed(key, papers, n, order, seen);
    FirstKeysAre(key, papers[..n]);
    NoGroup(worth, key, papers[..n], k);
    assert now[papers[n]] == worth[papers[n]];
    assert Joined(now, worth, key, papers, n + 1, seen[k := papers[n]]);
  }

  lemma NewListed(key: Paper -> string, papers: seq<Paper>, n: nat, order: seq<string>, seen: map<string, Paper>)
    requires Listed(key, papers, n, order, seen)
    requires n < |papers| && key(papers[n]) != "" && key(papers[n]) !in seen
    ensures var k := key(papers[n]); Listed(key, papers, n + 1, order + [k], seen[k := papers[n]])
  {
    FrontOf(papers, n);
  }

  lemma {:induction false} NoGroup(worth: map<Paper, Worth>, key: Paper -> string, papers: seq<Paper>, k: string)
    requires forall p :: p in papers ==> p in worth
    requires forall i :: 0 <= i < |papers| ==> key(papers[i]) != k
    ensures JoinOf(worth, key, papers, k) == None
  {
    if papers != [] {
      NoGroup(worth, key, papers[..|papers| - 1], k);
    }
  }

  lemma MergeStep(now: map<Paper, Worth>, worth: map<Paper, Worth>, key: Paper -> string, papers: seq<Paper>,
                  n: nat, order: seq<string>, seen: map<string, Paper>, winner: Paper)
    requires Tracks(now, worth, key, papers, n, order, seen)
    requires n < |papers| && key(papers[n]) in seen
    requires winner == papers[n] || winner == seen[key(papers[n])]
    ensures var k := key(papers[n]);
            Tracks(now[winner := Join(now[seen[k]], now[papers[n]])], worth, key, papers, n + 1, order, seen[k := winner])
  {
    var k := key(papers[n]);
    var all := Join(now[seen[k]], now[papers[n]]);
    FrontOf(papers, n);
    MergeListed(key, papers, n, order, seen, winner);
    MergeJoined(now, worth, key, papers, n, order, seen, winner, all);
    MergeBounded(now, worth, key, papers, n, order, seen, winner, all);
  }

  lemma MergeListed(key: Paper -> string, papers: seq<Paper>, n: nat, order: seq<string>, seen: map<string, Paper>, winner: Paper)
    requires Listed(key, papers, n, order, seen) && n < |papers| && key(papers[n]) in seen
    requires winner == papers[n] || winner == seen[key(papers[n])]
    ensures Listed(key, papers, n + 1, order, seen[key(papers[n]) := winner])
  {
    FrontOf(papers, n);
  }

  lemma MergeJoined(now: map<Paper, Worth>, worth: map<Paper, Worth>, key: Paper -> string, papers: seq<Paper>,
                    n: nat, order: seq<string>, seen: map<string, Paper>, winner: Paper, all: Worth)
    requires Tracks(now, worth, key, papers, n, order, seen)
    requires n < |papers| && key(papers[n]) in seen && all == Join(now[seen[key(papers[n])]], now[papers[n]])
    requires winner == papers[n] || winner == seen[key(papers[n])]
    ensures Joined(now[winner := all], worth, key, papers, n + 1, seen[key(papers[n]) := winner])
  {
    FrontOf(papers, n);
    SameJoin(now, worth, key, papers, n, order, seen);
  }

  lemma MergeBounded(now: map<Paper, Worth>, worth: map<Paper, Worth>, key: Paper -> string, papers: seq<Paper>,
                     n: nat, order: seq<string>, seen: map<string, Paper>, winner: Paper, all: Worth)
    requires Tracks(now, worth, key, papers, n, order, seen)
    requires n < |papers| && key(papers[n]) in seen && all == Join(now[seen[key(papers[n])]], now[papers[n]])
    requires winner == papers[n] || winner == seen[key(papers[n])]
    ensures Bounded(now[winner := all], worth, key, papers, n + 1, seen[key(papers[n]) := winner])
  {
    FrontOf(papers, n);
    var k := key(papers[n]);
    JoinIsAbove(now[seen[k]], now[papers[n]]);
    forall q | q in papers && q != winner
      ensures now[q] == worth[q] || BelowKept(now[winner := all], key, papers, n + 1, seen[k := winner], q)
    {
      if key(q) in seen && key(q) != k {
        assert seen[key(q)] != winner;
      }
    }
  }

  lemma JoinIsAbove(a: Worth, b: Worth)
    ensures AtMost(a, Join(a, b)) && AtMost(b, Join(a, b))
    ensures forall c :: AtMost(c, a) || AtMost(c, b) ==> AtMost(c, Join(a, b))
  {}

  /** A paper that occurred before adds nothing the second time. */
  lemma SameJoin(now: map<Paper, Worth>, worth: map<Paper, Worth>, key: Paper -> string, papers: seq<Paper>,
                 n: nat, order: seq<string>, seen: map<string, Paper>)
    requires Tracks(now, worth, key, papers, n, order, seen)
    requires n < |papers| && key(papers[n]) in seen
    ensures var p, k := papers[n], key(papers[n]);
            JoinOf(worth, key, papers[..n + 1], k) == Some(Join(now[seen[k]], now[p]))
  {
    var p, k := papers[n], key(papers[n]);
    FrontOf(papers, n);
    if now[p] != worth[p] {
      var i :| 0 <= i < n && papers[..n][i] == p;
      JoinOfBounds(worth, key, papers[..n], i);
      JoinWithLess(now[seen[k]], now[p]);
      JoinWithLess(now[seen[k]], worth[p]);
    }
  }

  lemma JoinWithLess(a: Worth, b: Worth)
    requires AtMost(b, a)
    ensures Join(a, b) == a
  {
    assert a.filled + b.filled == a.filled;
  }

  /** The values of an insertion-ordered dictionary. */
  function Values(order: seq<string>, seen: map<string, Paper>): (papers: seq<Paper>)
    requires forall k :: k in order ==> k in seen
    ensures |papers| == |order| && forall i :: 0 <= i < |order| ==> papers[i] == seen[order[i]]
  {
    seq(|order|, i requires 0 <= i < |order| => seen[order[i]])
  }

  lemma KeptIsJoined(now: map<Paper, Worth>, worth: map<Paper, Worth>, key: Paper -> string, papers: seq<Paper>,
                     order: seq<string>, seen: map<string, Paper>)
    requires Tracks(now, worth, key, papers, |papers|, order, seen)
    ensures KeysOf(key, Values(order, seen)) == FirstKeys(key, papers)
    ensures forall i :: 0 <= i < |order| ==>
              var p := Values(order, seen)[i];
              p in papers && JoinOf(worth, key, papers, key(p)) == Some(now[p])
  {
    assert papers[..|papers|] == papers;
    forall i | 0 <= i < |order| ensures key(Values(order, seen)[i]) == order[i] {
      assert order[i] in seen;
    }
  }

  /** One pass: among the papers of one key the preferred one stays, in the place of the first. */
  method MergeBy(papers: seq<Paper>, key: Paper -> string, ghost was: map<Paper, Record>) returns (kept: seq<Paper>)
    requires Keeps(was, papers)
    modifies papers
    ensures forall i :: 0 <= i < |kept| ==> kept[i] in papers
    ensures KeysOf(key, kept) == FirstKeys(key, papers)
    ensures forall i :: 0 <= i < |kept| ==>
              Some(WorthOf(kept[i].Now())) == JoinOf(old(Worths(papers)), key, papers, key(kept[i]))
    ensures Separate(key, papers) ==> kept == papers && forall p :: p in papers ==> p.Now() == old(p.Now())
    ensures Keeps(was, papers)
  {
    var order, seen := Collect(papers, key, was);
    kept := Values(order, seen);
    KeptIsJoined(Worths(papers), old(Worths(papers)), key, papers, order, seen);
    KeptIsAll(key, papers, order, seen);
  }

  /** The loop of a pass. */
  method Collect(papers: seq<Paper>, key: Paper -> string, ghost was: map<Paper, Record>)
    returns (order: seq<string>, seen: map<string, Paper>)
    requires Keeps(was, papers)
    modifies papers
    ensures Tracks(Worths(papers), old(Worths(papers)), key, papers, |papers|, order, seen)
    ensures Separate(key, papers) ==>
              Undisturbed(key, papers, |papers|, order, seen) && forall p :: p in papers ==> p.Now() == old(p.Now())
    ensures Keeps(was, papers)
  {
    order, seen := [], map[];
    ghost var worth := Worths(papers);
    for n := 0 to |papers|
      invariant Tracks(Worths(papers), worth, key, papers, n, order, seen)
      invariant Separate(key, papers) ==>
                  Undisturbed(key, papers, n, order, seen) && forall p :: p in papers ==> p.Now() == old(p.Now())
      invariant Keeps(was, papers)
    {
      order, seen := Enter(papers, key, n, order, seen, worth, was);
    }
  }

  lemma KeptIsAll(key: Paper -> string, papers: seq<Paper>, order: seq<string>, seen: map<string, Paper>)
    requires forall k :: k in order ==> k in seen
    ensures Undisturbed(key, papers, |papers|, order, seen) ==> Values(order, seen) == papers
  {}

  /** The loop body: enter one paper into the insertion-ordered dictionary. */
  method Enter(papers: seq<Paper>, key: Paper -> string, n: nat, order: seq<string>, seen: map<string, Paper>, ghost worth: map<Paper, Worth>, ghost was: map<Paper, Record>)
    returns (order': seq<string>, seen': map<string, Paper>)
    requires n < |papers| && Tracks(Worths(papers), worth, key, papers, n, order, seen) && Keeps(was, papers)
    modifies papers
    ensures Tracks(Worths(papers), worth, key, papers, n + 1, order', seen')
    ensures Keeps(was, papers)
    ensures Separate(key, papers) ==> forall p :: p in papers ==> p.Now() == old(p.Now())
    ensures Separate(key, papers) && Undisturbed(key, papers, n, order, seen) ==> Undisturbed(key, papers, n + 1, order', seen')
  {
    var paper := papers[n];
    var k := key(paper);
    ghost var now := Worths(papers);
    order', seen' := order, seen;
    if k == "" {
      SkipStep(now, worth, key, papers, n, order, seen);
      assert !Separate(key, papers);
    } else if k !in seen {
      NewStep(now, worth, key, papers, n, order, seen);
      UndisturbedStep(key, papers, n, order, seen);
      order', seen' := order + [k], seen[k := paper];
    } else {
      NotSeparate(key, papers, n, order);
      var winner := MergePair(papers, seen[k], paper);
      PreservesOn(was[winner], old(winner.Now()), winner.Now());
      MergeStep(now, worth, key, papers, n, order, seen, winner);
      seen' := seen[k := winner];
    }
  }

  /** The preferred of two papers takes over from the other. */
  method MergePair(ghost papers: seq<Paper>, left: Paper, right: Paper) returns (winner: Paper)
    requires left in papers && right in papers
    modifies left, right
    ensures winner == old(if Beats(right.Now(), left.Now()) then right else left)
    ensures winner.Now() == old(if Beats(right.Now(), left.Now()) then Absorbing(right.Now(), left.Now()) else Absorbing(left.Now(), right.Now()))
    ensures forall p :: p in papers && p != winner ==> p.Now() == old(p.Now())
    ensures Preserves(old(winner.Now()), winner.Now())
    ensures Worths(papers) == old(Worths(papers)[winner := Join(WorthOf(left.Now()), WorthOf(right.Now()))])
  {
    AbsorbingJoins(left.Now(), right.Now());
    AbsorbingMeans(left.Now(), right.Now());
    AbsorbingMeans(right.Now(), left.Now());
    ghost var before := Worths(papers);
    if Beats(right.Now(), left.Now()) {
      winner := right;
      right.Absorb(left);
    } else {
      winner := left;
      left.Absorb(right);
    }
    OnlyWinnerMoved(before, Worths(papers), winner, Join(before[left], before[right]));
  }

  lemma OnlyWinnerMoved(before: map<Paper, Worth>, after: map<Paper, Worth>, winner: Paper, w: Worth)
    requires before.Keys == after.Keys && winner in after && after[winner] == w
    requires forall p :: p in before && p != winner ==> after[p] == before[p]
    ensures after == before[winner := w]
  {}

  /** Nothing has been merged yet. */
  ghost predicate Undisturbed(key: Paper -> string, papers: seq<Paper>, n: nat, order: seq<string>, seen: map<string, Paper>) {
    && n <= |papers| && |order| == n
    && forall i :: 0 <= i < n ==> order[i] == key(papers[i]) && order[i] in seen && seen[order[i]] == papers[i]
  }

  lemma UndisturbedStep(key: Paper -> string, papers: seq<Paper>, n: nat, order: seq<string>, seen: map<string, Paper>)
    requires n < |papers| && key(papers[n]) !in seen
    ensures Undisturbed(key, papers, n, order, seen) ==>
              Undisturbed(key, papers, n + 1, order + [key(papers[n])], seen[key(papers[n]) := papers[n]])
  {}

  lemma NotSeparate(key: Paper -> string, papers: seq<Paper>, n: nat, order: seq<string>)
    requires n < |papers| && order == FirstKeys(key, papers[..n]) && key(papers[n]) in order
    ensures !Separate(key, papers)
  {
    FirstKeysAre(key, papers[..n]);
    var i :| 0 <= i < n && key(papers[..n][i]) == key(papers[n]);
    assert KeysOf(key, papers)[i] == KeysOf(key, papers)[n];
  }

  // ----- both passes -----

  /** `(paper.doi or normalize(paper.title)).lower()`. */
  function FirstKey(normalize: string -> string, lower: string -> string): Paper -> string {
    (p: Paper) => lower(if Given(p.doi) then p.doi.value else normalize(p.title))
  }

  function TitleKey(normalize: string -> string): Paper -> string {
    (p: Paper) => normalize(p.title)
  }

  /** What the first pass takes for the same work, over the records' own fields: equal DOIs, or equal
      normalised titles where there is no DOI, up to case. */
  predicate SameWork(normalize: string -> string, lower: string -> string, p: Paper, q: Paper) {
    if !Missing(p.doi) && !Missing(q.doi) then lower(p.doi.value) == lower(q.doi.value)
    else if !Missing(p.doi) then lower(p.doi.value) == lower(normalize(q.title))
    else if !Missing(q.doi) then lower(normalize(p.title)) == lower(q.doi.value)
    else lower(normalize(p.title)) == lower(normalize(q.title))
  }

  lemma SameWorkIsKey(normalize: string -> string, lower: string -> string, p: Paper, q: Paper)
    ensures SameWork(normalize, lower, p, q) <==> FirstKey(normalize, lower)(p) == FirstKey(normalize, lower)(q)
  {}

  /** p is the same work as one of reps, and that one has the title of o. */
  ghost predicate MergedInto(normalize: string -> string, lower: string -> string, reps: seq<Paper>, p: Paper, o: Paper) {
    exists i :: 0 <= i < |reps| && SameWork(normalize, lower, reps[i], p) && normalize(reps[i].title) == normalize(o.title)
  }

  lemma MergedIsAbsorbed(normalize: string -> string, lower: string -> string, reps: seq<Paper>, p: Paper, o: Paper)
    ensures MergedInto(normalize, lower, reps, p, o) <==> Absorbed(FirstKey(normalize, lower), TitleKey(normalize), reps, p, o)
  {
    if MergedInto(normalize, lower, reps, p, o) {
      var i :| 0 <= i < |reps| && SameWork(normalize, lower, reps[i], p) && normalize(reps[i].title) == normalize(o.title);
      SameWorkIsKey(normalize, lower, reps[i], p);
      assert TitleKey(normalize)(reps[i]) == TitleKey(normalize)(o);
    }
    if Absorbed(FirstKey(normalize, lower), TitleKey(normalize), reps, p, o) {
      var i :| 0 <= i < |reps| && FirstKey(normalize, lower)(reps[i]) == FirstKey(normalize, lower)(p)
                 && TitleKey(normalize)(reps[i]) == TitleKey(normalize)(o);
      SameWorkIsKey(normalize, lower, reps[i], p);
    }
  }

  /** No two of the papers are the same work. */
  ghost predicate DifferentWorks(normalize: string -> string, lower: string -> string, papers: seq<Paper>) {
    forall i, j :: 0 <= i < j < |papers| ==> !SameWork(normalize, lower, papers[i], papers[j])
  }

  ghost predicate DifferentTitles(normalize: string -> string, papers: seq<Paper>) {
    forall i, j :: 0 <= i < j < |papers| ==> normalize(papers[i].title) != normalize(papers[j].title)
  }

  lemma SeparateWorks(normalize: string -> string, lower: string -> string, papers: seq<Paper>)
    requires Separate(FirstKey(normalize, lower), papers)
    ensures DifferentWorks(normalize, lower, papers)
  {
    var key := FirstKey(normalize, lower);
    forall i, j | 0 <= i < j < |papers| ensures !SameWork(normalize, lower, papers[i], papers[j]) {
      SameWorkIsKey(normalize, lower, papers[i], papers[j]);
      assert KeysOf(key, papers)[i] != KeysOf(key, papers)[j];
    }
  }

  lemma SeparateTitles(normalize: string -> string, papers: seq<Paper>)
    requires Separate(TitleKey(normalize), papers)
    ensures DifferentTitles(normalize, papers)
  {
    var key := TitleKey(normalize);
    forall i, j | 0 <= i < j < |papers| ensures normalize(papers[i].title) != normalize(papers[j].title) {
      assert KeysOf(key, papers)[i] != KeysOf(key, papers)[j];
    }
  }

  /** Two papers that are the same work go the same way. */
  lemma SameWorkSameWay(normalize: string -> string, lower: string -> string, reps: seq<Paper>, p: Paper, q: Paper, o: Paper)
    requires SameWork(normalize, lower, p, q)
    ensures MergedInto(normalize, lower, reps, p, o) <==> MergedInto(normalize, lower, reps, q, o)
  {
    SameWorkIsKey(normalize, lower, p, q);
    MergedIsAbsorbed(normalize, lower, reps, p, o);
    MergedIsAbsorbed(normalize, lower, reps, q, o);
  }

  /** p was merged into one of reps by the first pass, and that one into o by the second. */
  ghost predicate Absorbed(key: Paper -> string, title: Paper -> string, reps: seq<Paper>, p: Paper, o: Paper) {
    exists i :: 0 <= i < |reps| && key(reps[i]) == key(p) && title(reps[i]) == title(o)
  }

  /** u is at least the initial worth of everything o absorbed. */
  ghost predicate Covers(worth: map<Paper, Worth>, key: Paper -> string, title: Paper -> string,
                         papers: seq<Paper>, reps: seq<Paper>, o: Paper, u: Worth)
    requires forall p :: p in papers ==> p in worth
  {
    forall j :: 0 <= j < |papers| && Absorbed(key, title, reps, papers[j], o) ==> AtMost(worth[papers[j]], u)
  }

  ghost predicate LeastCover(worth: map<Paper, Worth>, key: Paper -> string, title: Paper -> string,
                             papers: seq<Paper>, reps: seq<Paper>, o: Paper, w: Worth)
    requires forall p :: p in papers ==> p in worth
  {
    && Covers(worth, key, title, papers, reps, o, w)
    && forall u :: Covers(worth, key, title, papers, reps, o, u) ==> AtMost(w, u)
  }

  /** Joining joint worths covers every paper once more, and nothing else. */
  lemma TwoPassLeast(worth: map<Paper, Worth>, mid: map<Paper, Worth>, key: Paper -> string, title: Paper -> string,
                     papers: seq<Paper>, reps: seq<Paper>, o: Paper, w: Worth)
    requires (forall p :: p in papers ==> p in worth) && (forall r :: r in reps ==> r in mid)
    requires forall i :: 0 <= i < |reps| ==> JoinOf(worth, key, papers, key(reps[i])) == Some(mid[reps[i]])
    requires JoinOf(mid, title, reps, title(o)) == Some(w)
    ensures LeastCover(worth, key, title, papers, reps, o, w)
  {
    forall j | 0 <= j < |papers| && Absorbed(key, title, reps, papers[j], o) ensures AtMost(worth[papers[j]], w) {
      var i :| 0 <= i < |reps| && key(reps[i]) == key(papers[j]) && title(reps[i]) == title(o);
      JoinOfBounds(worth, key, papers, j);
      JoinOfBounds(mid, title, reps, i);
    }
    forall u | Covers(worth, key, title, papers, reps, o, u) ensures AtMost(w, u) {
      forall i | 0 <= i < |reps| && title(reps[i]) == title(o) ensures AtMost(mid[reps[i]], u) {
        forall j | 0 <= j < |papers| && key(papers[j]) == key(reps[i]) ensures AtMost(worth[papers[j]], u) {
          assert Absorbed(key, title, reps, papers[j], o);
        }
        JoinOfIsLeast(worth, key, papers, key(reps[i]), u);
      }
      JoinOfIsLeast(mid, title, reps, title(o), u);
    }
  }

  lemma KeysSeparate(key: Paper -> string, papers: seq<Paper>, kept: seq<Paper>)
    requires KeysOf(key, kept) == FirstKeys(key, papers)
    ensures Separate(key, kept)
  {
    FirstKeysAre(key, papers);
    forall i | 0 <= i < |kept| ensures key(kept[i]) != "" {
      assert KeysOf(key, kept)[i] in KeysOf(key, kept);
    }
  }

  /** Choosing from papers with distinct keys, by another distinct key, keeps the first keys distinct. */
  lemma ChosenSeparate(key: Paper -> string, title: Paper -> string, reps: seq<Paper>, out: seq<Paper>)
    requires Separate(key, reps) && Separate(title, out)
    requires forall i :: 0 <= i < |out| ==> out[i] in reps
    ensures Separate(key, out)
  {
    forall i, j | 0 <= i < j < |out| ensures KeysOf(key, out)[i] != KeysOf(key, out)[j] {
      var a :| 0 <= a < |reps| && reps[a] == out[i];
      var b :| 0 <= b < |reps| && reps[b] == out[j];
      assert KeysOf(title, out)[i] != KeysOf(title, out)[j];
      assert KeysOf(key, reps)[a] == key(out[i]) && KeysOf(key, reps)[b] == key(out[j]);
    }
  }

  /** `_dedupe`. Outputs have distinct keys and distinct titles, and each is worth exactly as much as
      everything it absorbed; papers that are distinct already are returned as they are. */
  method Deduplicate(papers: seq<Paper>, normalize: string -> string, lower: string -> string)
    returns (out: seq<Paper>, ghost reps: seq<Paper>)
    modifies papers
    ensures forall i :: 0 <= i < |out| ==> out[i] in papers
    ensures KeysOf(FirstKey(normalize, lower), reps) == FirstKeys(FirstKey(normalize, lower), papers)
    ensures KeysOf(TitleKey(normalize), out) == FirstKeys(TitleKey(normalize), reps)
    ensures forall i :: 0 <= i < |reps| ==> reps[i] in papers
    ensures Separate(FirstKey(normalize, lower), out) && Separate(TitleKey(normalize), out)
    ensures forall i :: 0 <= i < |out| ==>
              LeastCover(old(Worths(papers)), FirstKey(normalize, lower), TitleKey(normalize), papers, reps, out[i], WorthOf(out[i].Now()))
    ensures Separate(FirstKey(normalize, lower), papers) && Separate(TitleKey(normalize), papers) ==>
              out == papers && forall p :: p in papers ==> p.Now() == old(p.Now())
    ensures DifferentWorks(normalize, lower, reps) && DifferentWorks(normalize, lower, out) && DifferentTitles(normalize, out)
    ensures forall p, q, o :: p in papers && q in papers && o in out && SameWork(normalize, lower, p, q) ==>
              (MergedInto(normalize, lower, reps, p, o) <==> MergedInto(normalize, lower, reps, q, o))
    ensures forall p :: p in papers ==> Preserves(old(p.Now()), p.Now())
  {
    var key, title := FirstKey(normalize, lower), TitleKey(normalize);
    ghost var worth := Worths(papers);
    ghost var was := map p | p in papers :: p.Now();
    var seen := MergeBy(papers, key, was);
    reps := seen;
    ghost var mid := Worths(reps);
    out := MergeBy(seen, title, was);
    KeysSeparate(key, papers, reps);
    KeysSeparate(title, reps, out);
    ChosenSeparate(key, title, reps, out);
    SeparateWorks(normalize, lower, reps);
    SeparateWorks(normalize, lower, out);
    SeparateTitles(normalize, out);
    forall p, q, o | p in papers && q in papers && o in out && SameWork(normalize, lower, p, q)
      ensures MergedInto(normalize, lower, reps, p, o) <==> MergedInto(normalize, lower, reps, q, o)
    {
      SameWorkSameWay(normalize, lower, reps, p, q, o);
    }
    forall i | 0 <= i < |out|
      ensures LeastCover(worth, key, title, papers, reps, out[i], WorthOf(out[i].Now()))
    {
      TwoPassLeast(worth, mid, key, title, papers, reps, out[i], WorthOf(out[i].Now()));
    }
  }

  /** Running it again returns the same papers in the same order and changes nothing in them. */
  method DeduplicateTwice(papers: seq<Paper>, normalize: string -> string, lower: string -> string)
    returns (once: seq<Paper>, after: seq<Record>, twice: seq<Paper>)
    modifies papers
    ensures twice == once && |after| == |once|
    ensures forall i :: 0 <= i < |once| ==> once[i].Now() == after[i]
  {
    ghost var reps;
    once, reps := Deduplicate(papers, normalize, lower);
    after := seq(|once|, i requires 0 <= i < |once| reads once => once[i].Now());
    twice, reps := Deduplicate(once, normalize, lower);
  }

  /** Where no key and no title is empty, every paper is absorbed by exactly one output. */
  lemma AbsorbedOnce(key: Paper -> string, title: Paper -> string, papers: seq<Paper>, reps: seq<Paper>, out: seq<Paper>, p: Paper)
    requires KeysOf(key, reps) == FirstKeys(key, papers) && KeysOf(title, out) == FirstKeys(title, reps)
    requires forall i :: 0 <= i < |reps| ==> reps[i] in papers
    requires forall q :: q in papers ==> key(q) != "" && title(q) != ""
    requires p in papers
    ensures exists i :: 0 <= i < |out| && Absorbed(key, title, reps, p, out[i])
    ensures forall i, j :: 0 <= i < |out| && 0 <= j < |out| && Absorbed(key, title, reps, p, out[i]) && Absorbed(key, title, reps, p, out[j]) ==> i == j
  {
    var r := Representative(key, papers, reps, p);
    var o := Representative(title, reps, out, reps[r]);
    assert Absorbed(key, title, reps, p, out[o]);
    KeysSeparate(key, papers, reps);
    KeysSeparate(title, reps, out);
    forall i | 0 <= i < |out| && Absorbed(key, title, reps, p, out[i]) ensures i == o {
      var a :| 0 <= a < |reps| && key(reps[a]) == key(p) && title(reps[a]) == title(out[i]);
      SamePlace(key, reps, a, r);
      SamePlace(title, out, i, o);
    }
  }

  lemma SamePlace(key: Paper -> string, papers: seq<Paper>, i: nat, j: nat)
    requires Separate(key, papers) && i < |papers| && j < |papers| && key(papers[i]) == key(papers[j])
    ensures i == j
  {
    assert KeysOf(key, papers)[i] == KeysOf(key, papers)[j];
  }

  lemma Representative(key: Paper -> string, papers: seq<Paper>, kept: seq<Paper>, p: Paper) returns (i: nat)
    requires KeysOf(key, kept) == FirstKeys(key, papers) && p in papers && key(p) != ""
    ensures i < |kept| && key(kept[i]) == key(p)
  {
    FirstKeysAre(key, papers);
    assert key(p) in KeysOf(key, kept);
    i :| 0 <= i < |kept| && KeysOf(key, kept)[i] == key(p);
  }
}
