/** The agent's evidence list: retrieval rounds are merged by document id, the better score wins,
    and the list is cut to the best k after every merge. */
module TopKMerge {

  datatype Doc = Doc(id: string, score: real)

  predicate DistinctIds(docs: seq<Doc>) {
    forall i, j :: 0 <= i < j < |docs| ==> docs[i].id != docs[j].id
  }

  predicate Descending(docs: seq<Doc>) {
    forall i, j :: 0 <= i < j < |docs| ==> docs[i].score >= docs[j].score
  }

  // ----- the best score of every id -----

  type Best = map<string, real>

  /** Record one retrieved document. */
  function Record(m: Best, d: Doc): Best {
    if d.id !in m || d.score > m[d.id] then m[d.id := d.score] else m
  }

  /** The best score of every id over a list of documents. */
  function BestOf(m: Best, docs: seq<Doc>): Best {
    if docs == [] then m else Record(BestOf(m, docs[..|docs| - 1]), docs[|docs| - 1])
  }

  lemma {:induction false} BestOfConcat(m: Best, a: seq<Doc>, b: seq<Doc>)
    ensures BestOf(m, a + b) == BestOf(BestOf(m, a), b)
  {
    if b == [] {
      assert a + b == a;
    } else {
      BestOfConcat(m, a, b[..|b| - 1]);
      assert (a + b)[..|a + b| - 1] == a + b[..|b| - 1];
    }
  }

  /** The ids whose score exceeds t. */
  function Above(m: Best, t: real): set<string> {
    set id | id in m && m[id] > t
  }

  /** Merging takes the union of what exceeds any threshold. */
  lemma {:induction false} AboveOfBest(m: Best, docs: seq<Doc>, t: real)
    ensures Above(BestOf(m, docs), t) == Above(m, t) + Above(BestOf(map[], docs), t)
  {
    if docs != [] {
      AboveOfBest(m, docs[..|docs| - 1], t);
      AboveRecord(BestOf(m, docs[..|docs| - 1]), docs[|docs| - 1], t);
      AboveRecord(BestOf(map[], docs[..|docs| - 1]), docs[|docs| - 1], t);
    }
  }

  lemma AboveRecord(m: Best, d: Doc, t: real)
    ensures Above(Record(m, d), t) == Above(m, t) + (if d.score > t then {d.id} else {})
  {}

  // ----- lists of documents -----

  /** A list as a map, for distinct ids. */
  function AsMap(docs: seq<Doc>): Best {
    BestOf(map[], docs)
  }

  /** How many documents of a list score above t. */
  function Count(docs: seq<Doc>, t: real): nat {
    if docs == [] then 0 else Count(docs[..|docs| - 1], t) + (if docs[|docs| - 1].score > t then 1 else 0)
  }

  lemma {:induction false} MapOfDistinct(docs: seq<Doc>)
    requires DistinctIds(docs)
    ensures forall i :: 0 <= i < |docs| ==> docs[i].id in AsMap(docs) && AsMap(docs)[docs[i].id] == docs[i].score
    ensures forall id :: id in AsMap(docs) ==> exists i :: 0 <= i < |docs| && docs[i].id == id
  {
    if docs != [] {
      var front, last := docs[..|docs| - 1], docs[|docs| - 1];
      MapOfDistinct(front);
      assert last.id !in AsMap(front);
      forall id | id in AsMap(docs) ensures exists i :: 0 <= i < |docs| && docs[i].id == id {
        if id == last.id {
          assert docs[|docs| - 1].id == id;
        } else {
          var i :| 0 <= i < |front| && front[i].id == id;
          assert docs[i].id == id;
        }
      }
    }
  }

  lemma {:induction false} CountIsAbove(docs: seq<Doc>, t: real)
    requires DistinctIds(docs)
    ensures Count(docs, t) == |Above(AsMap(docs), t)|
  {
    if docs != [] {
      var front, last := docs[..|docs| - 1], docs[|docs| - 1];
      CountIsAbove(front, t);
      MapOfDistinct(front);
      assert last.id !in AsMap(front);
      AboveRecord(AsMap(front), last, t);
    }
  }

  /** `docs[:k]`. */
  function Cut(docs: seq<Doc>, k: nat): seq<Doc> {
    docs[..if k < |docs| then k else |docs|]
  }

  /** A cut of a descending list keeps as many documents above any threshold as fit. */
  lemma {:induction false} CountOfCut(docs: seq<Doc>, k: nat, t: real)
    requires Descending(docs)
    ensures Count(Cut(docs, k), t) == Min(k, Count(docs, t))
  {
    var n := |docs|;
    if k >= n {
      CountBound(docs, t);
      assert docs[..n] == docs;
    } else {
      var front := docs[..n - 1];
      CountOfCut(front, k, t);
      assert front[..k] == docs[..k];
      if docs[n - 1].score > t {
        AllCounted(front, t);
      }
    }
  }

  function Min(a: nat, b: nat): nat {
    if a < b then a else b
  }

  lemma {:induction false} CountBound(docs: seq<Doc>, t: real)
    ensures Count(docs, t) <= |docs|
  {
    if docs != [] {
      CountBound(docs[..|docs| - 1], t);
    }
  }

  lemma {:induction false} AllCounted(docs: seq<Doc>, t: real)
    requires forall i :: 0 <= i < |docs| ==> docs[i].score > t
    ensures Count(docs, t) == |docs|
  {
    if docs != [] {
      AllCounted(docs[..|docs| - 1], t);
    }
  }

  /** In a descending list, more than i documents exceed t exactly when the i-th does. */
  lemma {:induction false} CountIndex(docs: seq<Doc>, t: real, i: nat)
    requires Descending(docs)
    ensures Count(docs, t) > i <==> i < |docs| && docs[i].score > t
  {
    if docs != [] {
      var front, n := docs[..|docs| - 1], |docs|;
      CountIndex(front, t, i);
      CountBound(docs, t);
      if docs[n - 1].score > t {
        AllCounted(docs, t);
      }
    }
  }

  /** Counts above all thresholds determine the score sequence of a descending list. */
  lemma CountsDetermineScores(a: seq<Doc>, b: seq<Doc>)
    requires Descending(a) && Descending(b)
    requires forall t :: Count(a, t) == Count(b, t)
    ensures |a| == |b| && forall i :: 0 <= i < |a| ==> a[i].score == b[i].score
  {
    if |a| > |b| {
      CountIndex(a, a[|b|].score - 1.0, |b|);
      CountIndex(b, a[|b|].score - 1.0, |b|);
    } else if |b| > |a| {
      CountIndex(b, b[|a|].score - 1.0, |a|);
      CountIndex(a, b[|a|].score - 1.0, |a|);
    }
    forall i | 0 <= i < |a| && i < |b| ensures a[i].score == b[i].score {
      CountIndex(a, a[i].score, i);
      CountIndex(b, a[i].score, i);
      CountIndex(a, b[i].score, i);
      CountIndex(b, b[i].score, i);
    }
  }

  // ----- sorting -----

  /** Insert before the first document of smaller score: equal scores keep their order. */
  function Insert(d: Doc, docs: seq<Doc>): seq<Doc> {
    if docs == [] || docs[|docs| - 1].score >= d.score then docs + [d]
    else Insert(d, docs[..|docs| - 1]) + [docs[|docs| - 1]]
  }

  /** `sorted(..., key = -score)`: stable, best first. */
  function Sorted(docs: seq<Doc>): seq<Doc> {
    if docs == [] then [] else Insert(docs[|docs| - 1], Sorted(docs[..|docs| - 1]))
  }

  lemma {:induction false} InsertMembers(d: Doc, docs: seq<Doc>)
    ensures |Insert(d, docs)| == |docs| + 1
    ensures forall x :: x in Insert(d, docs) <==> x == d || x in docs
  {
    if docs != [] && docs[|docs| - 1].score < d.score {
      InsertMembers(d, docs[..|docs| - 1]);
      assert docs == docs[..|docs| - 1] + [docs[|docs| - 1]];
    }
  }

  lemma {:induction false} InsertDescending(d: Doc, docs: seq<Doc>)
    requires Descending(docs)
    ensures Descending(Insert(d, docs))
  {
    if docs != [] && docs[|docs| - 1].score < d.score {
      var front, last := docs[..|docs| - 1], docs[|docs| - 1];
      InsertDescending(d, front);
      InsertMembers(d, front);
      forall i | 0 <= i < |Insert(d, front)| ensures Insert(d, front)[i].score >= last.score {
        assert Insert(d, front)[i] in Insert(d, front);
      }
    }
  }

  lemma {:induction false} InsertCount(d: Doc, docs: seq<Doc>, t: real)
    ensures Count(Insert(d, docs), t) == Count(docs, t) + (if d.score > t then 1 else 0)
  {
    if docs == [] || docs[|docs| - 1].score >= d.score {
      assert (docs + [d])[..|docs|] == docs;
    } else {
      var r := Insert(d, docs[..|docs| - 1]);
      InsertCount(d, docs[..|docs| - 1], t);
      assert (r + [docs[|docs| - 1]])[..|r|] == r;
    }
  }

  lemma {:induction false} InsertDistinct(d: Doc, docs: seq<Doc>)
    requires DistinctIds(docs) && forall x :: x in docs ==> x.id != d.id
    ensures DistinctIds(Insert(d, docs))
  {
    if docs != [] && docs[|docs| - 1].score < d.score {
      var front, last := docs[..|docs| - 1], docs[|docs| - 1];
      InsertDistinct(d, front);
      InsertMembers(d, front);
      forall i | 0 <= i < |Insert(d, front)| ensures Insert(d, front)[i].id != last.id {
        assert Insert(d, front)[i] in Insert(d, front);
      }
    }
  }

  lemma {:induction false} SortedMembers(docs: seq<Doc>)
    ensures |Sorted(docs)| == |docs|
    ensures forall x :: x in Sorted(docs) <==> x in docs
  {
    if docs != [] {
      var front, last := docs[..|docs| - 1], docs[|docs| - 1];
      SortedMembers(front);
      InsertMembers(last, Sorted(front));
      assert docs == front + [last];
    }
  }

  lemma {:induction false} SortedDescending(docs: seq<Doc>)
    ensures Descending(Sorted(docs))
  {
    if docs != [] {
      SortedDescending(docs[..|docs| - 1]);
      InsertDescending(docs[|docs| - 1], Sorted(docs[..|docs| - 1]));
    }
  }

  lemma {:induction false} SortedDistinct(docs: seq<Doc>)
    requires DistinctIds(docs)
    ensures DistinctIds(Sorted(docs))
  {
    if docs != [] {
      var front, last := docs[..|docs| - 1], docs[|docs| - 1];
      SortedDistinct(front);
      SortedMembers(front);
      InsertDistinct(last, Sorted(front));
    }
  }

  lemma {:induction false} SortedCount(docs: seq<Doc>, t: real)
    ensures Count(Sorted(docs), t) == Count(docs, t)
  {
    if docs != [] {
      SortedCount(docs[..|docs| - 1], t);
      InsertCount(docs[|docs| - 1], Sorted(docs[..|docs| - 1]), t);
    }
  }

  // ----- ties -----

  /** The position at which an id is first listed. */
  function FirstAt(docs: seq<Doc>, id: string): nat {
    if docs == [] || docs[0].id == id then 0 else 1 + FirstAt(docs[1..], id)
  }

  lemma {:induction false} FirstAtIsFirst(docs: seq<Doc>, id: string, n: nat)
    ensures FirstAt(docs, id) <= |docs|
    ensures FirstAt(docs, id) < |docs| ==> docs[FirstAt(docs, id)].id == id
    ensures n < |docs| && docs[n].id == id ==> FirstAt(docs, id) <= n
  {
    if docs != [] && docs[0].id != id {
      FirstAtIsFirst(docs[1..], id, if n > 0 then n - 1 else 0);
    }
  }

  /** Higher score first; among equal scores the id that was listed first. */
  predicate Ahead(all: seq<Doc>, d: Doc, e: Doc) {
    d.score > e.score || (d.score == e.score && FirstAt(all, d.id) < FirstAt(all, e.id))
  }

  ghost predicate Ranked(all: seq<Doc>, docs: seq<Doc>) {
    forall i, j :: 0 <= i < j < |docs| ==> Ahead(all, docs[i], docs[j])
  }

  /** In the order in which all lists them. */
  ghost predicate Listed(all: seq<Doc>, docs: seq<Doc>) {
    forall i, j :: 0 <= i < j < |docs| ==> FirstAt(all, docs[i].id) < FirstAt(all, docs[j].id)
  }

  lemma {:induction false} InsertRanked(all: seq<Doc>, d: Doc, docs: seq<Doc>)
    requires Ranked(all, docs) && forall x :: x in docs ==> FirstAt(all, x.id) < FirstAt(all, d.id)
    ensures Ranked(all, Insert(d, docs))
  {
    if docs == [] {
      return;
    }
    var front, last := docs[..|docs| - 1], docs[|docs| - 1];
    assert last in docs;
    if last.score < d.score {
      InsertRanked(all, d, front);
      InsertMembers(d, front);
      forall i | 0 <= i < |Insert(d, front)| ensures Ahead(all, Insert(d, front)[i], last) {
        assert Insert(d, front)[i] in Insert(d, front);
      }
    } else {
      forall i | 0 <= i < |docs| ensures Ahead(all, docs[i], d) {
        assert docs[i] in docs;
        assert i < |front| ==> Ahead(all, docs[i], last);
      }
    }
  }

  /** The sort is stable: equal scores keep the order in which they were listed. */
  lemma {:induction false} SortedRanked(all: seq<Doc>, docs: seq<Doc>)
    requires Listed(all, docs)
    ensures Ranked(all, Sorted(docs))
  {
    if docs != [] {
      var front, last := docs[..|docs| - 1], docs[|docs| - 1];
      SortedRanked(all, front);
      SortedMembers(front);
      forall x | x in Sorted(front) ensures FirstAt(all, x.id) < FirstAt(all, last.id) {
        var i :| 0 <= i < |front| && front[i] == x;
        assert docs[i] == x;
      }
      InsertRanked(all, last, Sorted(front));
    }
  }

  // ----- one merge -----

  /** The values of an insertion-ordered dictionary. */
  function Values(order: seq<string>, merged: map<string, Doc>): (docs: seq<Doc>)
    requires forall i :: 0 <= i < |order| ==> order[i] in merged
    ensures |docs| == |order|
  {
    seq(|order|, i requires 0 <= i < |order| => merged[order[i]])
  }

  ghost predicate WellKeyed(order: seq<string>, merged: map<string, Doc>) {
    && (forall i, j :: 0 <= i < j < |order| ==> order[i] != order[j])
    && (forall id :: id in merged <==> id in order)
    && (forall id :: id in merged ==> merged[id].id == id)
  }

  /** The merged scores are the best of each id. */
  ghost predicate Matches(merged: map<string, Doc>, best: Best) {
    merged.Keys == best.Keys && forall id :: id in merged ==> merged[id].score == best[id]
  }

  /** An insertion-ordered dictionary. */
  datatype Dict = Dict(order: seq<string>, merged: map<string, Doc>)

  /** A new id goes to the end; a known one keeps its place and the better document. */
  function Enter(c: Dict, d: Doc): Dict {
    if d.id !in c.merged then Dict(c.order + [d.id], c.merged[d.id := d])
    else if d.score > c.merged[d.id].score then Dict(c.order, c.merged[d.id := d])
    else c
  }

  function Collected(docs: seq<Doc>): Dict {
    if docs == [] then Dict([], map[]) else Enter(Collected(docs[..|docs| - 1]), docs[|docs| - 1])
  }

  /** The state of the merge after the first n documents. */
  ghost predicate MergedUpTo(all: seq<Doc>, c: Dict, n: nat) {
    && WellKeyed(c.order, c.merged) && InOrder(all, c.order, n)
    && Matches(c.merged, BestOf(map[], all[..n]))
    && forall id :: id in c.merged ==> c.merged[id] in all
  }

  lemma {:induction false} CollectedUpTo(all: seq<Doc>, n: nat)
    requires n <= |all|
    ensures MergedUpTo(all, Collected(all[..n]), n)
  {
    if n > 0 {
      CollectedUpTo(all, n - 1);
      assert all[..n][..n - 1] == all[..n - 1];
      MergedNext(all, Collected(all[..n - 1]), n - 1);
    }
  }

  lemma MergedNext(all: seq<Doc>, c: Dict, n: nat)
    requires MergedUpTo(all, c, n) && n < |all|
    ensures MergedUpTo(all, Enter(c, all[n]), n + 1)
  {
    BestOfNext(all, n);
    EnterMatches(c, BestOf(map[], all[..n]), all[n]);
    InOrderNext(all, c, n);
  }

  lemma EnterMatches(c: Dict, best: Best, d: Doc)
    requires WellKeyed(c.order, c.merged) && Matches(c.merged, best)
    ensures var c' := Enter(c, d); WellKeyed(c'.order, c'.merged) && Matches(c'.merged, Record(best, d))
  {}

  lemma BestOfNext(all: seq<Doc>, i: nat)
    requires i < |all|
    ensures BestOf(map[], all[..i + 1]) == Record(BestOf(map[], all[..i]), all[i])
  {
    assert all[..i + 1][..i] == all[..i];
  }

  /** The loop of `_merge`: later documents replace earlier ones of the same id only when they score higher. */
  method Collect(all: seq<Doc>) returns (order: seq<string>, merged: map<string, Doc>)
    ensures Dict(order, merged) == Collected(all)
  {
    order, merged := [], map[];
    for i := 0 to |all|
      invariant Dict(order, merged) == Collected(all[..i])
    {
      var d := all[i];
      assert all[..i + 1][..i] == all[..i];
      if d.id !in merged {
        order := order + [d.id];
        merged := merged[d.id := d];
      } else if d.score > merged[d.id].score {
        merged := merged[d.id := d];
      }
    }
    assert all[..|all|] == all;
  }

  /** `_merge`: the k best ids with their best scores; equal scores keep the order in which they were listed. */
  method Merge(a: seq<Doc>, b: seq<Doc>, k: nat) returns (r: seq<Doc>)
    ensures Descending(r) && DistinctIds(r) && |r| <= k
    ensures forall i :: 0 <= i < |r| ==> r[i].id in AsMap(a + b) && r[i].score == AsMap(a + b)[r[i].id]
    ensures forall i :: 0 <= i < |r| ==> r[i] in a + b
    ensures forall t :: Count(r, t) == Min(k, |Above(AsMap(a + b), t)|)
    ensures Ranked(a + b, r) && LeavesBehind(a + b, r, k)
  {
    var order, merged := Collect(a + b);
    MergedAll(a + b, order, merged, k);
    r := Cut(Sorted(Values(order, merged)), k);
  }

  lemma MergedAll(all: seq<Doc>, order: seq<string>, merged: map<string, Doc>, k: nat)
    requires Dict(order, merged) == Collected(all)
    ensures forall i :: 0 <= i < |order| ==> order[i] in merged
    ensures var r := Cut(Sorted(Values(order, merged)), k);
            && Descending(r) && DistinctIds(r) && |r| <= k
            && (forall i :: 0 <= i < |r| ==> r[i].id in AsMap(all) && r[i].score == AsMap(all)[r[i].id])
            && (forall i :: 0 <= i < |r| ==> r[i] in all)
            && (forall t :: Count(r, t) == Min(k, |Above(AsMap(all), t)|))
            && Ranked(all, r) && LeavesBehind(all, r, k)
  {
    assert all[..|all|] == all;
    CollectedUpTo(all, |all|);
    CutOfSorted(order, merged, AsMap(all), k);
    CutIsRanked(all, order, merged, k);
  }

  /** An id that all lists and r does not was cut: r is full and all of it is ahead. */
  ghost predicate LeavesBehind(all: seq<Doc>, r: seq<Doc>, k: nat) {
    forall id :: id in AsMap(all) && (forall i :: 0 <= i < |r| ==> r[i].id != id) ==>
      |r| == k && forall i :: 0 <= i < |r| ==> Ahead(all, r[i], Doc(id, AsMap(all)[id]))
  }

  /** order holds the ids of the first n documents in the order in which they are listed. */
  ghost predicate InOrder(all: seq<Doc>, order: seq<string>, n: nat) {
    && n <= |all|
    && (forall i :: 0 <= i < |order| ==> FirstAt(all, order[i]) < n)
    && (forall i, j :: 0 <= i < j < |order| ==> FirstAt(all, order[i]) < FirstAt(all, order[j]))
    && (forall i :: 0 <= i < n ==> all[i].id in order)
  }

  lemma InOrderNext(all: seq<Doc>, c: Dict, n: nat)
    requires WellKeyed(c.order, c.merged) && InOrder(all, c.order, n) && n < |all|
    ensures InOrder(all, Enter(c, all[n]).order, n + 1)
  {
    if all[n].id !in c.order {
      FirstAtIsFirst(all, all[n].id, n);
    }
  }

  lemma CutIsRanked(all: seq<Doc>, order: seq<string>, merged: map<string, Doc>, k: nat)
    requires WellKeyed(order, merged) && Matches(merged, AsMap(all)) && InOrder(all, order, |all|)
    ensures var r := Cut(Sorted(Values(order, merged)), k); Ranked(all, r) && LeavesBehind(all, r, k)
  {
    var docs := Values(order, merged);
    ValuesDistinct(order, merged);
    SortedRanked(all, docs);
    SortedMembers(docs);
    var best := AsMap(all);
    forall id | id in best ensures Doc(id, best[id]) in Sorted(docs) {
      var m :| 0 <= m < |order| && order[m] == id;
      assert docs[m] == Doc(id, best[id]);
    }
    CutLeavesBehind(all, Sorted(docs), k);
  }

  lemma CutLeavesBehind(all: seq<Doc>, docs: seq<Doc>, k: nat)
    requires Ranked(all, docs) && forall id :: id in AsMap(all) ==> Doc(id, AsMap(all)[id]) in docs
    ensures Ranked(all, Cut(docs, k)) && LeavesBehind(all, Cut(docs, k), k)
  {
    var best, r := AsMap(all), Cut(docs, k);
    forall id | id in best && (forall i :: 0 <= i < |r| ==> r[i].id != id)
      ensures |r| == k && forall i :: 0 <= i < |r| ==> Ahead(all, r[i], Doc(id, best[id]))
    {
      var n :| 0 <= n < |docs| && docs[n] == Doc(id, best[id]);
      assert forall m :: 0 <= m < |r| ==> r[m] == docs[m];
    }
  }

  lemma CutOfSorted(order: seq<string>, merged: map<string, Doc>, best: Best, k: nat)
    requires WellKeyed(order, merged) && Matches(merged, best)
    ensures var r := Cut(Sorted(Values(order, merged)), k);
            && Descending(r) && DistinctIds(r) && |r| <= k
            && (forall i :: 0 <= i < |r| ==> r[i].id in best && r[i].score == best[r[i].id] && r[i].id in merged && r[i] == merged[r[i].id])
            && (forall t :: Count(r, t) == Min(k, |Above(best, t)|))
  {
    var docs := Values(order, merged);
    var r := Cut(Sorted(docs), k);
    ValuesAsMap(order, merged, best);
    CutIsOrdered(docs, k);
    forall i | 0 <= i < |r| ensures r[i].id in merged && r[i] == merged[r[i].id] {
      assert r[i] in docs;
    }
    forall t ensures Count(r, t) == Min(k, |Above(best, t)|) {
      CutCount(docs, best, k, t);
    }
  }

  lemma CutIsOrdered(docs: seq<Doc>, k: nat)
    requires DistinctIds(docs)
    ensures var r := Cut(Sorted(docs), k);
            Descending(r) && DistinctIds(r) && |r| <= k && forall i :: 0 <= i < |r| ==> r[i] in docs
  {
    SortedMembers(docs);
    SortedDescending(docs);
    SortedDistinct(docs);
    var r := Cut(Sorted(docs), k);
    forall i | 0 <= i < |r| ensures r[i] in docs {
      assert Sorted(docs)[i] in Sorted(docs);
    }
  }

  lemma CutCount(docs: seq<Doc>, best: Best, k: nat, t: real)
    requires DistinctIds(docs) && AsMap(docs) == best
    ensures Count(Cut(Sorted(docs), k), t) == Min(k, |Above(best, t)|)
  {
    SortedDescending(docs);
    CountOfCut(Sorted(docs), k, t);
    SortedCount(docs, t);
    CountIsAbove(docs, t);
  }

  lemma ValuesDistinct(order: seq<string>, merged: map<string, Doc>)
    requires WellKeyed(order, merged)
    ensures DistinctIds(Values(order, merged))
    ensures forall i :: 0 <= i < |order| ==> Values(order, merged)[i].id == order[i]
  {
    forall i | 0 <= i < |order| ensures Values(order, merged)[i].id == order[i] {
      assert order[i] in merged;
    }
  }

  lemma ValuesAsMap(order: seq<string>, merged: map<string, Doc>, best: Best)
    requires WellKeyed(order, merged) && Matches(merged, best)
    ensures DistinctIds(Values(order, merged)) && AsMap(Values(order, merged)) == best
  {
    var docs := Values(order, merged);
    ValuesDistinct(order, merged);
    MapOfDistinct(docs);
    forall id | id in best ensures id in AsMap(docs) && AsMap(docs)[id] == best[id] {
      var i :| 0 <= i < |order| && order[i] == id;
      assert docs[i].id == id;
    }
  }

  // ----- rounds -----

  /** docs are a best-`cap` selection of everything recorded in best: distinct, best first, each with the
      best score of its id, and with as many documents above every threshold as there are ids, up to cap. */
  ghost predicate TopSelection(docs: seq<Doc>, best: Best, cap: nat) {
    && Descending(docs) && DistinctIds(docs)
    && (forall i :: 0 <= i < |docs| ==> docs[i].id in best && docs[i].score == best[docs[i].id])
    && (forall t :: Count(docs, t) == Min(cap, |Above(best, t)|))
  }

  /** A list that understates no count cannot understate a score. */
  lemma ExactScore(docs: seq<Doc>, best: Best, cap: nat, i: nat)
    requires Descending(docs) && DistinctIds(docs)
    requires forall i :: 0 <= i < |docs| ==> docs[i].id in best && docs[i].score <= best[docs[i].id]
    requires forall t :: Count(docs, t) == Min(cap, |Above(best, t)|)
    requires i < |docs|
    ensures docs[i].score == best[docs[i].id]
  {
    var s, id := docs[i].score, docs[i].id;
    MapOfDistinct(docs);
    var kept, all := Above(AsMap(docs), s), Above(best, s);
    CountIsAbove(docs, s);
    assert id !in kept && kept <= all;
    CountIndex(docs, s, i);
    CountIndex(docs, s - 1.0, i);
    assert Count(docs, s) <= i < Count(docs, s - 1.0) <= cap;
    assert |kept| == |all|;
    SubsetSize(kept, all);
  }

  ghost predicate Dominates(high: Best, low: Best) {
    forall id :: id in low ==> id in high && low[id] <= high[id]
  }

  lemma {:induction false} BestOfDominates(high: Best, low: Best, docs: seq<Doc>)
    requires Dominates(high, low)
    ensures Dominates(BestOf(high, docs), BestOf(low, docs))
  {
    if docs != [] {
      BestOfDominates(high, low, docs[..|docs| - 1]);
    }
  }

  lemma DominatedAbove(high: Best, low: Best, t: real)
    requires Dominates(high, low)
    ensures Above(low, t) <= Above(high, t) && |Above(low, t)| <= |Above(high, t)|
  {
    SubsetSize(Above(low, t), Above(high, t));
  }

  lemma SubsetSize(a: set<string>, b: set<string>)
    requires a <= b
    ensures |a| <= |b|
    ensures |a| == |b| ==> a == b
  {
    assert b == a + (b - a);
    if |a| == |b| {
      assert |b - a| == 0;
    }
  }

  lemma SelectionDominated(docs: seq<Doc>, best: Best, cap: nat)
    requires TopSelection(docs, best, cap)
    ensures Dominates(best, AsMap(docs))
  {
    MapOfDistinct(docs);
  }

  /** Counting above a threshold cannot tell a best-cap selection from everything retrieved, once the
      result is cut to k <= cap. */
  lemma CutCountAgrees(docs: seq<Doc>, best: Best, cap: nat, found: seq<Doc>, k: nat, t: real)
    requires TopSelection(docs, best, cap) && k <= cap
    ensures Min(k, |Above(AsMap(docs + found), t)|) == Min(k, |Above(BestOf(best, found), t)|)
  {
    var kept, all, extra := Above(AsMap(docs), t), Above(best, t), Above(AsMap(found), t);
    BestOfConcat(map[], docs, found);
    AboveOfBest(AsMap(docs), found, t);
    AboveOfBest(best, found, t);
    SelectionDominated(docs, best, cap);
    DominatedAbove(best, AsMap(docs), t);
    CountIsAbove(docs, t);
    assert |kept| == Min(cap, |all|);
    if |all| <= cap {
      SubsetSize(kept, all);
    } else {
      SubsetSize(kept, kept + extra);
      SubsetSize(all, all + extra);
    }
  }

  /** One more round: merging new results into a best-cap selection and cutting to k <= cap gives a
      best-k selection of everything retrieved, including what earlier cuts dropped. */
  lemma MergedSelection(docs: seq<Doc>, best: Best, cap: nat, found: seq<Doc>, k: nat, r: seq<Doc>)
    requires TopSelection(docs, best, cap) && k <= cap
    requires Descending(r) && DistinctIds(r)
    requires forall i :: 0 <= i < |r| ==> r[i].id in AsMap(docs + found) && r[i].score == AsMap(docs + found)[r[i].id]
    requires forall t :: Count(r, t) == Min(k, |Above(AsMap(docs + found), t)|)
    ensures TopSelection(r, BestOf(best, found), k)
  {
    SelectionDominated(docs, best, cap);
    BestOfConcat(map[], docs, found);
    BestOfDominates(best, AsMap(docs), found);
    forall t ensures Count(r, t) == Min(k, |Above(BestOf(best, found), t)|) {
      CutCountAgrees(docs, best, cap, found, k, t);
    }
    forall i | 0 <= i < |r| ensures r[i].score == BestOf(best, found)[r[i].id] {
      ExactScore(r, BestOf(best, found), k, i);
    }
  }

  /** What one call of the retriever returns: at most k distinct documents, best first. */
  predicate Retrieval(docs: seq<Doc>, k: nat) {
    |docs| <= k && DistinctIds(docs) && Descending(docs)
  }

  lemma FirstSelection(docs: seq<Doc>, k: nat)
    requires Retrieval(docs, k)
    ensures forall cap: nat :: k <= cap ==> TopSelection(docs, AsMap(docs), cap)
  {
    MapOfDistinct(docs);
    forall t ensures Count(docs, t) == |Above(AsMap(docs), t)| <= k {
      CountIsAbove(docs, t);
      CountBound(docs, t);
    }
  }

  /** Everything retrieved in the first n rounds. */
  function Retrieved(search: nat -> seq<Doc>, n: nat): seq<Doc> {
    if n == 0 then [] else Retrieved(search, n - 1) + search(n - 1)
  }

  lemma RetrievedStep(search: nat -> seq<Doc>, n: nat)
    ensures AsMap(Retrieved(search, n + 1)) == BestOf(AsMap(Retrieved(search, n)), search(n))
  {
    BestOfConcat(map[], Retrieved(search, n), search(n));
  }

  /** One more retrieval round. */
  method NextRound(docs: seq<Doc>, search: nat -> seq<Doc>, rounds: nat, ghost cap: nat, k: nat) returns (merged: seq<Doc>)
    requires TopSelection(docs, AsMap(Retrieved(search, rounds)), cap) && k <= cap
    ensures TopSelection(merged, AsMap(Retrieved(search, rounds + 1)), k)
  {
    merged := Merge(docs, search(rounds), k);
    MergedSelection(docs, AsMap(Retrieved(search, rounds)), cap, search(rounds), k, merged);
    RetrievedStep(search, rounds);
  }

  /** The first retrieval, and the second hop of a multi-hop question. */
  method FirstRounds(k: nat, search: nat -> seq<Doc>, hop: bool) returns (docs: seq<Doc>, rounds: nat)
    requires forall i :: Retrieval(search(i), k)
    ensures rounds == if hop then 2 else 1
    ensures TopSelection(docs, AsMap(Retrieved(search, rounds)), if hop then 2 * k else k)
  {
    docs := search(0);
    rounds := 1;
    assert Retrieved(search, 1) == search(0);
    FirstSelection(docs, k);
    if hop {
      docs := NextRound(docs, search, 1, 2 * k, 2 * k);
      rounds := 2;
    }
  }

  /** The round loop of `answer`: search(i) is what the retriever returns in round i, `hop` whether a
      bridge entity was found, `sufficient` whether confidence is high and no conflict is seen. */
  method Answer(k: nat, maxIters: nat, search: nat -> seq<Doc>, hop: bool, sufficient: seq<Doc> -> bool)
    returns (docs: seq<Doc>, rounds: nat, reflective: nat)
    requires forall i :: Retrieval(search(i), k)
    ensures 1 <= rounds <= 2 + maxIters && reflective <= maxIters
    ensures rounds == (if hop then 2 else 1) + reflective
    ensures DistinctIds(docs)
    ensures TopSelection(docs, AsMap(Retrieved(search, rounds)), if reflective > 0 then k else if hop then 2 * k else k)
    ensures reflective < maxIters ==> sufficient(docs)
  {
    docs, rounds := FirstRounds(k, search, hop);
    reflective := 0;
    ghost var cap := if hop then 2 * k else k;
    for iter := 0 to maxIters
      invariant reflective == iter && rounds == (if hop then 2 else 1) + iter
      invariant cap == if iter > 0 then k else if hop then 2 * k else k
      invariant TopSelection(docs, AsMap(Retrieved(search, rounds)), cap)
    {
      if sufficient(docs) {
        break;
      }
      docs := NextRound(docs, search, rounds, cap, k);
      rounds := rounds + 1;
      reflective := reflective + 1;
      cap := k;
    }
  }

  /** The score sequence of a best-k selection is that of the k best ids, however they are listed. */
  lemma SelectionScores(docs: seq<Doc>, best: Best, k: nat, ranked: seq<Doc>)
    requires TopSelection(docs, best, k)
    requires Descending(ranked) && DistinctIds(ranked) && AsMap(ranked) == best
    ensures |docs| == Min(k, |ranked|)
    ensures forall i :: 0 <= i < |docs| ==> docs[i].score == ranked[i].score
  {
    var cut := Cut(ranked, k);
    forall t ensures Count(docs, t) == Count(cut, t) {
      CountOfCut(ranked, k, t);
      CountIsAbove(ranked, t);
    }
    CountsDetermineScores(docs, cut);
  }

  /** Where fewer than cap ids were retrieved nothing is cut: every id is kept. */
  lemma NothingCut(docs: seq<Doc>, best: Best, cap: nat)
    requires TopSelection(docs, best, cap) && |best| <= cap
    ensures |docs| == |best| && AsMap(docs).Keys == best.Keys
  {
    var t := Beneath(best);
    var u := Beneath(AsMap(docs));
    var low := if t < u then t else u;
    SelectionDominated(docs, best, cap);
    assert Above(best, low) == best.Keys && Above(AsMap(docs), low) == AsMap(docs).Keys;
    CountIsAbove(docs, low);
    SubsetSize(AsMap(docs).Keys, best.Keys);
    MapOfDistinct(docs);
    forall i | 0 <= i < |docs| ensures docs[i].score > low {}
    AllCounted(docs, low);
  }

  /** A value beneath every recorded score. */
  lemma {:induction false} Beneath(m: Best) returns (t: real)
    ensures forall id :: id in m ==> m[id] > t
    decreases |m|
  {
    if m == map[] {
      t := 0.0;
    } else {
      var id :| id in m;
      var rest := m - {id};
      t := Beneath(rest);
      assert forall x :: x in m && x != id ==> x in rest && rest[x] == m[x];
      if m[id] <= t {
        t := m[id] - 1.0;
      }
    }
  }
}
