/**
 * Merging retrieval evidence (retrieval/engine.rs): the best item of every capability, best
 * first, ties in the order in which the capabilities were first seen.
 */
module Merging {
  datatype CapabilityId = CapabilityId(name: string)

  /** `detail` stands for the fields that merging only carries along. */
  datatype Evidence = Evidence(id: CapabilityId, score: real, detail: nat)

  // ---------------------------------------------------------------------- what is promised

  /** The item at `k` is the first to attain the highest score of its capability. */
  ghost predicate BestAt(items: seq<Evidence>, k: int) {
    && 0 <= k < |items|
    && (forall j | 0 <= j < |items| && items[j].id == items[k].id :: items[j].score <= items[k].score)
    && (forall j | 0 <= j < k && items[j].id == items[k].id :: items[j].score < items[k].score)
  }

  ghost predicate IsBest(items: seq<Evidence>, e: Evidence) {
    exists k :: BestAt(items, k) && items[k] == e
  }

  ghost predicate SeenBefore(items: seq<Evidence>, a: CapabilityId, b: CapabilityId) {
    exists k :: 0 <= k < |items| && items[k].id == a && forall j | 0 <= j <= k :: items[j].id != b
  }

  ghost predicate Precedes(items: seq<Evidence>, a: Evidence, b: Evidence) {
    a.score > b.score || (a.score == b.score && SeenBefore(items, a.id, b.id))
  }

  ghost predicate Ranked(items: seq<Evidence>, r: seq<Evidence>) {
    forall i, j | 0 <= i < j < |r| :: Precedes(items, r[i], r[j])
  }

  ghost predicate Listed(r: seq<Evidence>, id: CapabilityId) {
    exists e :: e in r && e.id == id
  }

  ghost predicate OncePerId(r: seq<Evidence>) {
    forall i, j | 0 <= i < j < |r| :: r[i].id != r[j].id
  }

  ghost predicate IsMerge(items: seq<Evidence>, r: seq<Evidence>) {
    && OncePerId(r)
    && (forall e | e in items :: Listed(r, e.id))
    && (forall e | e in r :: IsBest(items, e))
    && Ranked(items, r)
  }

  // -------------------------------------------------------------------------- the algorithm

  /** The ids in the order in which they were first seen. */
  ghost predicate InOrder(seen: seq<Evidence>, order: seq<CapabilityId>) {
    forall j, k | 0 <= j < k < |order| :: SeenBefore(seen, order[j], order[k])
  }

  ghost predicate BestSoFar(seen: seq<Evidence>, best: map<CapabilityId, Evidence>) {
    && (forall id | id in best :: best[id].id == id && IsBest(seen, best[id]))
    && (forall j | 0 <= j < |seen| :: seen[j].id in best)
  }

  /** What the first loop knows after the items in `seen`. */
  ghost predicate Collected(seen: seq<Evidence>, order: seq<CapabilityId>, best: map<CapabilityId, Evidence>) {
    InOrder(seen, order) && BestSoFar(seen, best) && forall id :: id in order <==> id in best
  }

  lemma SeenStays(items: seq<Evidence>, x: Evidence, a: CapabilityId, b: CapabilityId)
    requires SeenBefore(items, a, b)
    ensures SeenBefore(items + [x], a, b)
  {
    var k :| 0 <= k < |items| && items[k].id == a && forall j | 0 <= j <= k :: items[j].id != b;
    assert (items + [x])[k].id == a;
  }

  lemma SeenBeforeNew(items: seq<Evidence>, x: Evidence, e: Evidence)
    requires e in items && forall j | 0 <= j < |items| :: items[j].id != x.id
    ensures SeenBefore(items + [x], e.id, x.id)
  {
    var k :| 0 <= k < |items| && items[k] == e;
    assert (items + [x])[k].id == e.id;
  }

  lemma BestStays(items: seq<Evidence>, x: Evidence, e: Evidence)
    requires IsBest(items, e) && (e.id == x.id ==> x.score <= e.score)
    ensures IsBest(items + [x], e)
  {
    var k :| BestAt(items, k) && items[k] == e;
    assert BestAt(items + [x], k);
  }

  lemma BestIsNew(items: seq<Evidence>, x: Evidence)
    requires forall j | 0 <= j < |items| && items[j].id == x.id :: items[j].score < x.score
    ensures IsBest(items + [x], x)
  {
    assert BestAt(items + [x], |items|);
  }

  lemma OrderStep(seen: seq<Evidence>, x: Evidence, order: seq<CapabilityId>, best: map<CapabilityId, Evidence>)
    requires Collected(seen, order, best)
    ensures InOrder(seen + [x], if x.id in best then order else order + [x.id])
  {
    var more := if x.id in best then order else order + [x.id];
    forall j, k | 0 <= j < k < |more| ensures SeenBefore(seen + [x], more[j], more[k]) {
      if k < |order| {
        SeenStays(seen, x, order[j], order[k]);
      } else {
        assert order[j] in best;
        var m :| BestAt(seen, m) && seen[m] == best[order[j]];
        SeenBeforeNew(seen, x, seen[m]);
      }
    }
  }

  lemma BestStep(seen: seq<Evidence>, x: Evidence, best: map<CapabilityId, Evidence>)
    requires BestSoFar(seen, best)
    ensures BestSoFar(seen + [x], if x.id in best && x.score <= best[x.id].score then best else best[x.id := x])
  {
    var more := if x.id in best && x.score <= best[x.id].score then best else best[x.id := x];
    forall id | id in more ensures more[id].id == id && IsBest(seen + [x], more[id]) {
      if more[id] == x { NewBest(seen, x, best); } else { BestStays(seen, x, best[id]); }
    }
  }

  lemma NewBest(seen: seq<Evidence>, x: Evidence, best: map<CapabilityId, Evidence>)
    requires forall j | 0 <= j < |seen| :: seen[j].id in best
    requires x.id in best ==> best[x.id].id == x.id && IsBest(seen, best[x.id])
    requires x.id in best && x.score <= best[x.id].score ==> best[x.id] == x
    ensures IsBest(seen + [x], x)
  {
    if x.id in best && x.score <= best[x.id].score {
      BestStays(seen, x, x);
    } else {
      BestIsNew(seen, x);
    }
  }

  /** The first loop: ids in order of appearance, and the best item of each. */
  method CollectBest(items: seq<Evidence>) returns (order: seq<CapabilityId>, best: map<CapabilityId, Evidence>)
    ensures Collected(items, order, best)
  {
    order, best := [], map[];
    for i := 0 to |items|
      invariant Collected(items[..i], order, best)
    {
      var item := items[i];
      OrderStep(items[..i], item, order, best);
      BestStep(items[..i], item, best);
      assert items[..i + 1] == items[..i] + [item];
      if item.id !in best {
        order := order + [item.id];
        best := best[item.id := item];
      } else if item.score > best[item.id].score {
        best := best[item.id := item];
      }
    }
    assert items[..|items|] == items;
  }

  ghost predicate PickedInOrder(items: seq<Evidence>, picked: seq<Evidence>) {
    forall j, k | 0 <= j < k < |picked| :: SeenBefore(items, picked[j].id, picked[k].id)
  }

  /** The second loop: the best items, in order of appearance. */
  method PickBest(ghost items: seq<Evidence>, order: seq<CapabilityId>, best: map<CapabilityId, Evidence>)
    returns (picked: seq<Evidence>)
    requires Collected(items, order, best)
    ensures PickedInOrder(items, picked)
    ensures forall e :: e in picked ==> e.id in best && best[e.id] == e
    ensures forall id :: id in best ==> best[id] in picked
  {
    picked := [];
    for i := 0 to |order|
      invariant |picked| == i && forall j | 0 <= j < i :: order[j] in best && picked[j] == best[order[j]]
    {
      picked := picked + [best[order[i]]];
    }
    forall j, k | 0 <= j < k < |picked| ensures SeenBefore(items, picked[j].id, picked[k].id) {
      assert SeenBefore(items, order[j], order[k]);
    }
    forall id | id in best ensures best[id] in picked {
      var j :| 0 <= j < |order| && order[j] == id;
      assert picked[j] == best[id];
    }
  }

  lemma RankedBestIsMerge(items: seq<Evidence>, best: map<CapabilityId, Evidence>, r: seq<Evidence>)
    requires BestSoFar(items, best) && Ranked(items, r) && OncePerId(r)
    requires forall e :: e in r ==> e.id in best && best[e.id] == e
    requires forall id :: id in best ==> best[id] in r
    ensures IsMerge(items, r)
  {
    forall e | e in items ensures Listed(r, e.id) {
      var j :| 0 <= j < |items| && items[j] == e;
      assert items[j].id in best && best[e.id] in r;
    }
  }

  method Merge(items: seq<Evidence>) returns (merged: seq<Evidence>)
    ensures IsMerge(items, merged)
  {
    var order, best := CollectBest(items);
    var picked := PickBest(items, order, best);
    merged := SortByScore(items, picked);
    RankedBestIsMerge(items, best, merged);
  }

  /** The stable sort by descending score: each item goes after the last one that is not lower. */
  method SortByScore(ghost items: seq<Evidence>, picked: seq<Evidence>) returns (r: seq<Evidence>)
    requires PickedInOrder(items, picked)
    ensures Ranked(items, r) && OncePerId(r)
    ensures forall e :: e in r <==> e in picked
  {
    r := [];
    for i := 0 to |picked|
      invariant Ranked(items, r)
      invariant forall e :: e in r <==> e in picked[..i]
    {
      var x := picked[i];
      forall e | e in r ensures SeenBefore(items, e.id, x.id) {
        var j :| 0 <= j < i && picked[j] == e;
      }
      var p := |r|;
      while p > 0 && r[p - 1].score < x.score
        invariant 0 <= p <= |r|
        invariant forall j | p <= j < |r| :: r[j].score < x.score
      {
        p := p - 1;
      }
      InsertKeepsRank(items, r, x, p);
      assert r == r[..p] + r[p..];
      assert picked[..i + 1] == picked[..i] + [x];
      r := r[..p] + [x] + r[p..];
    }
    assert picked[..|picked|] == picked;
    PickedOnce(items, picked, r);
  }

  lemma InsertKeepsRank(items: seq<Evidence>, r: seq<Evidence>, x: Evidence, p: nat)
    requires p <= |r| && Ranked(items, r)
    requires forall e | e in r :: SeenBefore(items, e.id, x.id)
    requires p > 0 ==> r[p - 1].score >= x.score
    requires forall j | p <= j < |r| :: r[j].score < x.score
    ensures Ranked(items, r[..p] + [x] + r[p..])
  {
  }

  lemma SeenOneWay(items: seq<Evidence>, a: CapabilityId, b: CapabilityId)
    requires SeenBefore(items, a, b)
    ensures !SeenBefore(items, b, a)
  {
  }

  /** The order is strict: of two items at most one precedes the other. */
  lemma NotBoth(items: seq<Evidence>, a: Evidence, b: Evidence)
    requires Precedes(items, a, b)
    ensures !Precedes(items, b, a)
  {
  }

  lemma PickedOnce(items: seq<Evidence>, picked: seq<Evidence>, r: seq<Evidence>)
    requires PickedInOrder(items, picked)
    requires Ranked(items, r) && forall e :: e in r <==> e in picked
    ensures OncePerId(r)
  {
    forall i, j | 0 <= i < j < |r| ensures r[i].id != r[j].id {
      assert r[i] in picked && r[j] in picked;
      var a :| 0 <= a < |picked| && picked[a] == r[i];
      var b :| 0 <= b < |picked| && picked[b] == r[j];
      if a < b {
        SeenOneWay(items, picked[a].id, picked[b].id);
      } else {
        SeenOneWay(items, picked[b].id, picked[a].id);
      }
    }
  }

  // ------------------------------------------------------------------- nothing else would do

  lemma {:induction false} RankedAlike(items: seq<Evidence>, r: seq<Evidence>, s: seq<Evidence>)
    requires Ranked(items, r) && Ranked(items, s) && forall e :: e in r <==> e in s
    ensures r == s
  {
    assert |s| > 0 ==> s[0] in r;
    if r != [] {
      assert r[0] in s;
      SameHead(items, r, s);
      assert r == [r[0]] + r[1..] && s == [s[0]] + s[1..];
      forall e ensures e in r[1..] <==> e in s[1..] {
        if e in r[1..] { assert e in r; }
        if e in s[1..] { assert e in s; }
      }
      RankedAlike(items, r[1..], s[1..]);
    }
  }

  lemma SameHead(items: seq<Evidence>, r: seq<Evidence>, s: seq<Evidence>)
    requires Ranked(items, r) && Ranked(items, s) && r != [] && s != [] && forall e :: e in r <==> e in s
    ensures r[0] == s[0]
  {
    assert r[0] in s && s[0] in r;
    var i :| 0 <= i < |s| && s[i] == r[0];
    var j :| 0 <= j < |r| && r[j] == s[0];
    if i != 0 && j != 0 {
      assert Precedes(items, s[0], s[i]) && Precedes(items, r[0], r[j]);
      NotBoth(items, s[0], s[i]);
    }
  }

  lemma MergedAlike(items: seq<Evidence>, r: seq<Evidence>, s: seq<Evidence>, e: Evidence)
    requires IsMerge(items, r) && IsMerge(items, s) && e in r
    ensures e in s
  {
  }

  /** The promise leaves no freedom: a list of evidence has exactly one merge. */
  lemma MergeIsDetermined(items: seq<Evidence>, r: seq<Evidence>, s: seq<Evidence>)
    requires IsMerge(items, r) && IsMerge(items, s)
    ensures r == s
  {
    forall e ensures e in r <==> e in s {
      if e in r { MergedAlike(items, r, s, e); }
      if e in s { MergedAlike(items, s, r, e); }
    }
    RankedAlike(items, r, s);
  }

  /** Merging is idempotent: a merged list is its own and only merge. */
  lemma MergeIsIdempotent(items: seq<Evidence>, r: seq<Evidence>, s: seq<Evidence>)
    requires IsMerge(items, r)
    ensures IsMerge(r, s) <==> s == r
  {
    forall e | e in r ensures IsBest(r, e) {
      var k :| 0 <= k < |r| && r[k] == e;
      assert BestAt(r, k);
    }
    forall i, j | 0 <= i < j < |r| ensures Precedes(r, r[i], r[j]) {
      assert Precedes(items, r[i], r[j]);
      assert r[i].score == r[j].score ==> SeenBefore(r, r[i].id, r[j].id);
    }
    assert IsMerge(r, r);
    if IsMerge(r, s) { MergeIsDetermined(r, r, s); }
  }
}
