/**
 * The dependency graph wrapped by graph.rs: paths are explicit sequences of node
 * ids, and reachability, cycles and waves are all specified through them.
 */
module Graphs {
  import opened Contract

  datatype Graph = Graph(nodes: seq<NodeId>, arcs: seq<(NodeId, NodeId)>)

  function Vertices(g: Graph): set<NodeId> {
    set n | n in g.nodes
  }

  ghost predicate Distinct<T>(s: seq<T>) {
    forall i, j | 0 <= i < j < |s| :: s[i] != s[j]
  }

  /** No arc leaves the graph. */
  ghost predicate ArcsInside(g: Graph) {
    forall a | a in g.arcs :: a.0 in g.nodes && a.1 in g.nodes
  }

  /** No id is listed twice and no arc leaves the graph. */
  ghost predicate WellFormed(g: Graph) {
    Distinct(g.nodes) && ArcsInside(g)
  }

  ghost predicate IsPath(g: Graph, p: seq<NodeId>) {
    && |p| > 0
    && p[0] in g.nodes
    && (forall i, j | 0 <= i < j < |p| && j == i + 1 :: (p[i], p[j]) in g.arcs)
  }

  ghost predicate PathBetween(g: Graph, a: NodeId, p: seq<NodeId>, b: NodeId) {
    IsPath(g, p) && p[0] == a && p[|p| - 1] == b
  }

  ghost predicate Reaches(g: Graph, a: NodeId, b: NodeId) {
    exists p :: PathBetween(g, a, p, b)
  }

  /** A cycle is a path of at least one arc that ends where it began. */
  ghost predicate IsCycle(g: Graph, p: seq<NodeId>) {
    IsPath(g, p) && |p| > 1 && p[0] == p[|p| - 1]
  }

  ghost predicate Cyclic(g: Graph) {
    exists p :: IsCycle(g, p)
  }

  lemma PathStaysInside(g: Graph, p: seq<NodeId>, i: nat)
    requires ArcsInside(g) && IsPath(g, p) && i < |p|
    ensures p[i] in g.nodes
  {
    if i > 0 {
      assert (p[i - 1], p[i - 1 + 1]) in g.arcs;
    }
  }

  lemma CutPath(g: Graph, p: seq<NodeId>, i: nat, j: nat)
    requires ArcsInside(g) && IsPath(g, p) && i < j <= |p|
    ensures IsPath(g, p[i..j])
  {
    PathStaysInside(g, p, i);
    forall k, l | 0 <= k < l < j - i && l == k + 1
      ensures (p[i..j][k], p[i..j][l]) in g.arcs
    {
      assert (p[i + k], p[i + l]) in g.arcs;
    }
  }

  lemma JoinPaths(g: Graph, p: seq<NodeId>, q: seq<NodeId>)
    requires IsPath(g, p) && IsPath(g, q) && p[|p| - 1] == q[0]
    ensures IsPath(g, p + q[1..])
  {
  }

  lemma DistinctBound(s: seq<NodeId>, all: set<NodeId>)
    requires Distinct(s) && forall x | x in s :: x in all
    ensures |s| <= |all|
  {
    if s != [] {
      var last := s[|s| - 1];
      DistinctBound(s[..|s| - 1], all - {last});
    }
  }

  lemma {:induction false} DistinctSize(s: seq<NodeId>)
    requires Distinct(s)
    ensures |set x | x in s| == |s|
  {
    if s != [] {
      var last := s[|s| - 1];
      var init := s[..|s| - 1];
      DistinctSize(init);
      assert (set x | x in s) == (set x | x in init) + {last};
    }
  }

  /** Without a cycle no path repeats a node, so its length is bounded by the graph. */
  lemma AcyclicPathBound(g: Graph, p: seq<NodeId>)
    requires WellFormed(g) && !Cyclic(g) && IsPath(g, p)
    ensures Distinct(p) && |p| <= |g.nodes|
  {
    forall i, j | 0 <= i < j < |p|
      ensures p[i] != p[j]
    {
      CutPath(g, p, i, j + 1);
      assert !IsCycle(g, p[i..j + 1]);
    }
    PathBound(g, p);
  }

  lemma PathBound(g: Graph, p: seq<NodeId>)
    requires WellFormed(g) && IsPath(g, p) && Distinct(p)
    ensures |p| <= |g.nodes|
  {
    forall x | x in p ensures x in Vertices(g) {
      var i :| 0 <= i < |p| && p[i] == x;
      PathStaysInside(g, p, i);
    }
    DistinctBound(p, Vertices(g));
    DistinctSize(g.nodes);
  }

  /** A strictly increasing rank along every arc rules out cycles. */
  lemma RankedIsAcyclic(g: Graph, rank: NodeId -> int)
    requires forall a | a in g.arcs :: rank(a.0) < rank(a.1)
    ensures !Cyclic(g)
  {
    forall p | IsCycle(g, p) ensures false {
      RankGrows(g, rank, p);
    }
  }

  lemma {:induction false} RankGrows(g: Graph, rank: NodeId -> int, p: seq<NodeId>)
    requires forall a | a in g.arcs :: rank(a.0) < rank(a.1)
    requires IsPath(g, p) && |p| > 1
    ensures rank(p[0]) < rank(p[|p| - 1])
  {
    var q := p[..|p| - 1];
    var n := |p| - 2;
    assert (p[n], p[n + 1]) in g.arcs;
    if |q| > 1 {
      forall i, j | 0 <= i < j < |q| && j == i + 1 ensures (q[i], q[j]) in g.arcs {
        assert (p[i], p[j]) in g.arcs;
      }
      RankGrows(g, rank, q);
    }
  }

  function Mapped(f: NodeId -> NodeId, p: seq<NodeId>): (r: seq<NodeId>)
    ensures |r| == |p| && forall i | 0 <= i < |p| :: r[i] == f(p[i])
  {
    if p == [] then [] else Mapped(f, p[..|p| - 1]) + [f(p[|p| - 1])]
  }

  /** `f` carries nodes to nodes and arcs to arcs. */
  ghost predicate IsHomomorphism(g: Graph, h: Graph, f: NodeId -> NodeId) {
    && (forall n | n in g.nodes :: f(n) in h.nodes)
    && (forall a | a in g.arcs :: (f(a.0), f(a.1)) in h.arcs)
  }

  lemma HomomorphismKeepsCycles(g: Graph, h: Graph, f: NodeId -> NodeId)
    requires IsHomomorphism(g, h, f) && Cyclic(g)
    ensures Cyclic(h)
  {
    var c :| IsCycle(g, c);
    assert IsCycle(h, Mapped(f, c));
  }

  // ---------------------------------------------------------------- entries

  predicate IsEntry(g: Graph, n: NodeId) {
    n in g.nodes && forall a | a in g.arcs :: a.1 != n
  }

  function EntrySet(g: Graph): set<NodeId> {
    set n | n in g.nodes && IsEntry(g, n)
  }

  /** Walking backwards in a finite acyclic graph always ends at an entry node. */
  lemma {:induction false} EntryAbove(g: Graph, p: seq<NodeId>) returns (entry: NodeId)
    requires WellFormed(g) && !Cyclic(g) && IsPath(g, p)
    ensures IsEntry(g, entry) && Reaches(g, entry, p[|p| - 1])
    decreases |g.nodes| - |p|
  {
    if IsEntry(g, p[0]) {
      entry := p[0];
      assert PathBetween(g, entry, p, p[|p| - 1]);
    } else {
      var a :| a in g.arcs && a.1 == p[0];
      assert IsPath(g, [a.0, a.1]);
      JoinPaths(g, [a.0, a.1], p);
      assert [a.0, a.1] + p[1..] == [a.0] + p;
      AcyclicPathBound(g, [a.0] + p);
      entry := EntryAbove(g, [a.0] + p);
    }
  }

  /**
   * The verifier's reachability test adds nothing to its cycle and single-entry
   * tests: from the only entry of an acyclic graph every node is reachable.
   */
  lemma SingleEntryReachesAll(g: Graph, entry: NodeId)
    requires WellFormed(g) && !Cyclic(g)
    requires EntrySet(g) == {entry}
    ensures forall n | n in g.nodes :: Reaches(g, entry, n)
  {
    forall n | n in g.nodes ensures Reaches(g, entry, n) {
      var e := EntryAbove(g, [n]);
      assert e in EntrySet(g);
    }
  }

  // ----------------------------------------------------------- reachable_from

  lemma ClosedContainsPath(g: Graph, seen: set<NodeId>, p: seq<NodeId>)
    requires IsPath(g, p) && p[0] in seen
    requires forall a | a in g.arcs :: a.0 in seen ==> a.1 in seen
    ensures p[|p| - 1] in seen
  {
    var i := 0;
    while i < |p| - 1
      invariant 0 <= i < |p| && p[i] in seen
    {
      assert (p[i], p[i + 1]) in g.arcs;
      i := i + 1;
    }
  }

  /** Targets of the arcs leaving `n`, in arc order. */
  function Successors(arcs: seq<(NodeId, NodeId)>, n: NodeId): (r: seq<NodeId>)
    ensures forall m :: m in r <==> (n, m) in arcs
  {
    if arcs == [] then []
    else
      var rest := Successors(arcs[1..], n);
      assert forall m :: (n, m) in arcs <==> (n, m) == arcs[0] || (n, m) in arcs[1..];
      if arcs[0].0 == n then [arcs[0].1] + rest else rest
  }

  /** Breadth-first search with a queue and a seen set. */
  method ReachableFrom(g: Graph, entry: NodeId) returns (seen: set<NodeId>)
    requires ArcsInside(g)
    ensures entry !in g.nodes ==> seen == {}
    ensures entry in g.nodes ==> forall n :: n in seen <==> Reaches(g, entry, n)
  {
    if entry !in g.nodes {
      return {};
    }
    seen := {entry};
    var queue := [entry];
    assert PathBetween(g, entry, [entry], entry);
    while queue != []
      invariant entry in seen && seen <= Vertices(g)
      invariant forall q | q in queue :: q in seen
      invariant forall n | n in seen :: Reaches(g, entry, n)
      invariant forall a | a in g.arcs && a.0 in seen && a.0 !in queue :: a.1 in seen
      decreases Vertices(g) - seen, |queue|
    {
      var node, rest := queue[0], queue[1..];
      assert forall q | q in queue :: q == node || q in rest;
      var seen0 := seen;
      var nexts := Successors(g.arcs, node);
      queue := rest;
      for i := 0 to |nexts|
        invariant seen0 <= seen <= Vertices(g)
        invariant forall n | n in seen :: Reaches(g, entry, n)
        invariant forall q | q in queue :: q in seen
        invariant forall q | q in rest :: q in queue
        invariant forall n | n in seen && n !in seen0 :: n in queue
        invariant forall k | 0 <= k < i :: nexts[k] in seen
        invariant seen == seen0 ==> queue == rest
      {
        var next := nexts[i];
        if next !in seen {
          assert (node, next) in g.arcs;
          ghost var p :| PathBetween(g, entry, p, node);
          assert PathBetween(g, entry, p + [next], next);
          seen := seen + {next};
          queue := queue + [next];
        }
      }
      forall a | a in g.arcs && a.0 in seen && a.0 !in queue ensures a.1 in seen {
        if a.0 == node {
          assert (node, a.1) in g.arcs;
          assert a.1 in nexts;
        } else {
          assert a.0 in seen0;
          assert a.0 !in [node] + rest;
        }
      }
    }
    forall n | Reaches(g, entry, n) ensures n in seen {
      var p :| PathBetween(g, entry, p, n);
      ClosedContainsPath(g, seen, p);
    }
  }

  // ----------------------------------------------------------------- longest paths

  /** Every path into `n` has at most `k` nodes. */
  ghost predicate DepthAtMost(g: Graph, n: NodeId, k: int) {
    forall p | IsPath(g, p) && p[|p| - 1] == n :: |p| <= k
  }

  /** A path through a cycle can be made as long as one likes. */
  lemma {:induction false} PumpCycle(g: Graph, c: seq<NodeId>, k: nat) returns (p: seq<NodeId>)
    requires IsCycle(g, c)
    ensures IsPath(g, p) && p[|p| - 1] == c[0] && |p| > k
  {
    if k == 0 {
      p := c;
    } else {
      var q := PumpCycle(g, c, k - 1);
      JoinPaths(g, q, c);
      p := q + c[1..];
    }
  }

  lemma DetourThroughCycle(g: Graph, p: seq<NodeId>, i: nat, j: nat) returns (r: seq<NodeId>)
    requires ArcsInside(g) && IsPath(g, p) && i < j < |p| && p[i] == p[j]
    ensures IsPath(g, r) && r[|r| - 1] == p[|p| - 1] && |r| > |p|
  {
    var cycle, tail := p[i..j + 1], p[j..|p|];
    CutPath(g, p, i, j + 1);
    CutPath(g, p, j, |p|);
    assert cycle[0] == cycle[|cycle| - 1];
    var q := PumpCycle(g, cycle, |p|);
    JoinPaths(g, q, tail);
    r := q + tail[1..];
    assert r[|r| - 1] == if |tail| > 1 then tail[|tail| - 1] else q[|q| - 1];
  }

  /** A longest path into its end visits no node twice. */
  lemma LongestPathIsSimple(g: Graph, p: seq<NodeId>)
    requires ArcsInside(g) && IsPath(g, p) && DepthAtMost(g, p[|p| - 1], |p|)
    ensures Distinct(p)
  {
    if i, j :| 0 <= i < j < |p| && p[i] == p[j] {
      var r := DetourThroughCycle(g, p, i, j);
      assert false;
    }
  }

  // -------------------------------------------------------- topological order

  /** Any order `toposort` may return: every node once, every arc forwards. */
  ghost predicate IsTopological(g: Graph, order: seq<NodeId>) {
    && Distinct(order)
    && (forall n :: n in order <==> n in g.nodes)
    && (forall a, i, j | a in g.arcs && 0 <= i < |order| && 0 <= j < |order|
                         && order[i] == a.0 && order[j] == a.1 :: i < j)
  }

  /** In every topological order a path runs forwards. */
  lemma {:induction false} PathFollowsOrder(g: Graph, order: seq<NodeId>, p: seq<NodeId>, i: nat, j: nat)
    requires ArcsInside(g) && IsTopological(g, order)
    requires IsPath(g, p) && |p| > 1
    requires i < |order| && j < |order| && order[i] == p[0] && order[j] == p[|p| - 1]
    ensures i < j
  {
    var m := |p| - 2;
    assert (p[m], p[m + 1]) in g.arcs;
    if m > 0 {
      PathStaysInside(g, p, m);
      var k :| 0 <= k < |order| && order[k] == p[m];
      CutPath(g, p, 0, m + 1);
      PathFollowsOrder(g, order, p[0..m + 1], i, k);
    }
  }
}
