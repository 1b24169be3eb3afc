/**
 * The dependency-ready waves of a graph (graph.rs `runnable`, `max_runnable_width`) and
 * their reading as longest paths.
 */
module Waves {
  import opened Contract
  import opened Graphs

  function Elements(s: seq<NodeId>): set<NodeId> {
    set x | x in s
  }

  predicate ParentsIn(arcs: seq<(NodeId, NodeId)>, n: NodeId, completed: set<NodeId>) {
    arcs == [] || ((arcs[0].1 == n ==> arcs[0].0 in completed) && ParentsIn(arcs[1..], n, completed))
  }

  /** Unfinished nodes all of whose parents are finished, in node order. */
  function Ready(nodes: seq<NodeId>, arcs: seq<(NodeId, NodeId)>, completed: set<NodeId>): seq<NodeId> {
    if nodes == [] then []
    else if nodes[0] !in completed && ParentsIn(arcs, nodes[0], completed)
    then [nodes[0]] + Ready(nodes[1..], arcs, completed)
    else Ready(nodes[1..], arcs, completed)
  }

  lemma {:induction false} ParentsInMeaning(arcs: seq<(NodeId, NodeId)>, n: NodeId, completed: set<NodeId>)
    ensures ParentsIn(arcs, n, completed) <==> forall m | (m, n) in arcs :: m in completed
  {
    if arcs != [] {
      ParentsInMeaning(arcs[1..], n, completed);
      assert forall m :: (m, n) in arcs <==> (m, n) == arcs[0] || (m, n) in arcs[1..];
    }
  }

  lemma {:induction false} ReadyMeaning(nodes: seq<NodeId>, arcs: seq<(NodeId, NodeId)>, completed: set<NodeId>,
                                        n: NodeId)
    ensures n in Ready(nodes, arcs, completed) <==>
            n in nodes && n !in completed && forall m | (m, n) in arcs :: m in completed
  {
    ParentsInMeaning(arcs, n, completed);
    if nodes != [] {
      ReadyMeaning(nodes[1..], arcs, completed, n);
      assert n in nodes <==> n == nodes[0] || n in nodes[1..];
    }
  }

  ghost predicate Eligible(arcs: seq<(NodeId, NodeId)>, completed: set<NodeId>, n: NodeId) {
    n !in completed && forall m | (m, n) in arcs :: m in completed
  }

  lemma {:induction false} ReadySingle(nodes: seq<NodeId>, arcs: seq<(NodeId, NodeId)>, completed: set<NodeId>,
                                       n: NodeId)
    requires Distinct(nodes) && forall m | m in nodes :: Eligible(arcs, completed, m) <==> m == n
    ensures Ready(nodes, arcs, completed) == if n in nodes then [n] else []
  {
    if nodes != [] {
      var rest := nodes[1..];
      assert nodes == [nodes[0]] + rest;
      ParentsInMeaning(arcs, nodes[0], completed);
      ReadySingle(rest, arcs, completed, n);
      assert nodes[0] in nodes && nodes[0] !in rest;
    }
  }

  lemma {:induction false} NothingReady(nodes: seq<NodeId>, arcs: seq<(NodeId, NodeId)>, completed: set<NodeId>)
    requires forall n | n in nodes :: !Eligible(arcs, completed, n)
    ensures Ready(nodes, arcs, completed) == []
  {
    if nodes != [] {
      assert nodes[0] in nodes;
      ParentsInMeaning(arcs, nodes[0], completed);
      NothingReady(nodes[1..], arcs, completed);
    }
  }

  lemma {:induction false} ReadyJoin(a: seq<NodeId>, b: seq<NodeId>, arcs: seq<(NodeId, NodeId)>,
                                     completed: set<NodeId>)
    ensures Ready(a + b, arcs, completed) == Ready(a, arcs, completed) + Ready(b, arcs, completed)
  {
    if a == [] {
      assert a + b == b;
    } else {
      assert (a + b)[1..] == a[1..] + b;
      ReadyJoin(a[1..], b, arcs, completed);
    }
  }

  /** Nodes finished after the first `k` waves. */
  function Done(g: Graph, k: nat): set<NodeId> {
    if k == 0 then {} else Done(g, k - 1) + Elements(Ready(g.nodes, g.arcs, Done(g, k - 1)))
  }

  function Wave(g: Graph, k: nat): seq<NodeId> {
    Ready(g.nodes, g.arcs, Done(g, k))
  }

  lemma DoneStep(g: Graph, k: nat, n: NodeId)
    ensures n in Done(g, k + 1) <==> n in Done(g, k) || n in Wave(g, k)
    ensures n in Wave(g, k) <==> n in g.nodes && n !in Done(g, k) && forall m | (m, n) in g.arcs :: m in Done(g, k)
  {
    ReadyMeaning(g.nodes, g.arcs, Done(g, k), n);
  }

  lemma {:induction false} DoneIsDepth(g: Graph, k: nat, n: NodeId)
    requires WellFormed(g)
    ensures n in Done(g, k) <==> n in g.nodes && DepthAtMost(g, n, k)
  {
    if k == 0 {
      if n in g.nodes { assert IsPath(g, [n]); }
    } else {
      DoneStep(g, k - 1, n);
      DoneIsDepth(g, k - 1, n);
      forall m | (m, n) in g.arcs ensures m in Done(g, k - 1) <==> DepthAtMost(g, m, k - 1) {
        DoneIsDepth(g, k - 1, m);
      }
      if n in g.nodes {
        DepthOfParents(g, n, k - 1);
      }
    }
  }

  lemma DepthOfParents(g: Graph, n: NodeId, k: nat)
    requires WellFormed(g) && n in g.nodes
    ensures DepthAtMost(g, n, k + 1) <==> forall m | (m, n) in g.arcs :: DepthAtMost(g, m, k)
    ensures DepthAtMost(g, n, k) ==> DepthAtMost(g, n, k + 1)
  {
    if DepthAtMost(g, n, k + 1) {
      forall m, p | (m, n) in g.arcs && IsPath(g, p) && p[|p| - 1] == m ensures |p| <= k {
        assert |p + [n]| <= k + 1;
      }
    }
    if forall m | (m, n) in g.arcs :: DepthAtMost(g, m, k) {
      DepthFromParents(g, n, k);
    }
  }

  lemma DepthFromParents(g: Graph, n: NodeId, k: nat)
    requires WellFormed(g) && forall m | (m, n) in g.arcs :: DepthAtMost(g, m, k)
    ensures DepthAtMost(g, n, k + 1)
  {
    forall p | IsPath(g, p) && p[|p| - 1] == n ensures |p| <= k + 1 {
      if |p| > 1 {
        var q := p[0..|p| - 1];
        assert (p[|p| - 2], p[|p| - 1]) in g.arcs;
        CutPath(g, p, 0, |p| - 1);
        assert DepthAtMost(g, p[|p| - 2], k) && q[|q| - 1] == p[|p| - 2];
      }
    }
  }

  /** A node's wave index is the number of arcs on the longest path into it. */
  lemma WaveIsLongestPath(g: Graph, k: nat, n: NodeId)
    requires WellFormed(g)
    ensures n in Wave(g, k) <==>
            && n in g.nodes
            && DepthAtMost(g, n, k + 1)
            && (exists p :: IsPath(g, p) && p[|p| - 1] == n && |p| == k + 1)
  {
    DoneIsDepth(g, k, n);
    DoneIsDepth(g, k + 1, n);
    DoneStep(g, k, n);
    if n in Done(g, k + 1) && n !in Done(g, k) {
      var p :| IsPath(g, p) && p[|p| - 1] == n && |p| > k;
      assert |p| == k + 1;
    }
  }

  lemma {:induction false} DoneGrows(g: Graph, j: nat, k: nat)
    requires j <= k
    ensures Done(g, j) <= Done(g, k)
    decreases k
  {
    if j < k { DoneGrows(g, j, k - 1); }
  }

  /** No node is in two waves. */
  lemma WavesDisjoint(g: Graph, j: nat, k: nat, n: NodeId)
    requires j < k && n in Wave(g, j)
    ensures n !in Wave(g, k)
  {
    DoneStep(g, j, n);
    DoneGrows(g, j + 1, k);
    DoneStep(g, k, n);
  }

  lemma {:induction false} EmptyWaveIsFinal(g: Graph, k: nat, j: nat)
    requires Wave(g, k) == [] && k <= j
    ensures Done(g, j) == Done(g, k) && Wave(g, j) == []
  {
    if k < j {
      EmptyWaveIsFinal(g, k, j - 1);
      assert Done(g, j) == Done(g, j - 1) + Elements(Wave(g, j - 1));
    }
  }

  /** When the loop stops, it has finished every node exactly if there is no cycle. */
  lemma WavesCoverIffAcyclic(g: Graph, k: nat)
    requires WellFormed(g) && Wave(g, k) == []
    ensures (forall n | n in g.nodes :: n in Done(g, k)) <==> !Cyclic(g)
  {
    if !Cyclic(g) {
      forall n | n in g.nodes ensures n in Done(g, k) {
        forall p | IsPath(g, p) && p[|p| - 1] == n ensures |p| <= |g.nodes| {
          AcyclicPathBound(g, p);
        }
        DoneIsDepth(g, |g.nodes|, n);
        if k <= |g.nodes| { EmptyWaveIsFinal(g, k, |g.nodes|); } else { DoneGrows(g, |g.nodes|, k); }
      }
    } else {
      var c :| IsCycle(g, c);
      var p := PumpCycle(g, c, k);
      DoneIsDepth(g, k, c[0]);
      assert c[0] in g.nodes && !DepthAtMost(g, c[0], k);
    }
  }

  function Wider(a: nat, b: nat): nat {
    if b > a then b else a
  }

  /** The size of the largest of the first `k` waves. */
  function Widest(g: Graph, k: nat): nat {
    if k == 0 then 0 else Wider(Widest(g, k - 1), |Wave(g, k - 1)|)
  }

  lemma {:induction false} WidestBounds(g: Graph, k: nat, j: nat)
    requires j < k
    ensures |Wave(g, j)| <= Widest(g, k)
  {
    if j < k - 1 { WidestBounds(g, k - 1, j); }
  }

  lemma {:induction false} WidestIsAttained(g: Graph, k: nat) returns (j: nat)
    requires Widest(g, k) > 0
    ensures j < k && |Wave(g, j)| == Widest(g, k)
  {
    if |Wave(g, k - 1)| == Widest(g, k) { j := k - 1; } else { j := WidestIsAttained(g, k - 1); }
  }

  /** A non-empty wave `k` needs a path of `k + 1` distinct nodes. */
  lemma WaveBound(g: Graph, k: nat)
    requires WellFormed(g) && Wave(g, k) != []
    ensures k < |g.nodes|
  {
    var n := Wave(g, k)[0];
    WaveIsLongestPath(g, k, n);
    var p :| IsPath(g, p) && p[|p| - 1] == n && |p| == k + 1;
    LongestPathIsSimple(g, p);
    PathBound(g, p);
  }

  lemma WaveProgress(g: Graph, completed: set<NodeId>)
    requires Ready(g.nodes, g.arcs, completed) != []
    ensures Vertices(g) - (completed + Elements(Ready(g.nodes, g.arcs, completed))) < Vertices(g) - completed
  {
    var n := Ready(g.nodes, g.arcs, completed)[0];
    ReadyMeaning(g.nodes, g.arcs, completed, n);
    assert n in Vertices(g) - completed;
  }

  /** What the wave loop returns from a given set of finished nodes and width so far. */
  function WidthFrom(g: Graph, completed: set<NodeId>, width: nat): nat
    decreases Vertices(g) - completed
  {
    var runnable := Ready(g.nodes, g.arcs, completed);
    if runnable == [] then width
    else
      WaveProgress(g, completed);
      WidthFrom(g, completed + Elements(runnable), Wider(width, |runnable|))
  }

  method MaxRunnableWidth(g: Graph) returns (width: nat)
    ensures width == WidthFrom(g, {}, 0)
  {
    var completed: set<NodeId> := {};
    width := 0;
    while true
      invariant WidthFrom(g, completed, width) == WidthFrom(g, {}, 0)
      decreases Vertices(g) - completed
    {
      var runnable := Ready(g.nodes, g.arcs, completed);
      if runnable == [] {
        return;
      }
      WaveProgress(g, completed);
      width := Wider(width, |runnable|);
      completed := completed + Elements(runnable);
    }
  }

  lemma {:induction false} WidthUpTo(g: Graph, k: nat, waves: nat)
    requires k <= waves && Wave(g, waves) == []
    requires forall j: nat | j < waves :: Wave(g, j) != []
    ensures WidthFrom(g, Done(g, k), Widest(g, k)) == Widest(g, waves)
    decreases waves - k
  {
    if k < waves {
      assert Wave(g, k) != [];
      WidthUpTo(g, k + 1, waves);
    }
  }

  /** There is a first empty wave, after at most one wave per node. */
  lemma {:induction false} FirstEmptyWave(g: Graph, k: nat) returns (waves: nat)
    requires WellFormed(g) && (forall j: nat | j < k :: Wave(g, j) != []) && k <= |g.nodes|
    ensures waves <= |g.nodes| && forall j: nat :: Wave(g, j) == [] <==> waves <= j
    decreases |g.nodes| - k
  {
    if Wave(g, k) == [] {
      waves := k;
      forall j: nat | k <= j ensures Wave(g, j) == [] { EmptyWaveIsFinal(g, k, j); }
    } else {
      WaveBound(g, k);
      waves := FirstEmptyWave(g, k + 1);
    }
  }

  /**
   * The loop runs through the non-empty waves, at most one per node, and returns the
   * size of the largest.
   */
  lemma WidthIsWidestWave(g: Graph) returns (waves: nat)
    requires WellFormed(g)
    ensures waves <= |g.nodes|
    ensures forall j: nat :: Wave(g, j) == [] <==> waves <= j
    ensures WidthFrom(g, {}, 0) == Widest(g, waves)
  {
    waves := FirstEmptyWave(g, 0);
    WidthUpTo(g, 0, waves);
  }

}
