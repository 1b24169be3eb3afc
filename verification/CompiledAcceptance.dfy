/** When the verifier's tests of the whole workflow accept what the compiler made. */
module CompiledAcceptance {
  import opened Wrappers
  import opened Contract
  import opened Catalogs
  import opened Graphs
  import opened Waves
  import opened Ledger
  import opened Compiler
  import opened CompiledShape
  import opened Verifier

  // ------------------------------------------------------------------ chains and diamonds

  /** The only eligible node of the list is `n`. */
  ghost predicate OnlyEligible(g: Graph, completed: set<NodeId>, n: NodeId) {
    n in g.nodes && forall m | m in g.nodes :: Eligible(g.arcs, completed, m) <==> m == n
  }

  lemma SingleStep(g: Graph, completed: set<NodeId>, width: nat, n: NodeId)
    requires Distinct(g.nodes) && OnlyEligible(g, completed, n) && width > 0
    ensures WidthFrom(g, completed, width) == WidthFrom(g, completed + {n}, width)
  {
    ReadySingle(g.nodes, g.arcs, completed, n);
    assert Elements([n]) == {n};
  }

  lemma FirstStep(g: Graph, n: NodeId)
    requires Distinct(g.nodes) && OnlyEligible(g, {}, n)
    ensures WidthFrom(g, {}, 0) == WidthFrom(g, {n}, 1)
  {
    ReadySingle(g.nodes, g.arcs, {}, n);
    assert {} + Elements([n]) == {n};
  }

  lemma LastStep(g: Graph, completed: set<NodeId>, width: nat)
    requires forall m | m in g.nodes :: m in completed
    ensures WidthFrom(g, completed, width) == width
  {
    NothingReady(g.nodes, g.arcs, completed);
  }

  function Chain(a: NodeId, e: NodeId, c: NodeId): Graph {
    Graph([a, e, c], [(a, e), (e, c)])
  }

  lemma ChainWidth(a: NodeId, e: NodeId, c: NodeId)
    requires a != e && a != c && e != c
    ensures WidthFrom(Chain(a, e, c), {}, 0) == 1
  {
    var g := Chain(a, e, c);
    assert g.arcs[0] in g.arcs && g.arcs[1] in g.arcs;
    FirstStep(g, a);
    SingleStep(g, {a}, 1, e);
    SingleStep(g, {a} + {e}, 1, c);
    LastStep(g, {a} + {e} + {c}, 1);
  }

  function Link(e: NodeId, c: NodeId): Graph {
    Graph([e, c], [(e, c)])
  }

  lemma LinkWidth(e: NodeId, c: NodeId)
    requires e != c
    ensures WidthFrom(Link(e, c), {}, 0) == 1
  {
    var g := Link(e, c);
    assert g.arcs[0] in g.arcs;
    FirstStep(g, e);
    SingleStep(g, {e}, 1, c);
    LastStep(g, {e} + {c}, 1);
  }

  /** Probe, branch, not found, selection, query, completion. */
  function Diamond(r: NodeId, b: NodeId, n: NodeId, s: NodeId, e: NodeId, c: NodeId): Graph {
    Graph([r, b, n, s, e, c], [(r, b), (b, n), (b, e), (b, s), (s, e), (e, c)])
  }

  lemma DiamondArcs(r: NodeId, b: NodeId, n: NodeId, s: NodeId, e: NodeId, c: NodeId, x: NodeId, y: NodeId)
    ensures (x, y) in Diamond(r, b, n, s, e, c).arcs <==>
            (x, y) == (r, b) || (x, y) == (b, n) || (x, y) == (b, e) || (x, y) == (b, s) || (x, y) == (s, e) ||
                (x, y) == (e, c)
  {
    var arcs := Diamond(r, b, n, s, e, c).arcs;
    assert arcs[0] in arcs && arcs[1] in arcs && arcs[2] in arcs && arcs[3] in arcs && arcs[4] in arcs &&
        arcs[5] in arcs;
  }

  ghost predicate SixApart(r: NodeId, b: NodeId, n: NodeId, s: NodeId, e: NodeId, c: NodeId) {
    && r != b && r != n && r != s && r != e && r != c && b != n && b != s && b != e && b != c
    && n != s && n != e && n != c && s != e && s != c && e != c
  }

  lemma DiamondEligible(r: NodeId, b: NodeId, n: NodeId, s: NodeId, e: NodeId, c: NodeId, completed: set<NodeId>)
    requires SixApart(r, b, n, s, e, c)
    ensures
      var arcs := Diamond(r, b, n, s, e, c).arcs;
      && (Eligible(arcs, completed, r) <==> r !in completed)
      && (Eligible(arcs, completed, b) <==> b !in completed && r in completed)
      && (Eligible(arcs, completed, n) <==> n !in completed && b in completed)
      && (Eligible(arcs, completed, s) <==> s !in completed && b in completed)
      && (Eligible(arcs, completed, e) <==> e !in completed && b in completed && s in completed)
      && (Eligible(arcs, completed, c) <==> c !in completed && e in completed)
  {
    forall x, y { DiamondArcs(r, b, n, s, e, c, x, y); }
  }

  lemma DiamondNodes(r: NodeId, b: NodeId, n: NodeId, s: NodeId, e: NodeId, c: NodeId)
    ensures forall m :: m in Diamond(r, b, n, s, e, c).nodes <==>
            m == r || m == b || m == n || m == s || m == e || m == c
  {
    var l := Diamond(r, b, n, s, e, c).nodes;
    assert l[0] in l && l[1] in l && l[2] in l && l[3] in l && l[4] in l && l[5] in l;
  }

  lemma DiamondEnters(r: NodeId, b: NodeId, n: NodeId, s: NodeId, e: NodeId, c: NodeId)
    requires SixApart(r, b, n, s, e, c)
    ensures OnlyEligible(Diamond(r, b, n, s, e, c), {}, r) && OnlyEligible(Diamond(r, b, n, s, e, c), {r}, b)
  {
    DiamondNodes(r, b, n, s, e, c);
    DiamondEligible(r, b, n, s, e, c, {});
    DiamondEligible(r, b, n, s, e, c, {r});
  }

  lemma DiamondQueries(r: NodeId, b: NodeId, n: NodeId, s: NodeId, e: NodeId, c: NodeId)
    requires SixApart(r, b, n, s, e, c)
    ensures OnlyEligible(Diamond(r, b, n, s, e, c), {r, b, n, s}, e)
  {
    DiamondNodes(r, b, n, s, e, c);
    DiamondEligible(r, b, n, s, e, c, {r, b, n, s});
  }

  lemma DiamondCompletes(r: NodeId, b: NodeId, n: NodeId, s: NodeId, e: NodeId, c: NodeId)
    requires SixApart(r, b, n, s, e, c)
    ensures OnlyEligible(Diamond(r, b, n, s, e, c), {r, b, n, s, e}, c)
  {
    DiamondNodes(r, b, n, s, e, c);
    DiamondEligible(r, b, n, s, e, c, {r, b, n, s, e});
  }

  lemma NeitherReady(x: NodeId, y: NodeId, arcs: seq<(NodeId, NodeId)>, completed: set<NodeId>)
    requires !Eligible(arcs, completed, x) && !Eligible(arcs, completed, y)
    ensures Ready([x, y], arcs, completed) == []
  {
    NothingReady([x, y], arcs, completed);
  }

  lemma BothReady(x: NodeId, y: NodeId, arcs: seq<(NodeId, NodeId)>, completed: set<NodeId>)
    requires Eligible(arcs, completed, x) && Eligible(arcs, completed, y)
    ensures Ready([x], arcs, completed) == [x] && Ready([y], arcs, completed) == [y]
  {
    ReadySingle([x], arcs, completed, x);
    ReadySingle([y], arcs, completed, y);
  }

  /** After the branch, the not-found terminal and the selection form one wave. */
  lemma DiamondFork(r: NodeId, b: NodeId, n: NodeId, s: NodeId, e: NodeId, c: NodeId)
    requires SixApart(r, b, n, s, e, c)
    ensures Ready(Diamond(r, b, n, s, e, c).nodes, Diamond(r, b, n, s, e, c).arcs, {r, b}) == [n, s]
  {
    var arcs := Diamond(r, b, n, s, e, c).arcs;
    DiamondEligible(r, b, n, s, e, c, {r, b});
    NeitherReady(r, b, arcs, {r, b});
    BothReady(n, s, arcs, {r, b});
    NeitherReady(e, c, arcs, {r, b});
    ForkJoins([r, b], [n], [s], [e, c], arcs, {r, b});
    assert [r, b] + ([n] + ([s] + [e, c])) == Diamond(r, b, n, s, e, c).nodes;
  }

  lemma ForkJoins(a: seq<NodeId>, b: seq<NodeId>, c: seq<NodeId>, d: seq<NodeId>, arcs: seq<(NodeId, NodeId)>,
                  completed: set<NodeId>)
    requires Ready(a, arcs, completed) == [] && Ready(d, arcs, completed) == []
    ensures Ready(a + (b + (c + d)), arcs, completed) == Ready(b, arcs, completed) + Ready(c, arcs, completed)
  {
    ReadyJoin(c, d, arcs, completed);
    ReadyJoin(b, c + d, arcs, completed);
    ReadyJoin(a, b + (c + d), arcs, completed);
  }

  lemma DiamondWidth(r: NodeId, b: NodeId, n: NodeId, s: NodeId, e: NodeId, c: NodeId)
    requires SixApart(r, b, n, s, e, c)
    ensures WidthFrom(Diamond(r, b, n, s, e, c), {}, 0) == 2
  {
    var g := Diamond(r, b, n, s, e, c);
    DiamondEnters(r, b, n, s, e, c);
    DiamondQueries(r, b, n, s, e, c);
    DiamondCompletes(r, b, n, s, e, c);
    DiamondFork(r, b, n, s, e, c);
    SixDistinct(r, b, n, s, e, c);
    FirstStep(g, r);
    SingleStep(g, {r}, 1, b);
    assert {r} + {b} == {r, b} && {r, b} + Elements([n, s]) == {r, b, n, s} && {r, b, n, s} + {e} == {r, b, n, s, e};
    SingleStep(g, {r, b, n, s}, 2, e);
    SingleStep(g, {r, b, n, s, e}, 2, c);
    LastStep(g, {r, b, n, s, e} + {c}, 2);
  }

  lemma SixDistinct(r: NodeId, b: NodeId, n: NodeId, s: NodeId, e: NodeId, c: NodeId)
    requires SixApart(r, b, n, s, e, c)
    ensures Distinct(Diamond(r, b, n, s, e, c).nodes)
  {
  }

  // --------------------------------------------------------------- the graphs of the compiler

  lemma SixIds(name: string)
    ensures SixApart(ResolveId(name), BranchId(name), NotFoundId(name), SelectId(name), EXECUTE, COMPLETE)
  {
    Levels(name);
  }

  function Ends(edges: seq<Edge>): (r: seq<(NodeId, NodeId)>)
    ensures |r| == |edges| && forall i | 0 <= i < |r| :: r[i] == (edges[i].source, edges[i].target)
  {
    if edges == [] then [] else Ends(edges[..|edges| - 1]) + [(edges[|edges| - 1].source, edges[|edges| - 1].target)]
  }

  lemma GraphByEnds(w: Workflow)
    requires EdgesKnown(w)
    ensures GraphOf(w) == Graph(NodeIds(w.nodes), Ends(w.edges))
  {
    ArcsOfKnownEdges(w.edges, Ids(w.nodes));
  }

  lemma NodeIdsJoin(a: seq<Node>, b: seq<Node>)
    ensures NodeIds(a + b) == NodeIds(a) + NodeIds(b)
  {
  }

  lemma EndsJoin(a: seq<Edge>, b: seq<Edge>)
    ensures Ends(a + b) == Ends(a) + Ends(b)
  {
  }

  lemma TailParts(query: Node)
    ensures NodeIds([query, FINISH]) == [query.id, COMPLETE]
    ensures Ends([Edge(EXECUTE, COMPLETE, Always)]) == [(EXECUTE, COMPLETE)]
  {
  }

  lemma CompiledParts(w: Workflow, gadgets: seq<Gadget>, query: Node)
    requires IsCompiled(w, gadgets, query)
    ensures GraphOf(w) == Graph(NodeIds(AllNodes(gadgets)) + [EXECUTE, COMPLETE],
                                Ends(AllEdges(gadgets)) + [(EXECUTE, COMPLETE)])
  {
    CompiledEdgesKnown(w, gadgets, query);
    GraphByEnds(w);
    NodeIdsJoin(AllNodes(gadgets), [query, FINISH]);
    EndsJoin(AllEdges(gadgets), [Edge(EXECUTE, COMPLETE, Always)]);
    TailParts(query);
  }

  lemma OneGadget(g: Gadget)
    ensures AllNodes([g]) == GadgetNodes(g) && AllEdges([g]) == GadgetEdges(g)
  {
    assert [g][..0] == [];
    assert AllNodes([]) == [] && AllEdges([]) == [];
    assert [] + GadgetNodes(g) == GadgetNodes(g) && [] + GadgetEdges(g) == GadgetEdges(g);
  }

  lemma ProbingIds(g: Gadget)
    requires g.Probing?
    ensures NodeIds(AllNodes([g])) == [ResolveId(g.name), BranchId(g.name), NotFoundId(g.name), SelectId(g.name)]
  {
    OneGadget(g);
  }

  lemma ProbingEnds(g: Gadget)
    requires g.Probing?
    ensures Ends(AllEdges([g])) ==
            [(ResolveId(g.name), BranchId(g.name)), (BranchId(g.name), NotFoundId(g.name)), (BranchId(g.name), EXECUTE),
             (BranchId(g.name), SelectId(g.name)), (SelectId(g.name), EXECUTE)]
  {
    OneGadget(g);
  }

  lemma AskingParts(g: Gadget)
    requires g.Asking?
    ensures NodeIds(AllNodes([g])) == [ClarifyId(g.name)] && Ends(AllEdges([g])) == [(ClarifyId(g.name), EXECUTE)]
  {
    OneGadget(g);
  }

  lemma DiamondInParts(r: NodeId, b: NodeId, n: NodeId, s: NodeId, e: NodeId, c: NodeId)
    ensures Graph([r, b, n, s] + [e, c], [(r, b), (b, n), (b, e), (b, s), (s, e)] + [(e, c)]) ==
            Diamond(r, b, n, s, e, c)
    ensures Graph([r] + [e, c], [(r, e)] + [(e, c)]) == Chain(r, e, c)
    ensures Graph([] + [e, c], [] + [(e, c)]) == Link(e, c)
  {
  }

  /** Waves of a workflow with a probe are up to two wide, of one without only one. */
  function CompiledWidth(gadgets: seq<Gadget>): nat {
    if |gadgets| == 1 && gadgets[0].Probing? then 2 else 1
  }

  lemma ProbingWidth(w: Workflow, g: Gadget, query: Node)
    requires IsCompiled(w, [g], query) && g.Probing?
    ensures WidthFrom(GraphOf(w), {}, 0) == 2
  {
    CompiledParts(w, [g], query);
    ProbingIds(g);
    ProbingEnds(g);
    SixIds(g.name);
    DiamondInParts(ResolveId(g.name), BranchId(g.name), NotFoundId(g.name), SelectId(g.name), EXECUTE, COMPLETE);
    DiamondWidth(ResolveId(g.name), BranchId(g.name), NotFoundId(g.name), SelectId(g.name), EXECUTE, COMPLETE);
  }

  lemma AskingWidth(w: Workflow, g: Gadget, query: Node)
    requires IsCompiled(w, [g], query) && g.Asking?
    ensures WidthFrom(GraphOf(w), {}, 0) == 1
  {
    CompiledParts(w, [g], query);
    AskingParts(g);
    Levels(g.name);
    DiamondInParts(ClarifyId(g.name), EXECUTE, EXECUTE, EXECUTE, EXECUTE, COMPLETE);
    ChainWidth(ClarifyId(g.name), EXECUTE, COMPLETE);
  }

  lemma PlainWidth(w: Workflow, query: Node)
    requires IsCompiled(w, [], query)
    ensures WidthFrom(GraphOf(w), {}, 0) == 1
  {
    CompiledParts(w, [], query);
    Levels("");
    DiamondInParts(EXECUTE, EXECUTE, EXECUTE, EXECUTE, EXECUTE, COMPLETE);
    LinkWidth(EXECUTE, COMPLETE);
  }

  lemma CompiledWidthIs(w: Workflow, gadgets: seq<Gadget>, query: Node)
    requires IsCompiled(w, gadgets, query) && |gadgets| <= 1
    ensures WidthFrom(GraphOf(w), {}, 0) == CompiledWidth(gadgets)
  {
    if gadgets == [] {
      PlainWidth(w, query);
    } else {
      assert gadgets == [gadgets[0]];
      if gadgets[0].Probing? { ProbingWidth(w, gadgets[0], query); } else { AskingWidth(w, gadgets[0], query); }
    }
  }

  lemma ShapeIff(w: Workflow, gadgets: seq<Gadget>, query: Node)
    requires IsCompiled(w, gadgets, query)
    ensures WellShaped(w) <==>
            |gadgets| <= 1 && BudgetsAccepted(w) && w.budgets.maxParallelQueries >= CompiledWidth(gadgets)
  {
    CompiledIsAcyclic(w, gadgets, query);
    CompiledIds(w, gadgets, query);
    CompiledEdgesKnown(w, gadgets, query);
    assert FINISH in w.nodes;
    if DistinctHeads(gadgets) { SingleEntryIffOneGadget(w, gadgets, query); }
    if |gadgets| <= 1 {
      CompiledWidthIs(w, gadgets, query);
      ReachabilityTestIsRedundant(w);
    }
  }

  /**
   * A compiled workflow passes every test of the verifier that concerns the workflow as a
   * whole exactly when at most one parameter took a probe or a question, the (wrapped)
   * declared totals fit, and two queries may run in parallel if there is a probe: the
   * verifier counts the not-found terminal and the selection as one wave, although the
   * runner never starts both.
   */
  lemma CompiledShapeAcceptedIff(id: WorkflowId, ids: seq<string>, catalog: Catalog, budgets: Budgets, facts: Facts,
                                 w: Workflow,
                                 capability: Capability)
    requires CompiledFrom(id, ids, catalog, budgets, facts, w, capability)
    ensures AcquireUpTo(capability, facts, catalog, |capability.policies|).Ok?
    ensures
      var gadgets := AcquireUpTo(capability, facts, catalog, |capability.policies|).value.1;
      WellShaped(w) <==>
      |gadgets| <= 1 && BudgetsAccepted(w) && budgets.maxParallelQueries >= CompiledWidth(gadgets)
  {
    CompiledIsCompiled(id, ids, catalog, budgets, facts, w, capability);
    var (inputs, gadgets) := AcquireUpTo(capability, facts, catalog, |capability.policies|).value;
    ShapeIff(w, gadgets, QueryNode(capability, catalog, inputs));
  }
}
