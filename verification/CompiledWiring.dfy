/** How the nodes and edges of a compiled capability belong together. */
module CompiledWiring {
  import opened Wrappers
  import opened Contract
  import opened Catalogs
  import opened Compiler
  import opened CompiledShape
  import opened CompiledRuns

  lemma GadgetIsInside(w: Workflow, gadgets: seq<Gadget>, query: Node, g: Gadget)
    requires IsCompiled(w, gadgets, query) && g in gadgets
    ensures forall n :: n in GadgetNodes(g) ==> n in w.nodes
    ensures forall e :: e in GadgetEdges(g) ==> e in w.edges
  {
    forall n | n in GadgetNodes(g) ensures n in w.nodes { NodeOfGadget(gadgets, n); }
    forall e | e in GadgetEdges(g) ensures e in w.edges { EdgeOfGadget(gadgets, e); }
  }

  /** The edges that leave a branch or a question are those of the gadget of its name. */
  lemma EdgesLeave(w: Workflow, gadgets: seq<Gadget>, query: Node, g: Gadget, e: Edge)
    requires IsCompiled(w, gadgets, query) && g in gadgets && e in w.edges
    requires e.source == BranchId(g.name) || e.source == SelectId(g.name) || e.source == ClarifyId(g.name)
    requires g.Probing? <==> e.source != ClarifyId(g.name)
    ensures e in GadgetEdges(g)
  {
    Levels(g.name);
    EdgeOfGadget(gadgets, e);
    var h :| h in gadgets && e in GadgetEdges(h);
    EdgesFrom(h, g.name, e);
    GadgetEdgeList(h, e);
    GadgetEdgeList(g, e);
  }

  lemma EdgesFrom(h: Gadget, name: string, e: Edge)
    requires e in GadgetEdges(h) && (e.source == BranchId(name) || e.source == SelectId(name) ||
                                     e.source == ClarifyId(name))
    ensures h.name == name && (h.Probing? <==> e.source != ClarifyId(name))
  {
    GadgetEdgeList(h, e);
    Levels(h.name);
    Levels(name);
    if h.name != name { IdsInjective(h.name, name); }
  }

  lemma EdgesOfBranch(w: Workflow, gadgets: seq<Gadget>, query: Node, g: Gadget, e: Edge)
    requires IsCompiled(w, gadgets, query) && g in gadgets && g.Probing?
    ensures e in w.edges && e.source == BranchId(g.name) <==>
            || e == Edge(BranchId(g.name), NotFoundId(g.name), OnCardinality(Zero))
            || e == Edge(BranchId(g.name), EXECUTE, OnCardinality(One))
            || e == Edge(BranchId(g.name), SelectId(g.name), OnCardinality(Many))
  {
    GadgetIsInside(w, gadgets, query, g);
    GadgetEdgeList(g, e);
    Levels(g.name);
    if e in w.edges && e.source == BranchId(g.name) { EdgesLeave(w, gadgets, query, g, e); }
  }

  lemma EdgesOfQuestion(w: Workflow, gadgets: seq<Gadget>, query: Node, g: Gadget, id: NodeId, e: Edge)
    requires IsCompiled(w, gadgets, query) && g in gadgets
    requires id == if g.Probing? then SelectId(g.name) else ClarifyId(g.name)
    ensures e in w.edges && e.source == id <==> e == Edge(id, EXECUTE, ClarificationAnswered)
  {
    GadgetIsInside(w, gadgets, query, g);
    GadgetEdgeList(g, e);
    Levels(g.name);
    if e in w.edges && e.source == id { EdgesLeave(w, gadgets, query, g, e); }
  }

  /** The gadget that a branch or a question comes from. */
  lemma GadgetBehind(w: Workflow, gadgets: seq<Gadget>, query: Node, n: Node) returns (g: Gadget)
    requires IsCompiled(w, gadgets, query) && ProbesResolve(gadgets) && n in w.nodes
    requires n.kind.CardinalityBranch? || n.kind.ClarificationInterrupt?
    ensures g in gadgets && n in GadgetNodes(g)
    ensures if n.kind.CardinalityBranch? then g.Probing? && n.id == BranchId(g.name)
            else n.id == if g.Probing? then SelectId(g.name) else ClarifyId(g.name)
  {
    NodeOfGadget(gadgets, n);
    g :| g in gadgets && n in GadgetNodes(g);
  }

  /**
   * A branch declares what its edges do. It decides on a probe, its arms lead to a terminal for
   * nothing found, to the query, and to a selection among the rows of that probe, which resumes
   * at the query; and no other edge leaves it.
   */
  lemma BranchIsWired(w: Workflow, gadgets: seq<Gadget>, query: Node, n: Node, e: Edge)
      returns (probe: Node, nothing: Node, selection: Node)
    requires IsCompiled(w, gadgets, query) && ProbesResolve(gadgets) && n in w.nodes && n.kind.CardinalityBranch?
    ensures e in w.edges && e.source == n.id <==>
            || e == Edge(n.id, n.kind.zero, OnCardinality(Zero)) || e == Edge(n.id, n.kind.one, OnCardinality(One))
            || e == Edge(n.id, n.kind.many, OnCardinality(Many))
    ensures probe in w.nodes && probe.id == n.kind.source && probe.kind.ResolveEntity?
    ensures nothing in w.nodes && nothing.id == n.kind.zero && nothing.kind == Complete(TerminalState.NotFound)
    ensures n.kind.one == query.id
    ensures selection in w.nodes && selection.id == n.kind.many
    ensures selection.kind == ClarificationInterrupt("select_entity", n.kind.source, query.id)
    ensures Edge(n.kind.source, n.id, Always) in w.edges
  {
    var g := GadgetBehind(w, gadgets, query, n);
    GadgetIsInside(w, gadgets, query, g);
    var nodes := GadgetNodes(g);
    assert nodes[0] in nodes && nodes[1] == n && nodes[2] in nodes && nodes[3] in nodes;
    probe, nothing, selection := nodes[0], nodes[2], nodes[3];
    assert GadgetEdges(g)[0] in w.edges;
    EdgesOfBranch(w, gadgets, query, g, e);
  }

  /** A question is the selection of a branch or asks for fields; once answered it leads to the query alone. */
  lemma QuestionIsWired(w: Workflow, gadgets: seq<Gadget>, query: Node, n: Node, e: Edge)
    requires IsCompiled(w, gadgets, query) && ProbesResolve(gadgets) && n in w.nodes && n.kind.ClarificationInterrupt?
    ensures e in w.edges && e.source == n.id <==> e == Edge(n.id, query.id, ClarificationAnswered)
    ensures n.kind == ClarificationInterrupt("collect_fields", query.id, query.id) || exists b ::
              b in w.nodes && b.kind.CardinalityBranch? && b.kind.many == n.id
              && n.kind == ClarificationInterrupt("select_entity", b.kind.source, query.id)
  {
    var g := GadgetBehind(w, gadgets, query, n);
    GadgetIsInside(w, gadgets, query, g);
    if g.Probing? { assert GadgetNodes(g)[1] in w.nodes; }
    EdgesOfQuestion(w, gadgets, query, g, n.id, e);
  }

  /**
   * The compiled workflow stops at the first failure, shows no partial results and nothing above
   * personal data, keeps the caps given, and completes after its query and only there.
   */
  lemma CompiledContract(id: WorkflowId, ids: seq<string>, catalog: Catalog, budgets: Budgets, facts: Facts,
                         w: Workflow, e: Edge)
    requires CompileCapability(id, ids, catalog, budgets, facts) == Ok(w)
    ensures w.id == id && w.budgets == budgets && w.failPolicy == FailFast
    ensures !w.output.allowsPartial && w.output.maxSensitivity == Pii
    ensures w.nodes[|w.nodes| - 1].kind == Complete(Success) && w.nodes[|w.nodes| - 1].id == COMPLETE
    ensures e in w.edges && e.target == COMPLETE <==> e == Edge(EXECUTE, COMPLETE, Always)
  {
    var c := FindApproved(catalog.capabilities, ids[0]).value;
    var (inputs, gadgets) := AcquireUpTo(c, facts, catalog, |c.policies|).value;
    if e in AllEdges(gadgets) {
      EdgeOfGadget(gadgets, e);
      var g :| g in gadgets && e in GadgetEdges(g);
      GadgetEdgeList(g, e);
      Levels(g.name);
      Levels("");
    }
  }

  lemma GadgetNodeIsDeclared(g: Gadget, n: Node)
    requires n in GadgetNodes(g) && (g.Probing? ==> g.probe.ResolveEntity?)
    ensures IsDeclared(n)
  {
  }

  /** Only probes and queries run once, spend and need a capability; only questions may be asked again. */
  predicate IsDeclared(n: Node) {
    && (n.idempotency == ExecuteOnce <==> n.kind.ResolveEntity? || n.kind.ExecuteQuery?)
    && (n.idempotency == Replayable <==> n.kind.ClarificationInterrupt?)
    && (n.idempotency != ExecuteOnce ==>
          n.budget == NodeBudget(0, 0, 0) && n.inputs == [] && n.outputs == [] && n.policy.requiredCapability.None?)
    && n.policy.maxSensitivity == Pii && !n.policy.piiRequired
  }

  lemma NodesAreDeclared(id: WorkflowId, ids: seq<string>, catalog: Catalog, budgets: Budgets, facts: Facts,
                         w: Workflow, n: Node)
    requires CompileCapability(id, ids, catalog, budgets, facts) == Ok(w) && n in w.nodes
    ensures IsDeclared(n)
  {
    var c := FindApproved(catalog.capabilities, ids[0]).value;
    var (inputs, gadgets) := AcquireUpTo(c, facts, catalog, |c.policies|).value;
    AcquiredSoFar(c, facts, catalog, |c.policies|);
    if n in AllNodes(gadgets) {
      NodeOfGadget(gadgets, n);
      var g :| g in gadgets && n in GadgetNodes(g);
      GadgetNodeIsDeclared(g, n);
    }
  }
}
