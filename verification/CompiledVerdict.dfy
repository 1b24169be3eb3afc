/**
 * When the verifier accepts what the compiler made from a capability: one condition over
 * policies, catalog, principal and budgets, for all facts and every topological order.
 */
module CompiledVerdict {
  import opened Wrappers
  import opened Contract
  import opened Catalogs
  import opened Graphs
  import opened Waves
  import opened Ledger
  import opened Compiler
  import opened CompiledShape
  import opened CompiledAcceptance
  import opened Acquisition
  import opened Verifier

  // ------------------------------------------------------------------ nodes and their place

  lemma IndexOf(nodes: seq<Node>, n: Node) returns (i: nat)
    requires n in nodes
    ensures i < |nodes| && nodes[i] == n
  {
    i :| i < |nodes| && nodes[i] == n;
  }

  lemma MemberIsFound(nodes: seq<Node>, n: Node)
    requires UniqueIds(nodes) && n in nodes
    ensures FindNode(nodes, n.id) == Some(n)
  {
    var i := IndexOf(nodes, n);
    FindNodeUnique(nodes, i);
  }

  lemma GadgetMember(w: Workflow, gadgets: seq<Gadget>, query: Node, g: Gadget, n: Node)
    requires IsCompiled(w, gadgets, query) && g in gadgets && n in GadgetNodes(g)
    ensures n in w.nodes
  {
    NodeOfGadget(gadgets, n);
  }

  /** Where the answer of a gadget's question arrives. */
  function QuestionOf(g: Gadget): NodeId {
    if g.Probing? then SelectId(g.name) else ClarifyId(g.name)
  }

  lemma QuestionPrecedes(w: Workflow, gadgets: seq<Gadget>, query: Node, g: Gadget, order: seq<NodeId>)
    requires IsCompiled(w, gadgets, query) && g in gadgets && IsTopological(GraphOf(w), order)
    ensures !AtOrAfter(Position(order, Head(g)), Position(order, EXECUTE))
    ensures !AtOrAfter(Position(order, QuestionOf(g)), Position(order, EXECUTE))
  {
    CompiledIds(w, gadgets, query);
    Levels(g.name);
    HeadLeadsToQuery(w, gadgets, query, g);
    assert Introduces(g, Head(g)) && Introduces(g, QuestionOf(g));
    ReachingComesFirst(w, order, Head(g), EXECUTE);
    if g.Probing? { SelectionLeadsToQuery(w, gadgets, query, g); }
    ReachingComesFirst(w, order, QuestionOf(g), EXECUTE);
  }

  lemma ReachingComesFirst(w: Workflow, order: seq<NodeId>, a: NodeId, b: NodeId)
    requires IsTopological(GraphOf(w), order) && a != b && a in Ids(w.nodes) && b in Ids(w.nodes)
    requires Reaches(GraphOf(w), a, b)
    ensures !AtOrAfter(Position(order, a), Position(order, b))
  {
    GraphIsWellFormed(w);
    assert a in order && b in order;
    var i :| 0 <= i < |order| && order[i] == a;
    var j :| 0 <= j < |order| && order[j] == b;
    var p :| PathBetween(GraphOf(w), a, p, b);
    PathFollowsOrder(GraphOf(w), order, p, i, j);
    PositionIsIndex(order, i);
    PositionIsIndex(order, j);
  }

  // ---------------------------------------------------------------- sources of the bindings

  /** The slot of the gadget's probe is what the input reads, and may be read by the query. */
  predicate SlotFits(g: Gadget, producer: NodeId, slot: string, kind: ParameterType) {
    && g.Probing? && producer == ResolveId(g.name)
    && slot == g.slot.name && kind == g.slot.kind && !g.slot.sensitivity.NeverUse?
  }

  /** The value comes from no node, from a question of this workflow, or from a fitting probe of it. */
  ghost predicate SourceFits(gadgets: seq<Gadget>, input: NodeInput) {
    match input.source
    case SafePriorSelection(n) => exists g :: g in gadgets && n == QuestionOf(g)
    case PriorStep(n, slot) => SomeSlotFits(gadgets, n, slot, input.kind)
    case AuthorizedDataProbe(n, slot) => SomeSlotFits(gadgets, n, slot, input.kind)
    case _ => true
  }

  /** The interrupts of a compiled workflow are the questions of its gadgets. */
  lemma InterruptIsQuestion(w: Workflow, gadgets: seq<Gadget>, query: Node, n: Node)
    requires IsCompiled(w, gadgets, query) && ProbesResolve(gadgets) && n in w.nodes
    ensures n.kind.ClarificationInterrupt? ==> exists g :: g in gadgets && n.id == QuestionOf(g)
  {
    if n.kind.ClarificationInterrupt? {
      assert n in AllNodes(gadgets);
      NodeOfGadget(gadgets, n);
      var g :| g in gadgets && n in GadgetNodes(g);
      GadgetInterrupt(g, n);
    }
  }

  lemma QuestionNode(g: Gadget) returns (n: Node)
    ensures n in GadgetNodes(g) && n.id == QuestionOf(g) && n.kind.ClarificationInterrupt?
  {
    n := GadgetNodes(g)[if g.Probing? then 3 else 0];
  }

  lemma QuestionVerifiesIff(w: Workflow, gadgets: seq<Gadget>, query: Node, input: NodeInput, order: seq<NodeId>)
    requires IsCompiled(w, gadgets, query) && ProbesResolve(gadgets) && UniqueIds(w.nodes)
    requires IsTopological(GraphOf(w), order) && input.source.SafePriorSelection?
    ensures CheckSource(input, query, w, order).None? <==> SourceFits(gadgets, input)
  {
    var id := input.source.clarification;
    if g :| g in gadgets && id == QuestionOf(g) {
      var n := QuestionNode(g);
      GadgetMember(w, gadgets, query, g, n);
      MemberIsFound(w.nodes, n);
      QuestionPrecedes(w, gadgets, query, g, order);
    } else if FindNode(w.nodes, id).Some? {
      InterruptIsQuestion(w, gadgets, query, FindNode(w.nodes, id).value);
    }
  }

  /** Only the probes of a compiled workflow have output slots, one each. */
  lemma OutputIsProbeSlot(w: Workflow, gadgets: seq<Gadget>, query: Node, n: Node)
    requires IsCompiled(w, gadgets, query) && query.outputs == [] && n in w.nodes
    ensures n.outputs == []
            || exists g :: g in gadgets && g.Probing? && n.id == ResolveId(g.name) && n.outputs == [g.slot]
  {
    if n in AllNodes(gadgets) {
      NodeOfGadget(gadgets, n);
      var g :| g in gadgets && n in GadgetNodes(g);
    }
  }

  /** What the query may see of a compiled workflow. */
  ghost predicate SeesAll(query: Node) {
    query.outputs == [] && query.policy.maxSensitivity.Pii?
  }

  lemma FoundSlotVerifies(w: Workflow, query: Node, input: NodeInput, order: seq<NodeId>, n: Node, slot: OutputSlot)
    requires FindNode(w.nodes, n.id) == Some(n) && n.outputs == [slot] && query.policy.maxSensitivity.Pii?
    requires !AtOrAfter(Position(order, n.id), Position(order, query.id))
    requires slot.kind == input.kind && !slot.sensitivity.NeverUse?
    ensures CheckProducer(input, query, w, order, n.id, slot.name).None?
  {
    OneSlot(n.outputs, slot);
  }

  lemma ProbeNode(g: Gadget) returns (n: Node)
    requires g.Probing?
    ensures n in GadgetNodes(g) && n.id == Head(g) && n.outputs == [g.slot]
  {
    n := GadgetNodes(g)[0];
  }

  lemma FittingSlotVerifies(w: Workflow, gadgets: seq<Gadget>, query: Node, input: NodeInput, order: seq<NodeId>,
                            g: Gadget, id: NodeId, slot: string)
    requires IsCompiled(w, gadgets, query) && UniqueIds(w.nodes) && SeesAll(query) && IsTopological(GraphOf(w), order)
    requires g in gadgets && SlotFits(g, id, slot, input.kind)
    ensures CheckProducer(input, query, w, order, id, slot).None?
  {
    var n := ProbeNode(g);
    GadgetMember(w, gadgets, query, g, n);
    MemberIsFound(w.nodes, n);
    QuestionPrecedes(w, gadgets, query, g, order);
    FoundSlotVerifies(w, query, input, order, n, g.slot);
  }

  lemma VerifiedSlot(w: Workflow, query: Node, input: NodeInput, order: seq<NodeId>, id: NodeId, slot: string)
      returns (n: Node, o: OutputSlot)
    requires query.policy.maxSensitivity.Pii? && CheckProducer(input, query, w, order, id, slot).None?
    ensures n in w.nodes && n.id == id && FindOutput(n.outputs, slot) == Some(o)
    ensures o.kind == input.kind && !o.sensitivity.NeverUse?
  {
    n := FindNode(w.nodes, id).value;
    o := FindOutput(n.outputs, slot).value;
  }

  /** A slot the verifier finds is that of some probe. */
  lemma VerifiedSlotFits(w: Workflow, gadgets: seq<Gadget>, query: Node, input: NodeInput, order: seq<NodeId>,
                         id: NodeId, slot: string) returns (g: Gadget)
    requires IsCompiled(w, gadgets, query) && SeesAll(query)
    requires CheckProducer(input, query, w, order, id, slot).None?
    ensures g in gadgets && SlotFits(g, id, slot, input.kind)
  {
    var n, o := VerifiedSlot(w, query, input, order, id, slot);
    OutputIsProbeSlot(w, gadgets, query, n);
    g :| g in gadgets && g.Probing? && n.id == ResolveId(g.name) && n.outputs == [g.slot];
    OneSlot(n.outputs, g.slot);
  }

  ghost predicate SomeSlotFits(gadgets: seq<Gadget>, id: NodeId, slot: string, kind: ParameterType) {
    exists g :: g in gadgets && SlotFits(g, id, slot, kind)
  }

  lemma SlotVerifiesIff(w: Workflow, gadgets: seq<Gadget>, query: Node, input: NodeInput, order: seq<NodeId>,
                        id: NodeId, slot: string)
    requires IsCompiled(w, gadgets, query) && UniqueIds(w.nodes) && SeesAll(query) && IsTopological(GraphOf(w), order)
    ensures CheckProducer(input, query, w, order, id, slot).None? <==> SomeSlotFits(gadgets, id, slot, input.kind)
  {
    if CheckProducer(input, query, w, order, id, slot).None? {
      var g := VerifiedSlotFits(w, gadgets, query, input, order, id, slot);
    } else if g :| g in gadgets && SlotFits(g, id, slot, input.kind) {
      FittingSlotVerifies(w, gadgets, query, input, order, g, id, slot);
    }
  }

  lemma OneSlot(outputs: seq<OutputSlot>, slot: OutputSlot)
    requires outputs == [slot]
    ensures forall name :: FindOutput(outputs, name) == if slot.name == name then Some(slot) else None
  {
    assert outputs[1..] == [];
  }

  /** When the verifier accepts where a compiled binding comes from, whatever facts were given. */
  lemma SourceVerifiesIff(w: Workflow, gadgets: seq<Gadget>, query: Node, input: NodeInput, order: seq<NodeId>)
    requires IsCompiled(w, gadgets, query) && ProbesResolve(gadgets) && UniqueIds(w.nodes)
    requires SeesAll(query) && IsTopological(GraphOf(w), order)
    ensures CheckSource(input, query, w, order).None? <==> SourceFits(gadgets, input)
  {
    match input.source
    case SafePriorSelection(_) => QuestionVerifiesIff(w, gadgets, query, input, order);
    case PriorStep(n, slot) => SlotVerifiesIff(w, gadgets, query, input, order, n, slot);
    case AuthorizedDataProbe(n, slot) => SlotVerifiesIff(w, gadgets, query, input, order, n, slot);
    case _ =>
  }

  // --------------------------------------------------------------------- single nodes

  lemma {:induction false} ChecksPassIff(nodes: seq<Node>, w: Workflow, order: seq<NodeId>, principal: Principal,
                                         catalog: Catalog)
    ensures CheckNodes(nodes, w, order, principal, catalog).None? <==>
            forall n :: n in nodes ==> CheckNode(n, w, order, principal, catalog).None?
  {
    if nodes != [] {
      ChecksPassIff(nodes[1..], w, order, principal, catalog);
      assert forall n :: n in nodes <==> n == nodes[0] || n in nodes[1..];
    }
  }

  lemma {:induction false} InputsPassIff(inputs: seq<NodeInput>, consumer: Node, w: Workflow, order: seq<NodeId>,
                                         catalog: Catalog)
    ensures CheckInputs(inputs, consumer, w, order, catalog).None? <==>
            forall i :: i in inputs ==> CheckInput(i, consumer, w, order, catalog).None?
  {
    if inputs != [] {
      InputsPassIff(inputs[1..], consumer, w, order, catalog);
      assert forall i :: i in inputs <==> i == inputs[0] || i in inputs[1..];
    }
  }

  lemma ScopeNameIsPlain()
    ensures !LooksLikeSqlIdentifier("office_ids")
  {
    var s := "office_ids";
    assert forall c :: c in s ==> 'a' <= c <= 'z' || c == '_';
  }

  /** Nodes without resources, cost, inputs and outputs pass unless they refer to a node that is missing. */
  lemma QuietNodePasses(n: Node, w: Workflow, order: seq<NodeId>, principal: Principal, catalog: Catalog)
    requires n.kind.CardinalityBranch? || n.kind.Complete? || n.kind.ClarificationInterrupt?
    requires n.inputs == [] && n.outputs == [] && n.policy == PolicyOf(None) && n.budget == FREE
    requires w.output.maxSensitivity.Pii? && forall r :: r in References(n) ==> r in Ids(w.nodes)
    requires n.kind.ClarificationInterrupt? ==>
             n.kind.resume in Ids(w.nodes) && Reaches(GraphOf(w), n.id, n.kind.resume)
    ensures CheckNode(n, w, order, principal, catalog).None?
  {
  }

  /** A probe node passes if its shape is a resolver, its slot may be used and its backing is allowed. */
  predicate ProbeFits(g: Gadget, principal: Principal, catalog: Catalog) {
    g.Probing? && g.probe.ResolveEntity? ==>
      && g.backing in principal.capabilities && !g.slot.sensitivity.NeverUse?
      && ResolverKnown(g.probe.probeDataset, g.probe.probeShape, catalog)
  }

  predicate ResolverKnown(dataset: string, shape: string, catalog: Catalog) {
    LookUpShape(catalog, dataset, shape).Some? && LookUpShape(catalog, dataset, shape).value.role.Resolver?
  }

  lemma ScopeInputPasses(n: Node, w: Workflow, order: seq<NodeId>, catalog: Catalog)
    requires n.kind.ResolveEntity?
    ensures CheckInputs([SCOPE], n, w, order, catalog).None?
  {
    ScopeNameIsPlain();
    assert [SCOPE][1..] == [];
  }

  lemma ProbeNodeVerdict(n: Node, g: Gadget, w: Workflow, order: seq<NodeId>, principal: Principal, catalog: Catalog)
    requires g.Probing? && g.probe.ResolveEntity? && w.output.maxSensitivity.Pii?
    requires n.kind == g.probe && n.inputs == [SCOPE] && n.outputs == [g.slot] && n.policy == PolicyOf(Some(g.backing))
    ensures CheckNode(n, w, order, principal, catalog).None? <==> ProbeFits(g, principal, catalog)
  {
    ScopeInputPasses(n, w, order, catalog);
    assert SCOPE in n.inputs && g.slot in n.outputs;
    assert CheckResources(n, catalog).None? <==> ResolverKnown(g.probe.probeDataset, g.probe.probeShape, catalog);
  }

  /** What kind of node this is in its gadget. */
  lemma GadgetNodeKinds(g: Gadget, n: Node)
    requires n in GadgetNodes(g)
    ensures
      || (g.Probing? && n.kind == g.probe && n.inputs == [SCOPE] && n.outputs == [g.slot]
          && n.policy == PolicyOf(Some(g.backing)))
      || (n.inputs == [] && n.outputs == [] && n.policy == PolicyOf(None) && n.budget == FREE
          && (n.kind.CardinalityBranch? || n.kind.Complete? || n.kind.ClarificationInterrupt?))
    ensures !(g.Probing? && n.kind == g.probe) ==>
              forall r :: r in References(n) ==> r == EXECUTE || Introduces(g, r)
  {
  }

  lemma QuietGadgetNode(w: Workflow, gadgets: seq<Gadget>, query: Node, g: Gadget, n: Node, order: seq<NodeId>,
                        principal: Principal, catalog: Catalog)
    requires IsCompiled(w, gadgets, query) && ProbesResolve(gadgets) && g in gadgets && n in GadgetNodes(g)
    requires w.output.maxSensitivity.Pii? && !(g.Probing? && n.kind == g.probe)
    ensures CheckNode(n, w, order, principal, catalog).None?
  {
    GadgetNodeKinds(g, n);
    CompiledIds(w, gadgets, query);
    GadgetMember(w, gadgets, query, g, n);
    forall r | r in References(n) ensures r in Ids(w.nodes) {
      assert r == EXECUTE || Made(gadgets, r);
    }
    if n.kind.ClarificationInterrupt? { CompiledResumesReachable(w, gadgets, query, n); }
    QuietNodePasses(n, w, order, principal, catalog);
  }

  predicate IsProbe(g: Gadget, n: Node) {
    g.Probing? && n.kind == g.probe
  }

  lemma GadgetNodeVerdict(w: Workflow, gadgets: seq<Gadget>, query: Node, g: Gadget, n: Node, order: seq<NodeId>,
                          principal: Principal, catalog: Catalog)
    requires IsCompiled(w, gadgets, query) && ProbesResolve(gadgets) && g in gadgets && n in GadgetNodes(g)
    requires w.output.maxSensitivity.Pii?
    ensures CheckNode(n, w, order, principal, catalog).None? <==> (IsProbe(g, n) ==> ProbeFits(g, principal, catalog))
  {
    GadgetNodeKinds(g, n);
    if IsProbe(g, n) {
      ProbeNodeVerdict(n, g, w, order, principal, catalog);
    } else {
      QuietGadgetNode(w, gadgets, query, g, n, order, principal, catalog);
    }
  }

  ghost predicate AllPass(nodes: seq<Node>, w: Workflow, order: seq<NodeId>, principal: Principal, catalog: Catalog) {
    forall n :: n in nodes ==> CheckNode(n, w, order, principal, catalog).None?
  }

  lemma SomeProbe(g: Gadget) returns (n: Node)
    requires g.Probing?
    ensures n in GadgetNodes(g) && IsProbe(g, n)
  {
    n := GadgetNodes(g)[0];
  }

  lemma GadgetVerdict(w: Workflow, gadgets: seq<Gadget>, query: Node, g: Gadget, order: seq<NodeId>,
                      principal: Principal, catalog: Catalog)
    requires IsCompiled(w, gadgets, query) && ProbesResolve(gadgets) && g in gadgets && w.output.maxSensitivity.Pii?
    ensures AllPass(GadgetNodes(g), w, order, principal, catalog) <==> ProbeFits(g, principal, catalog)
  {
    var nodes := GadgetNodes(g);
    forall n | n in nodes
      ensures CheckNode(n, w, order, principal, catalog).None? <==> (IsProbe(g, n) ==> ProbeFits(g, principal, catalog))
    {
      GadgetNodeVerdict(w, gadgets, query, g, n, order, principal, catalog);
    }
    if g.Probing? { var n := SomeProbe(g); }
  }

  lemma GadgetsVerdict(w: Workflow, gadgets: seq<Gadget>, query: Node, order: seq<NodeId>, principal: Principal,
                       catalog: Catalog)
    requires IsCompiled(w, gadgets, query) && ProbesResolve(gadgets) && w.output.maxSensitivity.Pii?
    ensures AllPass(AllNodes(gadgets), w, order, principal, catalog) <==>
            forall g :: g in gadgets ==> ProbeFits(g, principal, catalog)
  {
    forall g | g in gadgets
      ensures AllPass(GadgetNodes(g), w, order, principal, catalog) <==> ProbeFits(g, principal, catalog)
    {
      GadgetVerdict(w, gadgets, query, g, order, principal, catalog);
    }
    PassByGadget(gadgets, w, order, principal, catalog);
  }

  lemma PassByGadget(gadgets: seq<Gadget>, w: Workflow, order: seq<NodeId>, principal: Principal, catalog: Catalog)
    ensures AllPass(AllNodes(gadgets), w, order, principal, catalog) <==>
            forall g :: g in gadgets ==> AllPass(GadgetNodes(g), w, order, principal, catalog)
  {
    forall n ensures n in AllNodes(gadgets) <==> exists g :: g in gadgets && n in GadgetNodes(g) {
      NodeOfGadget(gadgets, n);
    }
  }

  // ------------------------------------------------------------------------ the query

  /** The verifier finds the capability's record, its query and its recipe where the compiler put them. */
  predicate ResourcesKnown(capability: Capability, catalog: Catalog) {
    var first := FindCapability(catalog.capabilities, capability.id);
    && first.Some? && first.value.approved && first.value.queryId == capability.queryId
    && FindQuery(catalog.queries, capability.queryId).Some?
    && (capability.recipe.Some? ==>
          LookUpShape(catalog, capability.recipe.value.datasetId, capability.recipe.value.shapeId).Some?)
  }

  /** Every parameter the query requires is the caller's offices or has a policy. */
  predicate RequiredHavePolicies(capability: Capability, catalog: Catalog) {
    FindQuery(catalog.queries, capability.queryId).Some? ==>
      forall p :: p in FindQuery(catalog.queries, capability.queryId).value.parameters && p.required ==>
        p.name == "office_ids" || exists policy :: policy in capability.policies && policy.name == p.name
  }

  /** The query's own parameter of that name, if any, has the type, and a required secret is a string. */
  predicate TypeFits(capability: Capability, catalog: Catalog, input: NodeInput) {
    match FindQuery(catalog.queries, capability.queryId)
    case None => true
    case Some(q) =>
      match FindParameter(q.parameters, input.parameter)
      case None => true
      case Some(p) =>
        && ParameterTypeOf(p.kind) == Some(input.kind)
        && (p.required && input.source.ExactSensitiveInput? ==> input.kind.StringType?)
  }

  ghost predicate InputFits(capability: Capability, catalog: Catalog, gadgets: seq<Gadget>, input: NodeInput) {
    !LooksLikeSqlIdentifier(input.parameter) && SourceFits(gadgets, input) && TypeFits(capability, catalog, input)
  }

  ghost predicate OnlyScopeIsScope(inputs: seq<NodeInput>) {
    forall i :: i in inputs && i.source.AuthorizedScope? ==> i == SCOPE
  }

  predicate Bound(inputs: seq<NodeInput>, name: string) {
    exists i :: i in inputs && i.parameter == name
  }

  predicate PolicyBefore(capability: Capability, catalog: Catalog, i: nat, name: string)
    requires i <= |capability.policies|
  {
    exists j :: 0 <= j < i && capability.policies[j].name == name &&
        IsAcquired(capability, capability.policies[j], catalog)
  }

  lemma OneMoreBound(inputs: seq<NodeInput>, input: NodeInput, name: string)
    ensures Bound(inputs + [input], name) <==> Bound(inputs, name) || input.parameter == name
  {
    assert forall i :: i in inputs + [input] <==> i in inputs || i == input;
  }

  lemma PolicyBeforeStep(capability: Capability, catalog: Catalog, i: nat, name: string)
    requires i < |capability.policies|
    ensures PolicyBefore(capability, catalog, i + 1, name) <==>
            || PolicyBefore(capability, catalog, i, name)
            || (capability.policies[i].name == name && IsAcquired(capability, capability.policies[i], catalog))
  {
  }

  /** Which names are bound, and that nothing but the caller's offices is bound to the scope. */
  lemma {:induction false} InputsSoFar(capability: Capability, facts: Facts, catalog: Catalog, i: nat, name: string)
    requires i <= |capability.policies| && AcquireUpTo(capability, facts, catalog, i).Ok?
    ensures
      var inputs := AcquireUpTo(capability, facts, catalog, i).value.0;
      && SCOPE in inputs && OnlyScopeIsScope(inputs)
      && (Bound(inputs, name) <==> name == "office_ids" || PolicyBefore(capability, catalog, i, name))
  {
    if i == 0 {
      assert [SCOPE][0] in [SCOPE];
    } else {
      InputsSoFar(capability, facts, catalog, i - 1, name);
      var p := capability.policies[i - 1];
      var inputs := AcquireUpTo(capability, facts, catalog, i - 1).value.0;
      PolicyBeforeStep(capability, catalog, i - 1, name);
      if IsAcquired(capability, p, catalog) {
        var a := Acquire(capability, p, facts, catalog).value;
        AcquiredIsJustified(capability, p, facts, catalog, a);
        OneMoreBound(inputs, NodeInput(p.name, p.kind, a.source), name);
      }
    }
  }

  lemma QueryResources(capability: Capability, catalog: Catalog, inputs: seq<NodeInput>)
    ensures CheckResources(QueryNode(capability, catalog, inputs), catalog).None? <==>
            ResourcesKnown(capability, catalog)
  {
  }

  /** A required parameter with a policy is bound, since the query's requirement makes it acquired. */
  lemma RequiredIsBound(capability: Capability, facts: Facts, catalog: Catalog, q: Query, p: QueryParameter)
    requires AcquireUpTo(capability, facts, catalog, |capability.policies|).Ok?
    requires FindQuery(catalog.queries, capability.queryId) == Some(q) && p in q.parameters && p.required
    ensures Bound(AcquireUpTo(capability, facts, catalog, |capability.policies|).value.0, p.name) <==>
            p.name == "office_ids" || exists policy :: policy in capability.policies && policy.name == p.name
  {
    InputsSoFar(capability, facts, catalog, |capability.policies|, p.name);
    if p.name != "office_ids" {
      if policy :| policy in capability.policies && policy.name == p.name {
        var j :| 0 <= j < |capability.policies| && capability.policies[j] == policy;
        assert IsAcquired(capability, capability.policies[j], catalog);
      }
    }
  }

  lemma QueryBoundIff(capability: Capability, facts: Facts, catalog: Catalog)
    requires AcquireUpTo(capability, facts, catalog, |capability.policies|).Ok?
    ensures
      var inputs := AcquireUpTo(capability, facts, catalog, |capability.policies|).value.0;
      QueryInputsBound(QueryNode(capability, catalog, inputs), catalog) <==> RequiredHavePolicies(capability, catalog)
  {
    var inputs := AcquireUpTo(capability, facts, catalog, |capability.policies|).value.0;
    if FindQuery(catalog.queries, capability.queryId).Some? {
      var q := FindQuery(catalog.queries, capability.queryId).value;
      forall p | p in q.parameters && p.required
        ensures Bound(inputs, p.name) <==>
                p.name == "office_ids" || exists policy :: policy in capability.policies && policy.name == p.name
      {
        RequiredIsBound(capability, facts, catalog, q, p);
      }
      assert QueryInputsBound(QueryNode(capability, catalog, inputs), catalog) <==>
             forall p :: p in q.parameters && p.required ==> Bound(inputs, p.name);
    }
  }

  lemma TypeVerdict(capability: Capability, catalog: Catalog, inputs: seq<NodeInput>, input: NodeInput)
    ensures CheckQueryType(input, QueryNode(capability, catalog, inputs), catalog).None? <==>
            TypeFits(capability, catalog, input)
  {
  }

  lemma InputVerdict(w: Workflow, gadgets: seq<Gadget>, capability: Capability, catalog: Catalog,
                     inputs: seq<NodeInput>, input: NodeInput, order: seq<NodeId>)
    requires IsCompiled(w, gadgets, QueryNode(capability, catalog, inputs))
    requires ProbesResolve(gadgets) && UniqueIds(w.nodes)
    requires IsTopological(GraphOf(w), order) && input in inputs && OnlyScopeIsScope(inputs)
    ensures CheckInput(input, QueryNode(capability, catalog, inputs), w, order, catalog).None? <==>
            InputFits(capability, catalog, gadgets, input)
  {
    var query := QueryNode(capability, catalog, inputs);
    SourceVerifiesIff(w, gadgets, query, input, order);
    TypeVerdict(capability, catalog, inputs, input);
  }

  ghost predicate InputsFit(capability: Capability, catalog: Catalog, gadgets: seq<Gadget>, inputs: seq<NodeInput>) {
    forall i :: i in inputs ==> InputFits(capability, catalog, gadgets, i)
  }

  lemma QueryInputsVerdict(w: Workflow, gadgets: seq<Gadget>, capability: Capability, catalog: Catalog,
                           inputs: seq<NodeInput>, order: seq<NodeId>)
    requires IsCompiled(w, gadgets, QueryNode(capability, catalog, inputs))
    requires ProbesResolve(gadgets) && UniqueIds(w.nodes)
    requires IsTopological(GraphOf(w), order) && OnlyScopeIsScope(inputs)
    ensures CheckInputs(inputs, QueryNode(capability, catalog, inputs), w, order, catalog).None? <==>
            InputsFit(capability, catalog, gadgets, inputs)
  {
    var query := QueryNode(capability, catalog, inputs);
    InputsPassIff(inputs, query, w, order, catalog);
    forall i | i in inputs
      ensures CheckInput(i, query, w, order, catalog).None? <==> InputFits(capability, catalog, gadgets, i)
    {
      InputVerdict(w, gadgets, capability, catalog, inputs, i, order);
    }
  }

  ghost predicate QueryFits(capability: Capability, principal: Principal, catalog: Catalog, gadgets: seq<Gadget>,
                            inputs: seq<NodeInput>) {
    && ResourcesKnown(capability, catalog) && capability.id in principal.capabilities
    && RequiredHavePolicies(capability, catalog) && InputsFit(capability, catalog, gadgets, inputs)
  }

  lemma QueryVerdict(w: Workflow, gadgets: seq<Gadget>, capability: Capability, facts: Facts, catalog: Catalog,
                     order: seq<NodeId>, principal: Principal)
    requires AcquireUpTo(capability, facts, catalog, |capability.policies|).Ok?
    requires
      var inputs := AcquireUpTo(capability, facts, catalog, |capability.policies|).value.0;
      IsCompiled(w, gadgets, QueryNode(capability, catalog, inputs))
    requires ProbesResolve(gadgets) && UniqueIds(w.nodes)
    requires IsTopological(GraphOf(w), order) && w.output.maxSensitivity.Pii?
    ensures
      var inputs := AcquireUpTo(capability, facts, catalog, |capability.policies|).value.0;
      CheckNode(QueryNode(capability, catalog, inputs), w, order, principal, catalog).None? <==>
      QueryFits(capability, principal, catalog, gadgets, inputs)
  {
    var inputs := AcquireUpTo(capability, facts, catalog, |capability.policies|).value.0;
    InputsSoFar(capability, facts, catalog, |capability.policies|, "");
    QueryResources(capability, catalog, inputs);
    QueryBoundIff(capability, facts, catalog);
    QueryInputsVerdict(w, gadgets, capability, catalog, inputs, order);
    QueryChecks(QueryNode(capability, catalog, inputs), w, order, principal, catalog, capability);
  }

  /** For a query with scope and full sensitivity, four tests are left. */
  lemma QueryChecks(query: Node, w: Workflow, order: seq<NodeId>, principal: Principal, catalog: Catalog,
                    capability: Capability)
    requires query.kind.ExecuteQuery? && query.kind.capability == Some(capability.id) && SCOPE in query.inputs
    requires SeesAll(query) && query.policy == PolicyOf(Some(capability.id)) && w.output.maxSensitivity.Pii?
    ensures CheckNode(query, w, order, principal, catalog).None? <==>
            && CheckResources(query, catalog).None? && capability.id in principal.capabilities
            && QueryInputsBound(query, catalog) && CheckInputs(query.inputs, query, w, order, catalog).None?
  {
  }

  // ------------------------------------------------------------------- the whole workflow

  lemma FinishPasses(w: Workflow, order: seq<NodeId>, principal: Principal, catalog: Catalog)
    requires w.output.maxSensitivity.Pii?
    ensures CheckNode(FINISH, w, order, principal, catalog).None?
  {
    QuietNodePasses(FINISH, w, order, principal, catalog);
  }

  lemma ChecksByPart(w: Workflow, gadgets: seq<Gadget>, query: Node, order: seq<NodeId>, principal: Principal,
                     catalog: Catalog)
    requires IsCompiled(w, gadgets, query) && w.output.maxSensitivity.Pii?
    ensures CheckNodes(w.nodes, w, order, principal, catalog).None? <==>
            && AllPass(AllNodes(gadgets), w, order, principal, catalog)
            && CheckNode(query, w, order, principal, catalog).None?
  {
    ChecksPassIff(w.nodes, w, order, principal, catalog);
    FinishPasses(w, order, principal, catalog);
    assert forall n :: n in w.nodes <==> n in AllNodes(gadgets) || n == query || n == FINISH;
  }

  /** What the probe, if there is one, and the query declare together. */
  function CompiledTotals(gadgets: seq<Gadget>, query: Node): Totals
    requires |gadgets| <= 1
  {
    Plus(if gadgets != [] && gadgets[0].Probing? then Plus(ZERO, gadgets[0].budget) else ZERO, query.budget)
  }

  /** The totals under the caps; only the sum of timeouts can wrap. */
  predicate TotalsFit(t: Totals, budgets: Budgets) {
    && t.queries <= budgets.maxQueryCount && t.rows <= budgets.sharedRowCap
    && t.ms % U64_SPAN <= budgets.sharedTimeoutMs
  }

  lemma {:induction false} FreeAddsNothing(nodes: seq<Node>, n: Node)
    requires n.budget == FREE
    ensures Declared(nodes + [n]) == Declared(nodes)
  {
    DeclaredLast(nodes, n);
    PlusFree(Declared(nodes));
  }

  lemma PlusFree(t: Totals)
    ensures Plus(t, FREE) == t
  {
  }

  lemma OneByOne<T>(s: seq<T>, c: T, d: T)
    ensures s + [c, d] == (s + [c]) + [d]
  {
  }

  lemma TwoFree(nodes: seq<Node>, c: Node, d: Node)
    requires c.budget == FREE && d.budget == FREE
    ensures Declared(nodes + [c, d]) == Declared(nodes)
  {
    OneByOne(nodes, c, d);
    FreeAddsNothing(nodes, c);
    FreeAddsNothing(nodes + [c], d);
  }

  lemma FourInPairs<T>(a: T, b: T, c: T, d: T)
    ensures [a, b, c, d] == ([a] + [b]) + [c, d]
  {
  }

  lemma OneAndThreeFree(a: Node, b: Node, c: Node, d: Node)
    requires b.budget == FREE && c.budget == FREE && d.budget == FREE
    ensures Declared([a, b, c, d]) == Plus(ZERO, a.budget)
  {
    DeclaredOne(a);
    FreeAddsNothing([a], b);
    TwoFree([a] + [b], c, d);
    FourInPairs(a, b, c, d);
  }

  lemma GadgetBudgets(g: Gadget) returns (nodes: seq<Node>)
    ensures nodes == GadgetNodes(g)
    ensures g.Probing? ==>
              |nodes| == 4 && nodes[0].budget == g.budget && nodes[1].budget == FREE && nodes[2].budget == FREE
              && nodes[3].budget == FREE
    ensures g.Asking? ==> |nodes| == 1 && nodes[0].budget == FREE
  {
    nodes := GadgetNodes(g);
  }

  lemma OneFree(n: Node)
    requires n.budget == FREE
    ensures Declared([n]) == ZERO
  {
    FreeAddsNothing([], n);
    assert [] + [n] == [n];
  }

  lemma GadgetDeclares(g: Gadget)
    ensures Declared(GadgetNodes(g)) == if g.Probing? then Plus(ZERO, g.budget) else ZERO
  {
    var n := GadgetBudgets(g);
    if g.Probing? {
      OneAndThreeFree(n[0], n[1], n[2], n[3]);
      assert n == [n[0], n[1], n[2], n[3]];
    } else {
      OneFree(n[0]);
      assert n == [n[0]];
    }
  }

  lemma {:induction false} FrontAndTail(front: seq<Node>, query: Node, last: Node)
    requires last.budget == FREE
    ensures Declared(front + [query, last]) == Plus(Declared(front), query.budget)
  {
    DeclaredLast(front, query);
    FreeAddsNothing(front + [query], last);
    OneByOne(front, query, last);
  }

  lemma CompiledDeclares(w: Workflow, gadgets: seq<Gadget>, query: Node)
    requires IsCompiled(w, gadgets, query) && |gadgets| <= 1
    ensures Declared(w.nodes) == CompiledTotals(gadgets, query)
  {
    if gadgets != [] {
      assert gadgets == [gadgets[0]];
      OneGadget(gadgets[0]);
      GadgetDeclares(gadgets[0]);
    }
    FrontAndTail(AllNodes(gadgets), query, FINISH);
  }

  lemma BudgetVerdict(w: Workflow, gadgets: seq<Gadget>, query: Node)
    requires IsCompiled(w, gadgets, query) && |gadgets| <= 1
    ensures BudgetsAccepted(w) <==> TotalsFit(CompiledTotals(gadgets, query), w.budgets)
  {
    CompiledDeclares(w, gadgets, query);
    SmallSums(CompiledTotals(gadgets, query));
  }

  lemma SmallSums(t: Totals)
    requires t.queries < U16_SPAN && t.rows < U64_SPAN
    ensures t.queries % U16_SPAN == t.queries && t.rows % U64_SPAN == t.rows
  {
  }

  /**
   * The verifier accepts a compiled capability, whatever facts it was compiled with and
   * whatever topological order the graph library returns, exactly when all of this holds:
   * at most one parameter took a probe or a question; the declared totals fit the caps and,
   * with a probe, two queries may run in parallel; the catalog finds the capability's record,
   * query and recipe; the caller may use the capability; every parameter the query requires
   * has a policy; every binding has a plain name, the query's own type, and a source in this
   * workflow; and the probe, if any, has a resolver shape, a usable slot and a backing
   * capability the caller may use.
   */
  lemma CompiledAcceptedIff(id: WorkflowId, ids: seq<string>, catalog: Catalog, budgets: Budgets, facts: Facts,
                            w: Workflow, capability: Capability, principal: Principal, order: seq<NodeId>)
    requires CompiledFrom(id, ids, catalog, budgets, facts, w, capability)
    requires UniqueIds(w.nodes) ==> IsTopological(GraphOf(w), order)
    ensures AcquireUpTo(capability, facts, catalog, |capability.policies|).Ok?
    ensures
      var (inputs, gadgets) := AcquireUpTo(capability, facts, catalog, |capability.policies|).value;
      Accepted(w, principal, catalog, order) <==>
      && |gadgets| <= 1
      && TotalsFit(CompiledTotals(gadgets, QueryNode(capability, catalog, inputs)), budgets)
      && budgets.maxParallelQueries >= CompiledWidth(gadgets)
      && QueryFits(capability, principal, catalog, gadgets, inputs)
      && (forall g :: g in gadgets ==> ProbeFits(g, principal, catalog))
  {
    CompiledIsCompiled(id, ids, catalog, budgets, facts, w, capability);
    var (inputs, gadgets) := AcquireUpTo(capability, facts, catalog, |capability.policies|).value;
    var query := QueryNode(capability, catalog, inputs);
    CompiledShapeAcceptedIff(id, ids, catalog, budgets, facts, w, capability);
    if |gadgets| <= 1 {
      CompiledIds(w, gadgets, query);
      BudgetVerdict(w, gadgets, query);
      QueryVerdict(w, gadgets, capability, facts, catalog, order, principal);
      GadgetsVerdict(w, gadgets, query, order, principal, catalog);
      ChecksByPart(w, gadgets, query, order, principal, catalog);
    }
    ShapeAndChecks(w, principal, catalog, order);
  }

  lemma ShapeAndChecks(w: Workflow, principal: Principal, catalog: Catalog, order: seq<NodeId>)
    requires w.failPolicy.FailFast? && (UniqueIds(w.nodes) ==> IsTopological(GraphOf(w), order))
    ensures Accepted(w, principal, catalog, order) <==>
            WellShaped(w) && CheckNodes(w.nodes, w, order, principal, catalog).None?
  {
    if Accepted(w, principal, catalog, order) { AcceptedIsWellShaped(w, principal, catalog, order); }
    if WellShaped(w) && CheckNodes(w.nodes, w, order, principal, catalog).None? {
      ShapeAndChecksAccept(w, principal, catalog, order);
    }
  }
}
