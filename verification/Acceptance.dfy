/**
 * What the verifier (verify.rs) accepts, for any workflow: the tests of `Verify` against a
 * description of sound workflows that names no test.
 */
module Acceptance {
  import opened Wrappers
  import opened Contract
  import opened Catalogs
  import opened Graphs
  import opened Waves
  import opened Ledger
  import opened Verifier
  import opened CompiledVerdict

  // ------------------------------------------------------------------------ resources

  /** The first record of the capability is approved, and a query named with it is its own. */
  ghost predicate CapabilityExists(id: string, query: Option<string>, catalog: Catalog) {
    exists c :: FirstOf(catalog.capabilities, (x: Capability) => x.id == id, Some(c)) &&
                c.approved && (query.Some? ==> query.value == c.queryId)
  }

  /** What a node names is in the catalog, and a probe names a resolver. */
  ghost predicate ResourcesExist(n: Node, catalog: Catalog) {
    match n.kind
    case ExecuteQuery(capability, dataset, shape, query, _) =>
      && (capability.Some? ==> CapabilityExists(capability.value, query, catalog))
      && (query.Some? ==> exists q :: q in catalog.queries && q.id == query.value)
      && (dataset.Some? <==> shape.Some?)
      && (dataset.Some? && shape.Some? ==> exists x :: IsShapeAt(catalog, dataset.value, shape.value, x))
    case ResolveEntity(dataset, shape, _) => exists x :: IsShapeAt(catalog, dataset, shape, x) && x.role == Resolver
    case _ => true
  }

  lemma CapabilityExistsIff(id: string, query: Option<string>, catalog: Catalog)
    ensures CapabilityExists(id, query, catalog) <==>
            var found := FindCapability(catalog.capabilities, id);
            found.Some? && found.value.approved && (query.Some? ==> query.value == found.value.queryId)
  {
    var found := FindCapability(catalog.capabilities, id);
    FindCapabilityIsFirst(catalog.capabilities, id);
    if CapabilityExists(id, query, catalog) {
      var c :| FirstOf(catalog.capabilities, (x: Capability) => x.id == id, Some(c)) &&
               c.approved && (query.Some? ==> query.value == c.queryId);
      FirstIsDetermined(catalog.capabilities, (x: Capability) => x.id == id, found, Some(c));
    }
  }

  lemma ResourcesExistIff(n: Node, catalog: Catalog)
    ensures ResourcesExist(n, catalog) <==> CheckResources(n, catalog).None?
  {
    match n.kind
    case ExecuteQuery(capability, dataset, shape, query, _) =>
      if capability.Some? { CapabilityExistsIff(capability.value, query, catalog); }
      if query.Some? { FindQueryIsFirst(catalog.queries, query.value); }
      if dataset.Some? && shape.Some? { SomeShapeIff(catalog, dataset.value, shape.value); }
    case ResolveEntity(dataset, shape, _) => SomeShapeIff(catalog, dataset, shape);
    case _ =>
  }

  // ----------------------------------------------------------------- the node by itself

  /** Every node it refers to exists, a composition has a source, and a question leads on to where it resumes. */
  ghost predicate RefersToNodes(n: Node, w: Workflow) {
    match n.kind
    case CardinalityBranch(source, zero, one, many) => {source, zero, one, many} <= Ids(w.nodes)
    case ComposeResult(sources, _) => sources != [] && forall s :: s in sources ==> s in Ids(w.nodes)
    case ClarificationInterrupt(_, _, resume) => resume in Ids(w.nodes) && Reaches(GraphOf(w), n.id, resume)
    case _ => true
  }

  /** The caller may run it, it asks for the caller's offices, and it shows no more than the workflow may. */
  ghost predicate Permitted(n: Node, w: Workflow, who: Principal) {
    && (n.policy.piiRequired ==> who.canViewPii)
    && (forall id | n.policy.requiredCapability == Some(id) :: id in who.capabilities)
    && (forall id | n.kind.ExecuteQuery? && n.kind.capability == Some(id) :: id in who.capabilities)
    && (n.budget.queryCost > 0 ==>
          exists i :: i in n.inputs && i.parameter == "office_ids" && i.source == AuthorizedScope)
    && NoMoreSensitive(n.policy.maxSensitivity, w.output.maxSensitivity)
    && (forall o :: o in n.outputs ==> NoMoreSensitive(o.sensitivity, w.output.maxSensitivity))
  }

  lemma PermittedIff(n: Node, w: Workflow, who: Principal)
    ensures Permitted(n, w, who) <==>
            && ScopeBound(n) && SensitivityKept(w, n) && CapabilityAllowed(n, who)
            && (n.policy.piiRequired ==> who.canViewPii)
  {
    RankIsByName(n.policy.maxSensitivity, w.output.maxSensitivity);
    forall o | o in n.outputs { RankIsByName(o.sensitivity, w.output.maxSensitivity); }
  }

  // ------------------------------------------------------------------------- its inputs

  /** No character and no pair of dashes by which a name could be more than a name. */
  predicate IsPlainName(name: string) {
    && (forall c :: c in name ==> c !in {' ', ';', '"', '\'', '(', ')', '.'})
    && (forall i, j | 0 <= i < j < |name| && name[i] == name[j] == '-' :: i + 1 < j)
  }

  lemma PlainNameIff(name: string)
    ensures IsPlainName(name) <==> !LooksLikeSqlIdentifier(name)
  {
  }

  /** The words for a type in queries and in capabilities. */
  predicate Denotes(kind: string, t: ParameterType) {
    match t
    case DateType => kind == "date"
    case IntegerType => kind == "integer"
    case IntegerArrayType => kind == "integer_array" || kind == "array_bigint"
    case StringType => kind == "string"
    case CurrencyType => kind == "currency" || kind == "decimal"
  }

  lemma DenotesIff(kind: string, t: ParameterType)
    ensures Denotes(kind, t) <==> ParameterTypeOf(kind) == Some(t)
  {
  }

  /** `a` stands before `b` in the order. */
  ghost predicate Earlier(order: seq<NodeId>, a: NodeId, b: NodeId) {
    exists i, j :: 0 <= i < j < |order| && order[i] == a && order[j] == b
  }

  lemma EarlierIff(g: Graph, order: seq<NodeId>, a: NodeId, b: NodeId)
    requires IsTopological(g, order) && a in g.nodes && b in g.nodes
    ensures Earlier(order, a, b) <==> !AtOrAfter(Position(order, a), Position(order, b))
  {
    var i :| 0 <= i < |order| && order[i] == a;
    var j :| 0 <= j < |order| && order[j] == b;
    PositionIsIndex(order, i);
    PositionIsIndex(order, j);
  }

  /** What is read of another node is a slot it declares, of that type, that the reader may see. */
  ghost predicate ReadsSlot(input: NodeInput, n: Node, p: Node, slot: string) {
    exists o :: FirstOf(p.outputs, (x: OutputSlot) => x.name == slot, Some(o)) &&
                o.kind == input.kind && NoMoreSensitive(o.sensitivity, n.policy.maxSensitivity)
  }

  /** An answer is that of an earlier question, and a slot that of an earlier node. */
  ghost predicate SourceIsSound(input: NodeInput, n: Node, w: Workflow, order: seq<NodeId>) {
    match input.source
    case AuthorizedScope => input.parameter == "office_ids" && input.kind == IntegerArrayType
    case SafePriorSelection(m) =>
      exists p :: p in w.nodes && p.id == m && p.kind.ClarificationInterrupt? && Earlier(order, m, n.id)
    case PriorStep(m, slot) =>
      Earlier(order, m, n.id) && exists p :: p in w.nodes && p.id == m && ReadsSlot(input, n, p, slot)
    case AuthorizedDataProbe(m, slot) =>
      Earlier(order, m, n.id) && exists p :: p in w.nodes && p.id == m && ReadsSlot(input, n, p, slot)
    case _ => true
  }

  lemma {:induction false} FindOutputIsFirst(all: seq<OutputSlot>, name: string)
    ensures FirstOf(all, (o: OutputSlot) => o.name == name, FindOutput(all, name))
  {
    if all != [] {
      FindOutputIsFirst(all[1..], name);
      FirstOfNext(all, (o: OutputSlot) => o.name == name, FindOutput(all[1..], name));
    }
  }

  lemma ReadsSlotIff(input: NodeInput, n: Node, p: Node, slot: string)
    ensures ReadsSlot(input, n, p, slot) <==>
            var found := FindOutput(p.outputs, slot);
            && found.Some? && found.value.kind == input.kind
            && Rank(found.value.sensitivity) <= Rank(n.policy.maxSensitivity)
  {
    var found := FindOutput(p.outputs, slot);
    FindOutputIsFirst(p.outputs, slot);
    if found.Some? { RankIsByName(found.value.sensitivity, n.policy.maxSensitivity); }
    if ReadsSlot(input, n, p, slot) {
      var o :| FirstOf(p.outputs, (x: OutputSlot) => x.name == slot, Some(o)) &&
               o.kind == input.kind && NoMoreSensitive(o.sensitivity, n.policy.maxSensitivity);
      FirstIsDetermined(p.outputs, (x: OutputSlot) => x.name == slot, found, Some(o));
    }
  }

  lemma FoundIsSole(w: Workflow, p: Node)
    requires UniqueIds(w.nodes) && p in w.nodes
    ensures FindNode(w.nodes, p.id) == Some(p)
  {
    var found := FindNode(w.nodes, p.id).value;
    var i :| 0 <= i < |w.nodes| && w.nodes[i] == p;
    var j :| 0 <= j < |w.nodes| && w.nodes[j] == found;
  }

  lemma SourceIsSoundIff(input: NodeInput, n: Node, w: Workflow, order: seq<NodeId>)
    requires UniqueIds(w.nodes) && IsTopological(GraphOf(w), order) && n in w.nodes
    ensures SourceIsSound(input, n, w, order) <==>
            && CheckSource(input, n, w, order).None?
            && (input.source.AuthorizedScope? ==> input.parameter == "office_ids" && input.kind == IntegerArrayType)
  {
    var producer := ProducerOf(input.source);
    if producer.Some? && FindNode(w.nodes, producer.value).Some? {
      var p := FindNode(w.nodes, producer.value).value;
      EarlierIff(GraphOf(w), order, p.id, n.id);
      forall q | q in w.nodes && q.id == p.id ensures q == p { FoundIsSole(w, q); }
      if !input.source.SafePriorSelection? { ReadsSlotIff(input, n, p, input.source.slot); }
    }
  }

  // -------------------------------------------------------------- its query's parameters

  lemma {:induction false} FindParameterIsFirst(all: seq<QueryParameter>, name: string)
    ensures FirstOf(all, (p: QueryParameter) => p.name == name, FindParameter(all, name))
  {
    if all != [] {
      FindParameterIsFirst(all[1..], name);
      FirstOfNext(all, (p: QueryParameter) => p.name == name, FindParameter(all[1..], name));
    }
  }

  /** The node runs this query of the catalog. */
  ghost predicate Runs(n: Node, catalog: Catalog, q: Query) {
    n.kind.ExecuteQuery? && n.kind.query.Some? &&
    FirstOf(catalog.queries, (x: Query) => x.id == n.kind.query.value, Some(q))
  }

  /** The query's own parameter of that name, if any, has the type, and a required secret is a string. */
  ghost predicate FitsQuery(input: NodeInput, q: Query) {
    forall p | FirstOf(q.parameters, (x: QueryParameter) => x.name == input.parameter, Some(p)) ::
      Denotes(p.kind, input.kind) && (p.required && input.source.ExactSensitiveInput? ==> input.kind == StringType)
  }

  ghost predicate BindsRequired(n: Node, q: Query) {
    forall p | p in q.parameters && p.required :: exists i :: i in n.inputs && i.parameter == p.name
  }

  lemma RunsIff(n: Node, catalog: Catalog, q: Query)
    requires n.kind.ExecuteQuery? && n.kind.query.Some?
    ensures Runs(n, catalog, q) <==> FindQuery(catalog.queries, n.kind.query.value) == Some(q)
  {
    FindQueryIsFirst(catalog.queries, n.kind.query.value);
    if Runs(n, catalog, q) {
      FirstIsDetermined(catalog.queries, (x: Query) => x.id == n.kind.query.value,
                        FindQuery(catalog.queries, n.kind.query.value), Some(q));
    }
  }

  lemma FitsQueryIff(input: NodeInput, n: Node, catalog: Catalog, q: Query)
    requires n.kind.ExecuteQuery? && n.kind.query.Some? && FindQuery(catalog.queries, n.kind.query.value) == Some(q)
    ensures FitsQuery(input, q) <==> CheckQueryType(input, n, catalog).None?
  {
    var found := FindParameter(q.parameters, input.parameter);
    FindParameterIsFirst(q.parameters, input.parameter);
    if found.Some? { DenotesIff(found.value.kind, input.kind); }
    forall p | FirstOf(q.parameters, (x: QueryParameter) => x.name == input.parameter, Some(p))
      ensures found == Some(p)
    {
      FirstIsDetermined(q.parameters, (x: QueryParameter) => x.name == input.parameter, found, Some(p));
    }
  }

  // ------------------------------------------------------------------------ acceptance

  ghost predicate InputsAreSound(n: Node, w: Workflow, order: seq<NodeId>, catalog: Catalog) {
    && (forall i | i in n.inputs :: IsPlainName(i.parameter) && SourceIsSound(i, n, w, order))
    && (forall q | Runs(n, catalog, q) :: BindsRequired(n, q) && forall i | i in n.inputs :: FitsQuery(i, q))
  }

  lemma InputIsSoundIff(input: NodeInput, n: Node, w: Workflow, order: seq<NodeId>, catalog: Catalog)
    requires UniqueIds(w.nodes) && IsTopological(GraphOf(w), order) && n in w.nodes
    ensures CheckInput(input, n, w, order, catalog).None? <==>
            && IsPlainName(input.parameter) && SourceIsSound(input, n, w, order)
            && CheckQueryType(input, n, catalog).None?
  {
    PlainNameIff(input.parameter);
    SourceIsSoundIff(input, n, w, order);
  }

  lemma InputsAreSoundIff(n: Node, w: Workflow, order: seq<NodeId>, catalog: Catalog)
    requires UniqueIds(w.nodes) && IsTopological(GraphOf(w), order) && n in w.nodes
    ensures InputsAreSound(n, w, order, catalog) <==>
            QueryInputsBound(n, catalog) && CheckInputs(n.inputs, n, w, order, catalog).None?
  {
    InputsPassIff(n.inputs, n, w, order, catalog);
    forall i | i in n.inputs
      ensures CheckInput(i, n, w, order, catalog).None? <==>
              IsPlainName(i.parameter) && SourceIsSound(i, n, w, order) && CheckQueryType(i, n, catalog).None?
    {
      InputIsSoundIff(i, n, w, order, catalog);
    }
    if n.kind.ExecuteQuery? && n.kind.query.Some? {
      var found := FindQuery(catalog.queries, n.kind.query.value);
      forall q ensures Runs(n, catalog, q) <==> found == Some(q) { RunsIff(n, catalog, q); }
      if found.Some? {
        forall i | i in n.inputs ensures FitsQuery(i, found.value) <==> CheckQueryType(i, n, catalog).None? {
          FitsQueryIff(i, n, catalog, found.value);
        }
      }
    }
  }

  ghost predicate NodeIsSound(n: Node, w: Workflow, order: seq<NodeId>, who: Principal, catalog: Catalog) {
    && ResourcesExist(n, catalog) && RefersToNodes(n, w) && Permitted(n, w, who)
    && InputsAreSound(n, w, order, catalog)
  }

  lemma NodeIsSoundIff(n: Node, w: Workflow, order: seq<NodeId>, who: Principal, catalog: Catalog)
    requires UniqueIds(w.nodes) && IsTopological(GraphOf(w), order) && n in w.nodes
    ensures NodeIsSound(n, w, order, who, catalog) <==> CheckNode(n, w, order, who, catalog).None?
  {
    ResourcesExistIff(n, catalog);
    PermittedIff(n, w, who);
    InputsAreSoundIff(n, w, order, catalog);
    RefersIff(n, w);
  }

  lemma RefersIff(n: Node, w: Workflow)
    ensures RefersToNodes(n, w) <==>
            && (forall r :: r in References(n) ==> r in Ids(w.nodes)) &&
               !(n.kind.ComposeResult? && n.kind.sources == [])
            && !(n.kind.ClarificationInterrupt? &&
                 (n.kind.resume !in Ids(w.nodes) || !Reaches(GraphOf(w), n.id, n.kind.resume)))
  {
    if n.kind.CardinalityBranch? {
      assert References(n) == [n.kind.source, n.kind.zero, n.kind.one, n.kind.many];
      assert forall r :: r in References(n) <==> r in {n.kind.source, n.kind.zero, n.kind.one, n.kind.many};
    }
  }

  /** The workflow as a whole: its graph, its end, its caps as the sums wrap, and its widest wave. */
  ghost predicate WorkflowIsSound(w: Workflow) {
    && !Cyclic(GraphOf(w)) && UniqueIds(w.nodes)
    && (forall e | e in w.edges :: e.source in Ids(w.nodes) && e.target in Ids(w.nodes))
    && (exists entry :: EntrySet(GraphOf(w)) == {entry})
    && (exists n :: n in w.nodes && n.kind.Complete?)
    && (w.failPolicy.ContinueLabelled? ==> w.output.allowsPartial)
    && CapsHold(w)
  }

  ghost predicate CapsHold(w: Workflow) {
    && Declared(w.nodes).queries % 0x1_0000 <= w.budgets.maxQueryCount
    && Declared(w.nodes).rows % 0x1_0000_0000_0000_0000 <= w.budgets.sharedRowCap
    && Declared(w.nodes).ms % 0x1_0000_0000_0000_0000 <= w.budgets.sharedTimeoutMs
    && w.budgets.maxParallelQueries > 0
    && forall k: nat :: |Wave(GraphOf(w), k)| <= w.budgets.maxParallelQueries
  }

  lemma CapsHoldIff(w: Workflow)
    requires !Cyclic(GraphOf(w)) && UniqueIds(w.nodes)
    ensures CapsHold(w) <==>
            && BudgetsAccepted(w) && w.budgets.maxParallelQueries > 0
            && WidthFrom(GraphOf(w), {}, 0) <= w.budgets.maxParallelQueries
  {
    GraphIsWellFormed(w);
    var waves := WidthIsWidestWave(GraphOf(w));
    forall k: nat ensures |Wave(GraphOf(w), k)| <= WidthFrom(GraphOf(w), {}, 0) {
      if k < waves { WidestBounds(GraphOf(w), waves, k); } else { assert Wave(GraphOf(w), k) == []; }
    }
    if Widest(GraphOf(w), waves) > 0 { var k := WidestIsAttained(GraphOf(w), waves); }
  }

  lemma WorkflowIsSoundIff(w: Workflow)
    ensures WorkflowIsSound(w) <==> WellShaped(w) && (w.failPolicy.ContinueLabelled? ==> w.output.allowsPartial)
  {
    if !Cyclic(GraphOf(w)) && UniqueIds(w.nodes) {
      CapsHoldIff(w);
      if SingleEntry(w) { ReachabilityTestIsRedundant(w); }
    }
  }

  lemma NodesAreSoundIff(w: Workflow, who: Principal, catalog: Catalog, order: seq<NodeId>)
    requires UniqueIds(w.nodes) && IsTopological(GraphOf(w), order)
    ensures (forall n | n in w.nodes :: NodeIsSound(n, w, order, who, catalog)) <==>
            CheckNodes(w.nodes, w, order, who, catalog).None?
  {
    ChecksPassIff(w.nodes, w, order, who, catalog);
    forall n | n in w.nodes
      ensures NodeIsSound(n, w, order, who, catalog) <==> CheckNode(n, w, order, who, catalog).None?
    {
      NodeIsSoundIff(n, w, order, who, catalog);
    }
  }

  /**
   * The verifier accepts a workflow if and only if the workflow as a whole and every node of
   * it are sound, whatever topological order its graph library returns.
   */
  lemma AcceptedIff(w: Workflow, who: Principal, catalog: Catalog, order: seq<NodeId>)
    requires UniqueIds(w.nodes) && !Cyclic(GraphOf(w)) ==> IsTopological(GraphOf(w), order)
    ensures Accepted(w, who, catalog, order) <==>
            WorkflowIsSound(w) && forall n | n in w.nodes :: NodeIsSound(n, w, order, who, catalog)
  {
    WorkflowIsSoundIff(w);
    if WorkflowIsSound(w) { NodesAreSoundIff(w, who, catalog, order); }
  }
}
