/** The workflow verifier (verify.rs) and what its acceptance means. */
module Verifier {
  import opened Wrappers
  import opened Contract
  import opened Catalogs
  import opened Graphs
  import opened Waves
  import opened Ledger

  datatype VerifyError =
    | Cycle | UnknownResource | TypeIncompatibleBinding | DataDependentSqlIdentifier | MissingOfficeScope
    | BudgetExceeded | PartialResultsNotPermitted | SensitivityWidening | UnreachableOrOrphanNode
    | DanglingResume | UnboundRequiredInput | CapabilityNotPermitted

  datatype Principal = Principal(canViewPii: bool, capabilities: set<string>)

  // ------------------------------------------------------------ the dependency graph

  function NodeIds(nodes: seq<Node>): (r: seq<NodeId>)
    ensures |r| == |nodes| && forall i | 0 <= i < |nodes| :: r[i] == nodes[i].id
    ensures forall n :: n in r <==> n in Ids(nodes)
  {
    if nodes == [] then []
    else
      assert forall n :: n in nodes <==> n == nodes[0] || n in nodes[1..];
      [nodes[0].id] + NodeIds(nodes[1..])
  }

  /** Edges with an unknown end are left out of the graph. */
  function Arcs(edges: seq<Edge>, ids: set<NodeId>): (r: seq<(NodeId, NodeId)>)
    ensures forall a :: a in r <==>
              a.0 in ids && a.1 in ids && exists e :: e in edges && e.source == a.0 && e.target == a.1
  {
    if edges == [] then []
    else
      var rest := Arcs(edges[1..], ids);
      assert forall e :: e in edges <==> e == edges[0] || e in edges[1..];
      if edges[0].source in ids && edges[0].target in ids
      then [(edges[0].source, edges[0].target)] + rest else rest
  }

  lemma {:induction false} ArcsOfKnownEdges(edges: seq<Edge>, ids: set<NodeId>)
    requires forall e :: e in edges ==> e.source in ids && e.target in ids
    ensures |Arcs(edges, ids)| == |edges|
    ensures forall i | 0 <= i < |edges| :: Arcs(edges, ids)[i] == (edges[i].source, edges[i].target)
  {
    if edges != [] {
      assert edges[0] in edges;
      ArcsOfKnownEdges(edges[1..], ids);
    }
  }

  function GraphOf(w: Workflow): Graph {
    Graph(NodeIds(w.nodes), Arcs(w.edges, Ids(w.nodes)))
  }

  lemma GraphIsWellFormed(w: Workflow)
    ensures ArcsInside(GraphOf(w))
    ensures UniqueIds(w.nodes) ==> WellFormed(GraphOf(w))
  {
  }

  // ----------------------------------------------------------------- wrapping sums

  /** The three sums as a release build adds them: u16, u64 and u64, wrapping. */
  predicate BudgetsAccepted(w: Workflow) {
    && Declared(w.nodes).queries % U16_SPAN <= w.budgets.maxQueryCount
    && Declared(w.nodes).rows % U64_SPAN <= w.budgets.sharedRowCap
    && Declared(w.nodes).ms % U64_SPAN <= w.budgets.sharedTimeoutMs
  }

  // ------------------------------------------------------------------- single nodes

  function Rank(s: Sensitivity): nat {
    match s case PublicBusiness => 0 case MaskedOutput => 1 case FilterOnly => 2 case Pii => 3 case NeverUse => 4
  }

  predicate LooksLikeSqlIdentifier(value: string) {
    || (exists c :: c in value && c in {' ', ';', '"', '\'', '(', ')', '.'})
    || (exists i :: 0 <= i < |value| - 1 && value[i] == '-' && value[i + 1] == '-')
  }

  function ParameterTypeOf(kind: string): Option<ParameterType> {
    if kind == "date" then Some(DateType)
    else if kind == "integer" then Some(IntegerType)
    else if kind == "integer_array" || kind == "array_bigint" then Some(IntegerArrayType)
    else if kind == "string" then Some(StringType)
    else if kind == "currency" || kind == "decimal" then Some(CurrencyType)
    else None
  }

  function CheckResources(n: Node, catalog: Catalog): Option<VerifyError> {
    match n.kind
    case ExecuteQuery(capability, dataset, shape, query, _) =>
      if capability.Some? && FindCapability(catalog.capabilities, capability.value).None? then Some(UnknownResource)
      else if capability.Some? && !FindCapability(catalog.capabilities, capability.value).value.approved
      then Some(UnknownResource)
      else if capability.Some? && query.Some?
              && query.value != FindCapability(catalog.capabilities, capability.value).value.queryId
      then Some(UnknownResource)
      else if query.Some? && FindQuery(catalog.queries, query.value).None? then Some(UnknownResource)
      else if dataset.Some? != shape.Some? then Some(UnknownResource)
      else if dataset.Some? && FindDataset(catalog.datasets, dataset.value).None? then Some(UnknownResource)
      else if dataset.Some? && FindShape(FindDataset(catalog.datasets, dataset.value).value.shapes, shape.value).None?
      then Some(UnknownResource)
      else None
    case ResolveEntity(dataset, shape, _) =>
      (match FindDataset(catalog.datasets, dataset)
       case None => Some(UnknownResource)
       case Some(d) =>
         match FindShape(d.shapes, shape)
         case None => Some(UnknownResource)
         case Some(s) => if s.role.Resolver? then None else Some(UnknownResource))
    case _ => None
  }

  function References(n: Node): seq<NodeId> {
    match n.kind
    case CardinalityBranch(source, zero, one, many) => [source, zero, one, many]
    case ComposeResult(sources, _) => sources
    case _ => []
  }

  predicate QueryInputsBound(n: Node, catalog: Catalog) {
    n.kind.ExecuteQuery? && n.kind.query.Some? && FindQuery(catalog.queries, n.kind.query.value).Some? ==>
      forall p :: p in FindQuery(catalog.queries, n.kind.query.value).value.parameters && p.required ==>
        exists input :: input in n.inputs && input.parameter == p.name
  }

  predicate CapabilityAllowed(n: Node, principal: Principal) {
    && (n.policy.requiredCapability.Some? ==> n.policy.requiredCapability.value in principal.capabilities)
    && (n.kind.ExecuteQuery? && n.kind.capability.Some? ==> n.kind.capability.value in principal.capabilities)
  }

  predicate ScopeBound(n: Node) {
    n.budget.queryCost > 0 ==>
      exists input :: input in n.inputs && input.parameter == "office_ids" && input.source.AuthorizedScope?
  }

  predicate SensitivityKept(w: Workflow, n: Node) {
    && Rank(n.policy.maxSensitivity) <= Rank(w.output.maxSensitivity)
    && (forall o :: o in n.outputs ==> Rank(o.sensitivity) <= Rank(w.output.maxSensitivity))
  }

  // -------------------------------------------------------------------- single inputs

  function Position(order: seq<NodeId>, n: NodeId): Option<nat> {
    if order == [] then None
    else if order[0] == n then Some(0)
    else match Position(order[1..], n) case None => None case Some(i) => Some(i + 1)
  }

  /** Option comparison: a missing position is below every position. */
  predicate AtOrAfter(a: Option<nat>, b: Option<nat>) {
    match b
    case None => true
    case Some(j) => a.Some? && a.value >= j
  }

  function FindOutput(outputs: seq<OutputSlot>, name: string): Option<OutputSlot> {
    if outputs == [] then None else if outputs[0].name == name then Some(outputs[0]) else FindOutput(outputs[1..], name)
  }

  function CheckProducer(input: NodeInput, consumer: Node, w: Workflow, order: seq<NodeId>, producer: NodeId,
                         slot: string): Option<VerifyError> {
    match FindNode(w.nodes, producer)
    case None => Some(TypeIncompatibleBinding)
    case Some(p) =>
      if AtOrAfter(Position(order, producer), Position(order, consumer.id)) then Some(TypeIncompatibleBinding)
      else
        match FindOutput(p.outputs, slot)
        case None => Some(TypeIncompatibleBinding)
        case Some(o) =>
          if o.kind != input.kind || Rank(o.sensitivity) > Rank(consumer.policy.maxSensitivity)
          then Some(SensitivityWidening) else None
  }

  function CheckSource(input: NodeInput, consumer: Node, w: Workflow, order: seq<NodeId>): Option<VerifyError> {
    match input.source
    case SafePriorSelection(clarification) =>
      (match FindNode(w.nodes, clarification)
       case None => Some(TypeIncompatibleBinding)
       case Some(p) =>
         if AtOrAfter(Position(order, clarification), Position(order, consumer.id)) || !p.kind.ClarificationInterrupt?
         then Some(TypeIncompatibleBinding) else None)
    case PriorStep(producer, slot) => CheckProducer(input, consumer, w, order, producer, slot)
    case AuthorizedDataProbe(producer, slot) => CheckProducer(input, consumer, w, order, producer, slot)
    case _ => None
  }

  function FindParameter(all: seq<QueryParameter>, name: string): Option<QueryParameter> {
    if all == [] then None else if all[0].name == name then Some(all[0]) else FindParameter(all[1..], name)
  }

  function CheckQueryType(input: NodeInput, consumer: Node, catalog: Catalog): Option<VerifyError> {
    if !consumer.kind.ExecuteQuery? || consumer.kind.query.None? then None
    else
      match FindQuery(catalog.queries, consumer.kind.query.value)
      case None => None
      case Some(q) =>
        match FindParameter(q.parameters, input.parameter)
        case None => None
        case Some(p) =>
          if ParameterTypeOf(p.kind) != Some(input.kind) then Some(TypeIncompatibleBinding)
          else if p.required && input.source.ExactSensitiveInput? && input.kind != StringType
          then Some(UnboundRequiredInput) else None
  }

  function CheckInput(input: NodeInput, consumer: Node, w: Workflow, order: seq<NodeId>,
                      catalog: Catalog): Option<VerifyError> {
    if LooksLikeSqlIdentifier(input.parameter) then Some(DataDependentSqlIdentifier)
    else if input.source.AuthorizedScope? && (input.parameter != "office_ids" || input.kind != IntegerArrayType)
    then Some(TypeIncompatibleBinding)
    else
      match CheckSource(input, consumer, w, order)
      case Some(e) => Some(e)
      case None => CheckQueryType(input, consumer, catalog)
  }

  function CheckInputs(inputs: seq<NodeInput>, consumer: Node, w: Workflow, order: seq<NodeId>,
                       catalog: Catalog): Option<VerifyError> {
    if inputs == [] then None
    else
      match CheckInput(inputs[0], consumer, w, order, catalog)
      case Some(e) => Some(e)
      case None => CheckInputs(inputs[1..], consumer, w, order, catalog)
  }

  // --------------------------------------------------------------------- the verifier

  ghost function CheckNode(n: Node, w: Workflow, order: seq<NodeId>, principal: Principal,
                           catalog: Catalog): Option<VerifyError> {
    if CheckResources(n, catalog).Some? then CheckResources(n, catalog)
    else if (exists r :: r in References(n) && r !in Ids(w.nodes)) || (n.kind.ComposeResult? && n.kind.sources == [])
    then Some(UnreachableOrOrphanNode)
    else if !ScopeBound(n) then Some(MissingOfficeScope)
    else if !SensitivityKept(w, n) then Some(SensitivityWidening)
    else if n.policy.piiRequired && !principal.canViewPii then Some(CapabilityNotPermitted)
    else if !CapabilityAllowed(n, principal) then Some(CapabilityNotPermitted)
    else if !QueryInputsBound(n, catalog) then Some(UnboundRequiredInput)
    else if CheckInputs(n.inputs, n, w, order, catalog).Some? then CheckInputs(n.inputs, n, w, order, catalog)
    else if n.kind.ClarificationInterrupt?
            && (n.kind.resume !in Ids(w.nodes) || !Reaches(GraphOf(w), n.id, n.kind.resume))
    then Some(DanglingResume)
    else None
  }

  ghost function CheckNodes(nodes: seq<Node>, w: Workflow, order: seq<NodeId>, principal: Principal,
                            catalog: Catalog): Option<VerifyError> {
    if nodes == [] then None
    else
      var first := CheckNode(nodes[0], w, order, principal, catalog);
      if first.Some? then first else CheckNodes(nodes[1..], w, order, principal, catalog)
  }

  /** Exactly one node has no incoming arc; `EntrySet` is that of `entry_nodes`. */
  ghost predicate SingleEntry(w: Workflow) {
    exists entry :: EntrySet(GraphOf(w)) == {entry}
  }

  ghost predicate AllReachable(w: Workflow) {
    forall e, n | e in EntrySet(GraphOf(w)) && n in Ids(w.nodes) :: Reaches(GraphOf(w), e, n)
  }

  predicate EdgesKnown(w: Workflow) {
    forall e :: e in w.edges ==> e.source in Ids(w.nodes) && e.target in Ids(w.nodes)
  }

  predicate HasComplete(w: Workflow) {
    exists n :: n in w.nodes && n.kind.Complete?
  }

  /**
   * `verify`, in the order of its tests. `order` is whatever topological order the graph
   * library returns once the graph is known to be acyclic.
   */
  ghost function Verify(w: Workflow, principal: Principal, catalog: Catalog, order: seq<NodeId>): Result<Workflow,
                        VerifyError>
    requires UniqueIds(w.nodes) && !Cyclic(GraphOf(w)) ==> IsTopological(GraphOf(w), order)
  {
    if Cyclic(GraphOf(w)) then Err(Cycle)
    else if !UniqueIds(w.nodes) || !EdgesKnown(w) || !SingleEntry(w) || !HasComplete(w)
    then Err(UnreachableOrOrphanNode)
    else if !AllReachable(w) then Err(UnreachableOrOrphanNode)
    else if w.failPolicy.ContinueLabelled? && !w.output.allowsPartial then Err(PartialResultsNotPermitted)
    else if !BudgetsAccepted(w) || w.budgets.maxParallelQueries == 0
            || WidthFrom(GraphOf(w), {}, 0) > w.budgets.maxParallelQueries
    then Err(BudgetExceeded)
    else
      match CheckNodes(w.nodes, w, order, principal, catalog)
      case Some(e) => Err(e)
      case None => Ok(w)
  }

  ghost predicate Accepted(w: Workflow, principal: Principal, catalog: Catalog, order: seq<NodeId>) {
    && (UniqueIds(w.nodes) && !Cyclic(GraphOf(w)) ==> IsTopological(GraphOf(w), order))
    && Verify(w, principal, catalog, order).Ok?
  }

  lemma {:induction false} EveryNodeChecked(nodes: seq<Node>, n: Node, w: Workflow, order: seq<NodeId>,
                                            principal: Principal, catalog: Catalog)
    requires CheckNodes(nodes, w, order, principal, catalog).None? && n in nodes
    ensures CheckNode(n, w, order, principal, catalog).None?
  {
    if n != nodes[0] {
      EveryNodeChecked(nodes[1..], n, w, order, principal, catalog);
    }
  }

  lemma {:induction false} EveryInputChecked(inputs: seq<NodeInput>, input: NodeInput, n: Node, w: Workflow,
                                             order: seq<NodeId>, catalog: Catalog)
    requires CheckInputs(inputs, n, w, order, catalog).None? && input in inputs
    ensures CheckInput(input, n, w, order, catalog).None?
  {
    if input != inputs[0] {
      EveryInputChecked(inputs[1..], input, n, w, order, catalog);
    }
  }

  /**
   * The verifier's reachability test is implied by the tests before it: it never rejects
   * a workflow that has passed them.
   */
  lemma ReachabilityTestIsRedundant(w: Workflow)
    requires !Cyclic(GraphOf(w)) && UniqueIds(w.nodes) && SingleEntry(w)
    ensures AllReachable(w)
  {
    GraphIsWellFormed(w);
    var entry :| EntrySet(GraphOf(w)) == {entry};
    SingleEntryReachesAll(GraphOf(w), entry);
    forall e, n | e in EntrySet(GraphOf(w)) && n in Ids(w.nodes) ensures Reaches(GraphOf(w), e, n) {
      assert n in GraphOf(w).nodes;
    }
  }

  /** What acceptance says about the workflow as a whole. */
  ghost predicate WellShaped(w: Workflow) {
    && !Cyclic(GraphOf(w)) && UniqueIds(w.nodes) && EdgesKnown(w) && SingleEntry(w) && AllReachable(w)
    && HasComplete(w) && BudgetsAccepted(w)
    && 1 <= w.budgets.maxParallelQueries && WidthFrom(GraphOf(w), {}, 0) <= w.budgets.maxParallelQueries
  }

  lemma AcceptedIsWellShaped(w: Workflow, principal: Principal, catalog: Catalog, order: seq<NodeId>)
    requires Accepted(w, principal, catalog, order)
    ensures WellShaped(w) && IsTopological(GraphOf(w), order)
    ensures CheckNodes(w.nodes, w, order, principal, catalog).None?
  {
  }

  /** The converse: the tests of the whole workflow and of every node are all there is. */
  lemma ShapeAndChecksAccept(w: Workflow, principal: Principal, catalog: Catalog, order: seq<NodeId>)
    requires WellShaped(w) && IsTopological(GraphOf(w), order)
    requires w.failPolicy.ContinueLabelled? ==> w.output.allowsPartial
    requires CheckNodes(w.nodes, w, order, principal, catalog).None?
    ensures Accepted(w, principal, catalog, order)
  {
  }

  lemma WrapFits(x: nat, span: nat, cap: nat)
    requires cap < span && x % span <= cap
    ensures x <= cap <==> x < span
  {
  }

  /**
   * For an accepted workflow the declared totals really fit the caps exactly when none of
   * the three sums wrapped around.
   */
  lemma AcceptedFitsIffNoWrap(w: Workflow)
    requires WellShaped(w)
    ensures Leq(Declared(w.nodes), Caps(w.budgets)) <==>
            && Declared(w.nodes).queries < U16_SPAN
            && Declared(w.nodes).rows < U64_SPAN
            && Declared(w.nodes).ms < U64_SPAN
  {
    WrapFits(Declared(w.nodes).queries, U16_SPAN, w.budgets.maxQueryCount);
    WrapFits(Declared(w.nodes).rows, U64_SPAN, w.budgets.sharedRowCap);
    WrapFits(Declared(w.nodes).ms, U64_SPAN, w.budgets.sharedTimeoutMs);
  }

  /** No wave of an accepted workflow is wider than its parallelism. */
  lemma AcceptedWavesFit(w: Workflow, k: nat)
    requires WellShaped(w)
    ensures |Wave(GraphOf(w), k)| <= w.budgets.maxParallelQueries
  {
    GraphIsWellFormed(w);
    var waves := WidthIsWidestWave(GraphOf(w));
    if k < waves {
      WidestBounds(GraphOf(w), waves, k);
    } else {
      assert Wave(GraphOf(w), k) == [];
    }
  }

  lemma {:induction false} PositionIsIndex(order: seq<NodeId>, i: nat)
    requires Distinct(order) && i < |order|
    ensures Position(order, order[i]) == Some(i)
  {
    if i > 0 {
      assert order[1..][i - 1] == order[i];
      PositionIsIndex(order[1..], i - 1);
    }
  }

  /** The node the input takes its value from, if it takes it from a node. */
  function ProducerOf(source: BindingSource): Option<NodeId> {
    match source
    case SafePriorSelection(clarification) => Some(clarification)
    case PriorStep(producer, _) => Some(producer)
    case AuthorizedDataProbe(producer, _) => Some(producer)
    case _ => None
  }

  lemma CheckedInputs(n: Node, w: Workflow, order: seq<NodeId>, principal: Principal, catalog: Catalog)
    requires CheckNode(n, w, order, principal, catalog).None?
    ensures CheckInputs(n.inputs, n, w, order, catalog).None?
  {
  }

  lemma CheckedProducer(input: NodeInput, n: Node, w: Workflow, order: seq<NodeId>, producer: NodeId)
    requires CheckSource(input, n, w, order).None? && ProducerOf(input.source) == Some(producer)
    ensures producer in Ids(w.nodes) && !AtOrAfter(Position(order, producer), Position(order, n.id))
  {
  }

  lemma LaterDoesNotReach(g: Graph, order: seq<NodeId>, earlier: NodeId, later: NodeId)
    requires WellFormed(g) && IsTopological(g, order) && earlier in g.nodes && later in g.nodes
    requires !AtOrAfter(Position(order, earlier), Position(order, later))
    ensures earlier != later && !Reaches(g, later, earlier)
  {
    var i :| 0 <= i < |order| && order[i] == earlier;
    var j :| 0 <= j < |order| && order[j] == later;
    PositionIsIndex(order, i);
    PositionIsIndex(order, j);
    forall p | PathBetween(g, later, p, earlier) ensures false {
      if |p| > 1 { PathFollowsOrder(g, order, p, j, i); }
    }
  }

  /**
   * Whatever order the graph library returns: in an accepted workflow a producer exists,
   * and its consumer never leads back to it.
   */
  lemma AcceptedProducersComeFirst(w: Workflow, principal: Principal, catalog: Catalog, order: seq<NodeId>,
                                   n: Node, input: NodeInput, producer: NodeId)
    requires Accepted(w, principal, catalog, order)
    requires n in w.nodes && input in n.inputs && ProducerOf(input.source) == Some(producer)
    ensures producer in Ids(w.nodes) && producer != n.id && !Reaches(GraphOf(w), n.id, producer)
  {
    AcceptedIsWellShaped(w, principal, catalog, order);
    GraphIsWellFormed(w);
    EveryNodeChecked(w.nodes, n, w, order, principal, catalog);
    CheckedInputs(n, w, order, principal, catalog);
    EveryInputChecked(n.inputs, input, n, w, order, catalog);
    CheckedProducer(input, n, w, order, producer);
    LaterDoesNotReach(GraphOf(w), order, producer, n.id);
  }

  lemma CheckedNode(n: Node, w: Workflow, order: seq<NodeId>, principal: Principal, catalog: Catalog)
    requires CheckNode(n, w, order, principal, catalog).None?
    ensures ScopeBound(n) && SensitivityKept(w, n) && CapabilityAllowed(n, principal)
    ensures n.policy.piiRequired ==> principal.canViewPii
  {
  }

  lemma CheckedScope(input: NodeInput, n: Node, w: Workflow, order: seq<NodeId>, catalog: Catalog)
    requires CheckInput(input, n, w, order, catalog).None? && input.source.AuthorizedScope?
    ensures input.parameter == "office_ids" && input.kind == IntegerArrayType
  {
  }

  /**
   * In an accepted workflow every node that costs a query is bound to the caller's offices
   * as a list of integers, and the caller may use every capability and see what is required.
   */
  lemma AcceptedIsAuthorized(w: Workflow, principal: Principal, catalog: Catalog, order: seq<NodeId>, n: Node)
    requires Accepted(w, principal, catalog, order) && n in w.nodes
    ensures n.budget.queryCost > 0 ==>
              NodeInput("office_ids", IntegerArrayType, AuthorizedScope) in n.inputs
    ensures CapabilityAllowed(n, principal) && (n.policy.piiRequired ==> principal.canViewPii)
  {
    AcceptedIsWellShaped(w, principal, catalog, order);
    EveryNodeChecked(w.nodes, n, w, order, principal, catalog);
    CheckedNode(n, w, order, principal, catalog);
    CheckedInputs(n, w, order, principal, catalog);
    if n.budget.queryCost > 0 {
      var input :| input in n.inputs && input.parameter == "office_ids" && input.source.AuthorizedScope?;
      EveryInputChecked(n.inputs, input, n, w, order, catalog);
      CheckedScope(input, n, w, order, catalog);
    }
  }

  lemma {:induction false} FoundOutput(outputs: seq<OutputSlot>, name: string)
    ensures FindOutput(outputs, name).Some? ==>
            FindOutput(outputs, name).value in outputs && FindOutput(outputs, name).value.name == name
  {
    if outputs != [] { FoundOutput(outputs[1..], name); }
  }

  lemma CheckedSlot(input: NodeInput, n: Node, w: Workflow, order: seq<NodeId>) returns (p: Node, o: OutputSlot)
    requires CheckSource(input, n, w, order).None? && (input.source.PriorStep? || input.source.AuthorizedDataProbe?)
    ensures p in w.nodes && p.id == input.source.node && o in p.outputs && o.name == input.source.slot
    ensures o.kind == input.kind && Rank(o.sensitivity) <= Rank(n.policy.maxSensitivity)
  {
    p := FindNode(w.nodes, input.source.node).value;
    FoundOutput(p.outputs, input.source.slot);
    o := FindOutput(p.outputs, input.source.slot).value;
  }

  /**
   * The order of the five levels by name: public before masked, masked before values that may
   * only filter, those before personal data, and personal data before what is never used.
   */
  predicate NoMoreSensitive(a: Sensitivity, b: Sensitivity) {
    match a
    case PublicBusiness => true
    case MaskedOutput => !b.PublicBusiness?
    case FilterOnly => b.FilterOnly? || b.Pii? || b.NeverUse?
    case Pii => b.Pii? || b.NeverUse?
    case NeverUse => b.NeverUse?
  }

  lemma RankIsByName(a: Sensitivity, b: Sensitivity)
    ensures Rank(a) <= Rank(b) <==> NoMoreSensitive(a, b)
  {
  }

  /**
   * No binding of an accepted workflow widens sensitivity: what it reads is a slot of the
   * same type, no more sensitive than its reader may see, and no reader may see more than
   * the workflow may show.
   */
  lemma AcceptedNeverWidens(w: Workflow, principal: Principal, catalog: Catalog, order: seq<NodeId>, n: Node,
                            input: NodeInput)
      returns (p: Node, o: OutputSlot)
    requires Accepted(w, principal, catalog, order) && n in w.nodes && input in n.inputs
    requires input.source.PriorStep? || input.source.AuthorizedDataProbe?
    ensures p in w.nodes && p.id == input.source.node
    ensures o in p.outputs && o.name == input.source.slot && o.kind == input.kind
    ensures NoMoreSensitive(o.sensitivity, n.policy.maxSensitivity)
    ensures NoMoreSensitive(n.policy.maxSensitivity, w.output.maxSensitivity)
  {
    AcceptedIsWellShaped(w, principal, catalog, order);
    EveryNodeChecked(w.nodes, n, w, order, principal, catalog);
    CheckedNode(n, w, order, principal, catalog);
    CheckedInputs(n, w, order, principal, catalog);
    EveryInputChecked(n.inputs, input, n, w, order, catalog);
    p, o := CheckedSlot(input, n, w, order);
    RankIsByName(o.sensitivity, n.policy.maxSensitivity);
    RankIsByName(n.policy.maxSensitivity, w.output.maxSensitivity);
  }
}
