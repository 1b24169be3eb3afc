/**
 * Compiling one capability into a workflow (compile.rs): how each required parameter is
 * acquired, and the probe and clarification gadgets this puts before the query node.
 */
module Compiler {
  import opened Wrappers
  import opened Contract
  import opened Catalogs

  datatype CompileError =
    | UnknownCapability(id: string) | Unsupported | GroupedQueryPreferred(shape: string) | BudgetExceeded
    | InvalidProposal | ComparisonFactsDiverge(node: NodeId)

  datatype Facts = Facts(
    deterministic: seq<ConstraintField>, verifiedUser: seq<ConstraintField>, safePrior: map<string, NodeId>,
    priorSteps: map<string, (NodeId, string)>)

  const EXECUTE := NodeId("execute_query")
  const COMPLETE := NodeId("complete")

  function ResolveId(name: string): NodeId { NodeId("resolve_" + name) }
  function BranchId(name: string): NodeId { NodeId("branch_" + name) }
  function NotFoundId(name: string): NodeId { NodeId("not_found_" + name) }
  function SelectId(name: string): NodeId { NodeId("select_" + name) }
  function ClarifyId(name: string): NodeId { NodeId("clarify_" + name) }

  /**
   * What acquiring a parameter adds to the graph: a resolver probe with its cardinality
   * branch, not-found terminal and selection interrupt, or a single question.
   */
  datatype Gadget =
    | Probing(name: string, probe: NodeKind, slot: OutputSlot, backing: string, budget: NodeBudget)
    | Asking(name: string)

  const FREE := NodeBudget(0, 0, 0)

  function PolicyOf(capability: Option<string>): NodePolicy {
    NodePolicy(capability, Pii, false)
  }

  const SCOPE := NodeInput("office_ids", IntegerArrayType, AuthorizedScope)

  function GadgetNodes(g: Gadget): seq<Node> {
    match g
    case Probing(name, probe, slot, backing, budget) =>
      [Node(ResolveId(name), probe, [SCOPE], [slot], PolicyOf(Some(backing)), budget, ExecuteOnce),
       Node(BranchId(name), CardinalityBranch(ResolveId(name), NotFoundId(name), EXECUTE, SelectId(name)),
            [], [], PolicyOf(None), FREE, Pure),
       Node(NotFoundId(name), Complete(TerminalState.NotFound), [], [], PolicyOf(None), FREE, Pure),
       Node(SelectId(name), ClarificationInterrupt("select_entity", ResolveId(name), EXECUTE),
            [], [], PolicyOf(None), FREE, Replayable)]
    case Asking(name) =>
      [Node(ClarifyId(name), ClarificationInterrupt("collect_fields", EXECUTE, EXECUTE),
            [], [], PolicyOf(None), FREE, Replayable)]
  }

  function GadgetEdges(g: Gadget): seq<Edge> {
    match g
    case Probing(name, _, _, _, _) =>
      [Edge(ResolveId(name), BranchId(name), Always),
       Edge(BranchId(name), NotFoundId(name), OnCardinality(Zero)),
       Edge(BranchId(name), EXECUTE, OnCardinality(One)),
       Edge(BranchId(name), SelectId(name), OnCardinality(Many)),
       Edge(SelectId(name), EXECUTE, ClarificationAnswered)]
    case Asking(name) =>
      [Edge(ClarifyId(name), EXECUTE, ClarificationAnswered)]
  }

  // ------------------------------------------------------------ acquiring a parameter

  predicate IsExactIdentifier(capability: Capability, name: string, catalog: Catalog) {
    && capability.recipe.Some?
    && FindDataset(catalog.datasets, capability.recipe.value.datasetId).Some?
    && exists m :: m in capability.recipe.value.filters && m.parameter == Some(name)
         && exists s :: s in FindDataset(catalog.datasets, capability.recipe.value.datasetId).value.filters
              && s.id == m.filterId && s.exactIdentifier
  }

  const ALL_STRATEGIES := [FromScope, FromDefault, FromExtraction, FromUserText, FromSafePrior, FromPriorStep,
                           FromProbe, Clarify]

  function Strategies(p: ParameterPolicy): seq<Strategy> {
    if p.resolution == [] then ALL_STRATEGIES else p.resolution
  }

  function BindingFields(catalog: Catalog, name: string): seq<ConstraintField> {
    if name in catalog.bindings then catalog.bindings[name] else []
  }

  function FirstKnown(fields: seq<ConstraintField>, known: seq<ConstraintField>): Option<ConstraintField> {
    if fields == [] then None else if fields[0] in known then Some(fields[0]) else FirstKnown(fields[1..], known)
  }

  /** The first approved capability whose recipe selects exactly the probed dataset and shape. */
  function FindBacking(all: seq<Capability>, probe: ProbeRef): Option<Capability> {
    if all == [] then None
    else if all[0].approved && all[0].recipe.Some?
            && all[0].recipe.value.datasetId == probe.datasetId && all[0].recipe.value.shapeId == probe.shapeId
    then Some(all[0])
    else FindBacking(all[1..], probe)
  }

  function ParseKind(kind: string): ParameterType {
    if kind == "date" then DateType
    else if kind == "integer_array" then IntegerArrayType
    else if kind == "string" then StringType
    else if kind == "currency" then CurrencyType
    else IntegerType
  }

  function OrElse<T>(o: Option<T>, otherwise: T): T {
    match o case None => otherwise case Some(v) => v
  }

  /** Every way a probe can be malformed is the same error. */
  function BuildProbe(name: string, probe: ProbeRef, catalog: Catalog): Result<Gadget, CompileError> {
    match FindDataset(catalog.datasets, probe.datasetId)
    case None => Err(InvalidProposal)
    case Some(dataset) =>
      match FindShape(dataset.shapes, probe.shapeId)
      case None => Err(InvalidProposal)
      case Some(shape) =>
        if shape.role.Terminal? || !ValidName("resolve_" + name) || FindSlot(shape.produces, probe.outputSlot).None?
           || FindBacking(catalog.capabilities, probe).None?
           || !ValidName("branch_" + name) || !ValidName("not_found_" + name) || !ValidName("select_" + name)
        then Err(InvalidProposal)
        else
          var out := FindSlot(shape.produces, probe.outputSlot).value;
          Ok(Probing(name, ResolveEntity(dataset.id, shape.id, OrElse(shape.rowCap, 25)),
                     OutputSlot(out.slot, ParseKind(out.kind), out.sensitivity),
                     FindBacking(catalog.capabilities, probe).value.id,
                     NodeBudget(OrElse(dataset.timeoutMs, 5000), OrElse(shape.rowCap, 25), 1)))
  }

  /** The binding of one parameter and the gadget it needs, if any. */
  datatype Acquired = Acquired(source: BindingSource, gadget: Option<Gadget>)

  /** What one strategy yields: None passes on to the next. */
  function TryStrategy(s: Strategy, p: ParameterPolicy, facts: Facts, catalog: Catalog)
    : Option<Result<Acquired, CompileError>>
  {
    match s
    case FromScope => if p.name == "office_ids" then Some(Ok(Acquired(AuthorizedScope, None))) else None
    case FromDefault => if p.hasDefault then Some(Ok(Acquired(CatalogDefault, None))) else None
    case FromExtraction =>
      (match FirstKnown(BindingFields(catalog, p.name), facts.deterministic)
       case None => None
       case Some(field) => Some(Ok(Acquired(DeterministicExtraction(field), None))))
    case FromUserText =>
      (match FirstKnown(BindingFields(catalog, p.name), facts.verifiedUser)
       case None => None
       case Some(field) => Some(Ok(Acquired(VerifiedUserText(field), None))))
    case FromSafePrior =>
      if p.name in facts.safePrior then Some(Ok(Acquired(SafePriorSelection(facts.safePrior[p.name]), None))) else None
    case FromPriorStep =>
      if p.name in facts.priorSteps
      then Some(Ok(Acquired(PriorStep(facts.priorSteps[p.name].0, facts.priorSteps[p.name].1), None))) else None
    case FromProbe =>
      if p.probe.None? then None
      else
        (match BuildProbe(p.name, p.probe.value, catalog)
         case Err(e) => Some(Err(e))
         case Ok(gadget) =>
           Some(Ok(Acquired(AuthorizedDataProbe(ResolveId(p.name), p.probe.value.outputSlot), Some(gadget)))))
    case Clarify =>
      if !p.userRequired && !p.required then None
      else if !ValidName("clarify_" + p.name) then Some(Err(InvalidProposal))
      else Some(Ok(Acquired(SafePriorSelection(ClarifyId(p.name)), Some(Asking(p.name)))))
  }

  function TryInOrder(strategies: seq<Strategy>, p: ParameterPolicy, facts: Facts, catalog: Catalog)
    : Result<Acquired, CompileError>
  {
    if strategies == [] then Err(CompileError.Unsupported)
    else
      match TryStrategy(strategies[0], p, facts, catalog)
      case Some(outcome) => outcome
      case None => TryInOrder(strategies[1..], p, facts, catalog)
  }

  function Acquire(capability: Capability, p: ParameterPolicy, facts: Facts, catalog: Catalog)
    : Result<Acquired, CompileError>
  {
    if IsExactIdentifier(capability, p.name, catalog) then Ok(Acquired(ExactSensitiveInput, None))
    else TryInOrder(Strategies(p), p, facts, catalog)
  }

  // --------------------------------------------------------------- the whole workflow

  predicate IsAcquired(capability: Capability, p: ParameterPolicy, catalog: Catalog) {
    p.name != "office_ids" &&
    (p.required ||
     match FindQuery(catalog.queries, capability.queryId)
     case None => false
     case Some(q) => exists x :: x in q.parameters && x.required && x.name == p.name)
  }

  /** Inputs of the query node and the gadgets before it, over the first `i` policies. */
  function AcquireUpTo(capability: Capability, facts: Facts, catalog: Catalog, i: nat)
    : Result<(seq<NodeInput>, seq<Gadget>), CompileError>
    requires i <= |capability.policies|
  {
    if i == 0 then Ok(([SCOPE], []))
    else
      match AcquireUpTo(capability, facts, catalog, i - 1)
      case Err(e) => Err(e)
      case Ok((inputs, gadgets)) =>
        var p := capability.policies[i - 1];
        if !IsAcquired(capability, p, catalog) then Ok((inputs, gadgets))
        else
          match Acquire(capability, p, facts, catalog)
          case Err(e) => Err(e)
          case Ok(a) =>
            Ok((inputs + [NodeInput(p.name, p.kind, a.source)],
                if a.gadget.Some? then gadgets + [a.gadget.value] else gadgets))
  }

  function AllNodes(gadgets: seq<Gadget>): seq<Node> {
    if gadgets == [] then [] else AllNodes(gadgets[..|gadgets| - 1]) + GadgetNodes(gadgets[|gadgets| - 1])
  }

  function AllEdges(gadgets: seq<Gadget>): seq<Edge> {
    if gadgets == [] then [] else AllEdges(gadgets[..|gadgets| - 1]) + GadgetEdges(gadgets[|gadgets| - 1])
  }

  function ToRowCap(limit: Option<int>): u32 {
    match limit
    case None => 100
    case Some(n) => if 0 <= n < 0x1_0000_0000 then n else 100
  }

  function QueryNode(capability: Capability, catalog: Catalog, inputs: seq<NodeInput>): Node {
    var recipe := capability.recipe;
    var timeout := match FindQuery(catalog.queries, capability.queryId)
                   case None => 5000
                   case Some(q) => OrElse(q.timeoutMs, 5000);
    Node(EXECUTE,
         ExecuteQuery(Some(capability.id), if recipe.Some? then Some(recipe.value.datasetId) else None,
                      if recipe.Some? then Some(recipe.value.shapeId) else None, Some(capability.queryId), None),
         inputs, [], PolicyOf(Some(capability.id)), NodeBudget(timeout, ToRowCap(capability.maxLimit), 1), ExecuteOnce)
  }

  const FINISH := Node(COMPLETE, Complete(Success), [], [], PolicyOf(None), FREE, Pure)

  function Assemble(id: WorkflowId, capability: Capability, catalog: Catalog, budgets: Budgets,
                    inputs: seq<NodeInput>, gadgets: seq<Gadget>): Workflow {
    Workflow(id, AllNodes(gadgets) + [QueryNode(capability, catalog, inputs), FINISH],
             AllEdges(gadgets) + [Edge(EXECUTE, COMPLETE, Always)], budgets, FailFast, OutputContract(false, Pii))
  }

  function FirstUnapproved(catalog: Catalog, ids: seq<string>): Option<string> {
    if ids == [] then None
    else if FindApproved(catalog.capabilities, ids[0]).None? then Some(ids[0])
    else FirstUnapproved(catalog, ids[1..])
  }

  /** The capability path: no proposed nodes, the first capability id is compiled. */
  function CompileCapability(id: WorkflowId, ids: seq<string>, catalog: Catalog, budgets: Budgets,
                             facts: Facts): Result<Workflow, CompileError> {
    if FirstUnapproved(catalog, ids).Some? then Err(UnknownCapability(FirstUnapproved(catalog, ids).value))
    else if ids == [] then Err(CompileError.Unsupported)
    else
      match FindApproved(catalog.capabilities, ids[0])
      case None => Err(UnknownCapability(ids[0]))
      case Some(capability) =>
        match AcquireUpTo(capability, facts, catalog, |capability.policies|)
        case Err(e) => Err(e)
        case Ok((inputs, gadgets)) => Ok(Assemble(id, capability, catalog, budgets, inputs, gadgets))
  }

  // ------------------------------------------------------------ the loops of the source

  /** The strategy loop: the first strategy that decides ends it. */
  method AcquisitionSource(capability: Capability, p: ParameterPolicy, facts: Facts, catalog: Catalog,
                           nodes: seq<Node>, edges: seq<Edge>)
    returns (source: Result<BindingSource, CompileError>, nodes': seq<Node>, edges': seq<Edge>)
    ensures
      match Acquire(capability, p, facts, catalog)
      case Err(e) => source == Err(e)
      case Ok(a) =>
        && source == Ok(a.source)
        && nodes' == nodes + (if a.gadget.Some? then GadgetNodes(a.gadget.value) else [])
        && edges' == edges + (if a.gadget.Some? then GadgetEdges(a.gadget.value) else [])
  {
    nodes', edges' := nodes, edges;
    if IsExactIdentifier(capability, p.name, catalog) {
      return Ok(ExactSensitiveInput), nodes', edges';
    }
    var strategies := Strategies(p);
    for i := 0 to |strategies|
      invariant TryInOrder(strategies, p, facts, catalog) == TryInOrder(strategies[i..], p, facts, catalog)
    {
      assert strategies[i..][1..] == strategies[i + 1..];
      match TryStrategy(strategies[i], p, facts, catalog) {
        case None =>
        case Some(Err(e)) => return Err(e), nodes', edges';
        case Some(Ok(a)) =>
          if a.gadget.Some? {
            nodes' := nodes' + GadgetNodes(a.gadget.value);
            edges' := edges' + GadgetEdges(a.gadget.value);
          }
          return Ok(a.source), nodes', edges';
      }
    }
    source := Err(CompileError.Unsupported);
  }

  /** The parameter loop, pushing gadgets into the growing workflow. */
  method AcquisitionInputs(capability: Capability, facts: Facts, catalog: Catalog)
    returns (inputs: Result<seq<NodeInput>, CompileError>, nodes: seq<Node>, edges: seq<Edge>)
    ensures
      match AcquireUpTo(capability, facts, catalog, |capability.policies|)
      case Err(e) => inputs == Err(e)
      case Ok((bound, gadgets)) => inputs == Ok(bound) && nodes == AllNodes(gadgets) && edges == AllEdges(gadgets)
  {
    var bound := [SCOPE];
    nodes, edges := [], [];
    ghost var gadgets: seq<Gadget> := [];
    for i := 0 to |capability.policies|
      invariant AcquireUpTo(capability, facts, catalog, i) == Ok((bound, gadgets))
      invariant nodes == AllNodes(gadgets) && edges == AllEdges(gadgets)
    {
      var p := capability.policies[i];
      if IsAcquired(capability, p, catalog) {
        var source, nodes', edges' := AcquisitionSource(capability, p, facts, catalog, nodes, edges);
        match source {
          case Err(e) =>
            ErrorPropagates(capability, facts, catalog, i + 1, |capability.policies|);
            return Err(e), nodes, edges;
          case Ok(s) =>
            ghost var a := Acquire(capability, p, facts, catalog).value;
            if a.gadget.Some? {
              assert (gadgets + [a.gadget.value])[..|gadgets|] == gadgets;
              gadgets := gadgets + [a.gadget.value];
            }
            bound := bound + [NodeInput(p.name, p.kind, s)];
            nodes, edges := nodes', edges';
        }
      }
    }
    inputs := Ok(bound);
  }

  lemma {:induction false} ErrorPropagates(capability: Capability, facts: Facts, catalog: Catalog, i: nat, j: nat)
    requires i <= j <= |capability.policies| && AcquireUpTo(capability, facts, catalog, i).Err?
    ensures AcquireUpTo(capability, facts, catalog, j) == AcquireUpTo(capability, facts, catalog, i)
    decreases j - i
  {
    if i < j { ErrorPropagates(capability, facts, catalog, i, j - 1); }
  }

  method Compile(id: WorkflowId, ids: seq<string>, catalog: Catalog, budgets: Budgets, facts: Facts)
    returns (r: Result<Workflow, CompileError>)
    ensures r == CompileCapability(id, ids, catalog, budgets, facts)
  {
    for i := 0 to |ids|
      invariant FirstUnapproved(catalog, ids) == FirstUnapproved(catalog, ids[i..])
    {
      assert ids[i..][1..] == ids[i + 1..];
      if FindApproved(catalog.capabilities, ids[i]).None? {
        return Err(UnknownCapability(ids[i]));
      }
    }
    if ids == [] {
      return Err(CompileError.Unsupported);
    }
    // The loop has already found every id approved; the source looks the first up again.
    var capability := FindApproved(catalog.capabilities, ids[0]).value;
    var inputs, nodes, edges := AcquisitionInputs(capability, facts, catalog);
    match inputs {
      case Err(e) => r := Err(e);
      case Ok(bound) =>
        nodes := nodes + [QueryNode(capability, catalog, bound)];
        nodes := nodes + [FINISH];
        edges := edges + [Edge(EXECUTE, COMPLETE, Always)];
        assert forall x: seq<Node> :: (x + [QueryNode(capability, catalog, bound)]) + [FINISH]
                                      == x + [QueryNode(capability, catalog, bound), FINISH];
        r := Ok(Workflow(id, nodes, edges, budgets, FailFast, OutputContract(false, Pii)));
    }
  }
}
