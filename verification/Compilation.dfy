/**
 * `compile_with_facts` as a whole (compile.rs): a proposal with nodes of its own has its
 * resources checked, its iterations expanded and its comparisons checked; one without is
 * compiled from its first capability.
 */
module Compilation {
  import opened Wrappers
  import opened Contract
  import opened Catalogs
  import opened Compiler
  import opened Verifier
  import opened Iteration
  import opened Expansion
  import opened Comparisons
  import opened Acquisition

  datatype Proposal = Proposal(capabilityIds: seq<string>, nodes: seq<Node>, edges: seq<Edge>)

  /** The dataset and shape a recipe names, or nothing without a recipe. */
  function RecipeDataset(c: Capability): Option<string> {
    if c.recipe.Some? then Some(c.recipe.value.datasetId) else None
  }

  function RecipeShape(c: Capability): Option<string> {
    if c.recipe.Some? then Some(c.recipe.value.shapeId) else None
  }

  /** The first complaint about the resources of one proposed node. */
  function ResourceError(n: Node, catalog: Catalog): Option<CompileError> {
    match n.kind
    case ExecuteQuery(capability, dataset, shape, query, _) =>
      if capability.Some? && FindApproved(catalog.capabilities, capability.value).None?
      then Some(UnknownCapability(capability.value))
      else if
        capability.Some? && !Declares(FindApproved(catalog.capabilities, capability.value).value, query, dataset, shape)
      then Some(InvalidProposal)
      else if query.Some? && FindQuery(catalog.queries, query.value).None? then Some(InvalidProposal)
      else if dataset.Some? && shape.Some? && LookUpShape(catalog, dataset.value, shape.value).None?
      then Some(InvalidProposal)
      else None
    case ResolveEntity(dataset, shape, _) =>
      if LookUpShape(catalog, dataset, shape).None? || LookUpShape(catalog, dataset, shape).value.role.Terminal?
      then Some(InvalidProposal) else None
    case _ => None
  }

  /** The node names exactly the query and the recipe of the capability. */
  predicate Declares(c: Capability, query: Option<string>, dataset: Option<string>, shape: Option<string>) {
    query == Some(c.queryId) && dataset == RecipeDataset(c) && shape == RecipeShape(c)
  }

  function FirstResourceError(nodes: seq<Node>, catalog: Catalog): Option<CompileError> {
    if nodes == [] then None
    else if ResourceError(nodes[0], catalog).Some? then ResourceError(nodes[0], catalog)
    else FirstResourceError(nodes[1..], catalog)
  }

  function ResolveResources(p: Proposal, catalog: Catalog): Option<CompileError> {
    match FirstUnapproved(catalog, p.capabilityIds)
    case Some(id) => Some(UnknownCapability(id))
    case None => FirstResourceError(p.nodes, catalog)
  }

  function Proposed(id: WorkflowId, p: Proposal, budgets: Budgets): Workflow {
    Workflow(id, p.nodes, p.edges, budgets, FailFast, OutputContract(false, Pii))
  }

  /** The two last stages of either path. */
  function Finish(w: Workflow, catalog: Catalog): Result<Workflow, CompileError> {
    match Expand(w, catalog)
    case Err(e) => Err(e)
    case Ok(v) => match CheckFrom(v.nodes, v.nodes) case Some(e) => Err(e) case None => Ok(v)
  }

  function CompileWithFacts(id: WorkflowId, p: Proposal, catalog: Catalog, budgets: Budgets,
                            facts: Facts): Result<Workflow, CompileError> {
    if p.nodes != [] then
      match ResolveResources(p, catalog)
      case Some(e) => Err(e)
      case None => Finish(Proposed(id, p, budgets), catalog)
    else
      match CompileCapability(id, p.capabilityIds, catalog, budgets, facts)
      case Err(e) => Err(e)
      case Ok(w) => Finish(w, catalog)
  }

  // ------------------------------------------------------------ the loops of the source

  method ResolveProposalResources(p: Proposal, catalog: Catalog) returns (r: Option<CompileError>)
    ensures r == ResolveResources(p, catalog)
  {
    for i := 0 to |p.capabilityIds|
      invariant FirstUnapproved(catalog, p.capabilityIds) == FirstUnapproved(catalog, p.capabilityIds[i..])
    {
      assert p.capabilityIds[i..][1..] == p.capabilityIds[i + 1..];
      if FindApproved(catalog.capabilities, p.capabilityIds[i]).None? {
        return Some(UnknownCapability(p.capabilityIds[i]));
      }
    }
    for i := 0 to |p.nodes|
      invariant FirstResourceError(p.nodes, catalog) == FirstResourceError(p.nodes[i..], catalog)
    {
      assert p.nodes[i..][1..] == p.nodes[i + 1..];
      if ResourceError(p.nodes[i], catalog).Some? {
        return ResourceError(p.nodes[i], catalog);
      }
    }
    r := None;
  }

  method FinishWorkflow(w: Workflow, catalog: Catalog) returns (r: Result<Workflow, CompileError>)
    ensures r == Finish(w, catalog)
  {
    r := ExpandIteration(w, catalog);
    if r.Ok? {
      var objection := Comparisons.CheckComparisonFacts(r.value.nodes);
      if objection.Some? {
        r := Err(objection.value);
      }
    }
  }

  method CompileProposal(id: WorkflowId, p: Proposal, catalog: Catalog, budgets: Budgets, facts: Facts)
    returns (r: Result<Workflow, CompileError>)
    ensures r == CompileWithFacts(id, p, catalog, budgets, facts)
  {
    if p.nodes != [] {
      var objection := ResolveProposalResources(p, catalog);
      if objection.Some? {
        return Err(objection.value);
      }
      r := FinishWorkflow(Proposed(id, p, budgets), catalog);
    } else {
      r := Compile(id, p.capabilityIds, catalog, budgets, facts);
      if r.Ok? {
        r := FinishWorkflow(r.value, catalog);
      }
    }
  }

  /** Without nodes of its own a proposal compiles to exactly what its first capability does. */
  lemma CapabilityPath(id: WorkflowId, p: Proposal, catalog: Catalog, budgets: Budgets, facts: Facts)
    requires p.nodes == []
    ensures CompileWithFacts(id, p, catalog, budgets, facts) ==
            CompileCapability(id, p.capabilityIds, catalog, budgets, facts)
  {
    var r := CompileCapability(id, p.capabilityIds, catalog, budgets, facts);
    if r.Ok? { CompiledPassesThrough(id, p.capabilityIds, catalog, budgets, facts, r.value); }
  }

  // ------------------------------------------------------------- when a proposal compiles

  predicate IsApproved(catalog: Catalog, id: string) {
    exists c :: c in catalog.capabilities && c.id == id && c.approved
  }

  lemma {:induction false} ApprovedFound(all: seq<Capability>, id: string)
    ensures FindApproved(all, id).Some? <==> exists c :: c in all && c.id == id && c.approved
  {
    if all != [] {
      ApprovedFound(all[1..], id);
      assert forall c :: c in all <==> c == all[0] || c in all[1..];
    }
  }

  lemma {:induction false} AllApprovedIff(catalog: Catalog, ids: seq<string>)
    ensures FirstUnapproved(catalog, ids).None? <==> forall i | 0 <= i < |ids| :: IsApproved(catalog, ids[i])
  {
    if ids != [] {
      AllApprovedIff(catalog, ids[1..]);
      ApprovedFound(catalog.capabilities, ids[0]);
      assert forall i | 0 < i < |ids| :: ids[i] == ids[1..][i - 1];
      if forall i | 0 <= i < |ids| :: IsApproved(catalog, ids[i]) {
        forall i | 0 <= i < |ids| - 1 ensures IsApproved(catalog, ids[1..][i]) { assert ids[1..][i] == ids[i + 1]; }
      }
    }
  }

  lemma {:induction false} NoResourceErrorIff(nodes: seq<Node>, catalog: Catalog)
    ensures FirstResourceError(nodes, catalog).None? <==> forall n :: n in nodes ==> ResourceError(n, catalog).None?
  {
    if nodes != [] {
      NoResourceErrorIff(nodes[1..], catalog);
      assert forall n :: n in nodes <==> n == nodes[0] || n in nodes[1..];
    }
  }

  /**
   * A query node of a capability names exactly the query and the recipe of the first approved
   * record with the id. Whatever a node names is in the catalog, and a probe is not terminal.
   */
  ghost predicate NamesItsOwn(n: Node, catalog: Catalog) {
    match n.kind
    case ExecuteQuery(capability, dataset, shape, query, _) =>
      && (capability.Some? ==> NamesCapability(capability.value, query, dataset, shape, catalog))
      && (query.Some? ==> exists q :: q in catalog.queries && q.id == query.value)
      && (dataset.Some? && shape.Some? ==> exists x :: IsShapeAt(catalog, dataset.value, shape.value, x))
    case ResolveEntity(dataset, shape, _) =>
      exists x :: IsShapeAt(catalog, dataset, shape, x) && (x.role == Resolver || x.role == Probe)
    case _ => true
  }

  ghost predicate NamesCapability(id: string, query: Option<string>, dataset: Option<string>, shape: Option<string>,
                                  catalog: Catalog) {
    exists c ::
      && FirstOf(catalog.capabilities, (x: Capability) => x.id == id && x.approved, Some(c))
      && query == Some(c.queryId)
      && match c.recipe
         case None => dataset.None? && shape.None?
         case Some(recipe) => dataset == Some(recipe.datasetId) && shape == Some(recipe.shapeId)
  }

  lemma NamesCapabilityIff(id: string, query: Option<string>, dataset: Option<string>, shape: Option<string>,
                           catalog: Catalog)
    ensures NamesCapability(id, query, dataset, shape, catalog) <==>
            FindApproved(catalog.capabilities, id).Some? &&
            Declares(FindApproved(catalog.capabilities, id).value, query, dataset, shape)
  {
    var found := FindApproved(catalog.capabilities, id);
    FindApprovedIsFirst(catalog.capabilities, id);
    forall c | FirstOf(catalog.capabilities, (x: Capability) => x.id == id && x.approved, Some(c))
      ensures found == Some(c)
    {
      FirstIsDetermined(catalog.capabilities, (x: Capability) => x.id == id && x.approved, found, Some(c));
    }
  }

  lemma NamesItsOwnIff(n: Node, catalog: Catalog)
    ensures NamesItsOwn(n, catalog) <==> ResourceError(n, catalog).None?
  {
    match n.kind
    case ExecuteQuery(capability, dataset, shape, query, _) =>
      if capability.Some? { NamesCapabilityIff(capability.value, query, dataset, shape, catalog); }
      if query.Some? { FindQueryIsFirst(catalog.queries, query.value); }
      if dataset.Some? && shape.Some? { SomeShapeIff(catalog, dataset.value, shape.value); }
    case ResolveEntity(dataset, shape, _) => SomeShapeIff(catalog, dataset, shape);
    case _ =>
  }

  /** A node without an approved capability names it in the error; every other fault is the same error. */
  lemma ResourceErrorIs(n: Node, catalog: Catalog)
    requires !NamesItsOwn(n, catalog)
    ensures
      ResourceError(n, catalog) ==
      if n.kind.ExecuteQuery? && n.kind.capability.Some? && !IsApproved(catalog, n.kind.capability.value)
      then Some(UnknownCapability(n.kind.capability.value)) else Some(InvalidProposal)
  {
    NamesItsOwnIff(n, catalog);
    if n.kind.ExecuteQuery? && n.kind.capability.Some? { ApprovedFound(catalog.capabilities, n.kind.capability.value); }
  }

  lemma {:induction false} FirstResourceFault(nodes: seq<Node>, catalog: Catalog) returns (j: nat)
    requires FirstResourceError(nodes, catalog).Some?
    ensures j < |nodes| && forall k | 0 <= k < j :: NamesItsOwn(nodes[k], catalog)
    ensures !NamesItsOwn(nodes[j], catalog) && FirstResourceError(nodes, catalog) == ResourceError(nodes[j], catalog)
  {
    NamesItsOwnIff(nodes[0], catalog);
    if ResourceError(nodes[0], catalog).Some? {
      j := 0;
    } else {
      var i := FirstResourceFault(nodes[1..], catalog);
      assert forall k | 0 < k < |nodes| :: nodes[k] == nodes[1..][k - 1];
      j := i + 1;
    }
  }

  /** What is reported: the first capability without an approved record, or else the first faulty node's fault. */
  lemma FirstFaultReported(p: Proposal, catalog: Catalog) returns (j: nat)
    requires ResolveResources(p, catalog).Some?
    ensures
      var unapproved := (id: string) => !exists c :: c in catalog.capabilities && c.id == id && c.approved;
      if exists id :: id in p.capabilityIds && unapproved(id) then
        exists id :: FirstOf(p.capabilityIds, unapproved, Some(id))
                     && ResolveResources(p, catalog) == Some(UnknownCapability(id))
      else
        && j < |p.nodes| && (forall k | 0 <= k < j :: NamesItsOwn(p.nodes[k], catalog))
        && !NamesItsOwn(p.nodes[j], catalog) && ResolveResources(p, catalog) == ResourceError(p.nodes[j], catalog)
  {
    UnapprovedIsFirst(catalog, p.capabilityIds);
    j := 0;
    if FirstUnapproved(catalog, p.capabilityIds).None? {
      j := FirstResourceFault(p.nodes, catalog);
    }
  }

  /**
   * A proposal compiles exactly when its capabilities are approved, each node names known
   * resources that are its capability's own, every iteration may be expanded within the
   * wrapped cost, and after that expansion every comparison compares like with like.
   */
  lemma ProposalCompilesIff(id: WorkflowId, p: Proposal, catalog: Catalog, budgets: Budgets, facts: Facts)
    requires p.nodes != []
    ensures
      var w := Proposed(id, p, budgets);
      CompileWithFacts(id, p, catalog, budgets, facts).Ok? <==>
      && (forall i | 0 <= i < |p.capabilityIds| :: IsApproved(catalog, p.capabilityIds[i]))
      && (forall n :: n in p.nodes ==> NamesItsOwn(n, catalog))
      && AllMayExpand(w, catalog)
      && (IteratesAny(p.nodes) ==> WeightedCost(p.nodes) % U16_SPAN <= budgets.maxQueryCount)
      && (Expand(w, catalog).Ok? ==> ComparesLike(Expand(w, catalog).value.nodes))
  {
    var w := Proposed(id, p, budgets);
    AllApprovedIff(catalog, p.capabilityIds);
    NoResourceErrorIff(p.nodes, catalog);
    forall n | n in p.nodes { NamesItsOwnIff(n, catalog); }
    ExpandSucceedsIff(w, catalog);
    if Expand(w, catalog).Ok? { ComparisonsAgree(Expand(w, catalog).value.nodes); }
  }

  // ------------------------------------------------------- the compiler against the verifier

  lemma {:induction false} FirstIsApproved(all: seq<Capability>, id: string)
    requires FindCapability(all, id).Some? && FindCapability(all, id).value.approved
    ensures FindApproved(all, id) == FindCapability(all, id)
  {
    if all[0].id != id { FirstIsApproved(all[1..], id); }
  }

  /** What the verifier asks of a node beyond what the compiler has checked. */
  predicate VerifierAgrees(n: Node, catalog: Catalog) {
    match n.kind
    case ExecuteQuery(capability, dataset, shape, _, _) =>
      if capability.Some?
      then FindCapability(catalog.capabilities, capability.value).Some?
           && FindCapability(catalog.capabilities, capability.value).value.approved
      else dataset.Some? == shape.Some?
    case ResolveEntity(dataset, shape, _) =>
      LookUpShape(catalog, dataset, shape).Some? && LookUpShape(catalog, dataset, shape).value.role.Resolver?
    case _ => true
  }

  /**
   * The compiler takes any approved record of a capability, a probe shape, and half of a
   * dataset and shape pair; the verifier insists that the first record with the id is the
   * approved one, on a resolver shape, and on both halves or none. In nothing else do their
   * checks of resources differ.
   */
  lemma ResourcesVerifyIff(n: Node, catalog: Catalog)
    requires ResourceError(n, catalog).None?
    ensures CheckResources(n, catalog).None? <==> VerifierAgrees(n, catalog)
  {
    if n.kind.ExecuteQuery? && n.kind.capability.Some? {
      var id := n.kind.capability.value;
      if FindCapability(catalog.capabilities, id).Some? && FindCapability(catalog.capabilities, id).value.approved {
        FirstIsApproved(catalog.capabilities, id);
      }
    }
  }

  lemma CopyHasResources(n: Node, m: Node, catalog: Catalog)
    requires Yields(n, m)
    ensures CheckResources(m, catalog) == CheckResources(n, catalog)
  {
  }

  lemma SomeCopy(n: Node) returns (m: Node)
    requires IterationOf(n).Some? ==> IterationOf(n).value.max > 0
    ensures Yields(n, m)
  {
    m := if IterationOf(n).None? then n else CopyOf(n, 0);
    PartYieldsAt(n, 0, m);
  }

  /**
   * The resources of a compiled proposal pass the verifier exactly when those of the nodes
   * proposed meet what the verifier asks beyond the compiler: expansion changes nothing.
   */
  lemma CompiledResourcesVerifyIff(id: WorkflowId, p: Proposal, catalog: Catalog, budgets: Budgets, facts: Facts,
                                   v: Workflow)
    requires p.nodes != [] && CompileWithFacts(id, p, catalog, budgets, facts) == Ok(v)
    ensures (forall m :: m in v.nodes ==> CheckResources(m, catalog).None?) <==>
            (forall n :: n in p.nodes ==> VerifierAgrees(n, catalog))
  {
    var w := Proposed(id, p, budgets);
    ProposalCompilesIff(id, p, catalog, budgets, facts);
    forall n | n in p.nodes ensures CheckResources(n, catalog).None? <==> VerifierAgrees(n, catalog) {
      NamesItsOwnIff(n, catalog);
      ResourcesVerifyIff(n, catalog);
    }
    if forall n :: n in p.nodes ==> VerifierAgrees(n, catalog) {
      forall m | m in v.nodes ensures CheckResources(m, catalog).None? {
        ExpandedNodes(w, catalog, v, m);
        var n :| n in w.nodes && Yields(n, m);
        CopyHasResources(n, m, catalog);
      }
    }
    if forall m :: m in v.nodes ==> CheckResources(m, catalog).None? {
      forall n | n in p.nodes ensures CheckResources(n, catalog).None? {
        assert MayExpand(n, budgets, catalog);
        var m := SomeCopy(n);
        ExpandedNodes(w, catalog, v, m);
        CopyHasResources(n, m, catalog);
      }
    }
  }
}
