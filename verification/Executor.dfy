/**
 * The node executor of the repository (node_executor.rs) and the guard before its data
 * (llm/tool/data.rs): what the runner is answered for questions, probes and queries.
 */
module Executor {
  import opened Wrappers
  import opened Json
  import opened Contract
  import opened Catalogs
  import opened Scheduler
  import opened Runner
  import opened Branching
  import opened Verifier
  import opened Endings

  datatype Rejection =
    | WorkflowStepMembership | CapabilityRejected | ParameterProvenance | PolicyRejected | PiiRejected | OfficeScope
    | Timeout | RowCap | QueryBudget

  /** Who calls, whether an office is in their scope, the catalog, and what the database may answer. */
  datatype Access = Access(who: Principal, scoped: bool, catalog: Catalog, answers: Json -> bool)

  datatype Request = Request(capability: string, parameters: map<string, Json>, timeoutMs: u64, rowCap: u32)

  predicate Allowed(access: Access, capability: string) {
    FindApproved(access.catalog.capabilities, capability).Some? && capability in access.who.capabilities
  }

  /** The runner's own check before it starts a node (run.rs `check_node_policy`). */
  predicate PolicyPasses(n: Node, access: Access) {
    && (n.policy.requiredCapability.Some? ==> Allowed(access, n.policy.requiredCapability.value))
    && (n.kind.ExecuteQuery? && n.kind.capability.Some? ==> Allowed(access, n.kind.capability.value))
    && (n.policy.piiRequired ==> access.who.canViewPii)
    && access.scoped
  }

  // ------------------------------------------------------------------------------- the guard

  function FirstById(nodes: seq<Node>, id: NodeId): Option<Node> {
    if nodes == [] then None else if nodes[0].id == id then Some(nodes[0]) else FirstById(nodes[1..], id)
  }

  /** The node may run, judged by the rows as they are now. */
  function RunnableMember(w: Workflow, runs: seq<Row>, id: NodeId): Option<Node> {
    if IsCompleted(runs, id) then None
    else
      match FirstById(w.nodes, id)
      case None => None
      case Some(n) => if DependenciesSatisfied(w, id, runs) then Some(n) else None
  }

  function DeclaredCapability(n: Node): Option<string> {
    if n.kind.ExecuteQuery? then n.kind.capability else n.policy.requiredCapability
  }

  predicate DeclaresParameter(n: Node, name: string) {
    exists i :: i in n.inputs && i.parameter == name && !i.source.ExactSensitiveInput?
  }

  /** How many rows have completed, of whatever node and at whatever cost. */
  function CompletedCount(runs: seq<Row>): nat {
    if runs == [] then 0
    else CompletedCount(runs[..|runs| - 1]) + if runs[|runs| - 1].status.Completed? then 1 else 0
  }

  /** The guard counts completed rows, not their queries, in sixteen bits that wrap. */
  predicate OverBudget(w: Workflow, runs: seq<Row>, n: Node) {
    (CompletedCount(runs) % U16_SPAN + n.budget.queryCost) % U16_SPAN > w.budgets.maxQueryCount
  }

  const WRAPPER := "untrusted_tool_output"

  /** The checks in the order of the source; `data` is what the database answers, None an error. */
  function Guard(w: Workflow, runs: seq<Row>, access: Access, id: NodeId, request: Request, probe: bool,
                 data: Option<Json>): Result<Json, Rejection> {
    match RunnableMember(w, runs, id)
    case None => Err(WorkflowStepMembership)
    case Some(n) =>
      if !(if probe then n.kind.ResolveEntity? else n.kind.ExecuteQuery?) then Err(WorkflowStepMembership)
      else if DeclaredCapability(n) != Some(request.capability)
              || FindApproved(access.catalog.capabilities, request.capability).None?
      then Err(CapabilityRejected)
      else if exists name :: name in request.parameters && !DeclaresParameter(n, name) then Err(ParameterProvenance)
      else if request.capability !in access.who.capabilities then Err(PolicyRejected)
      else if n.policy.piiRequired && !access.who.canViewPii then Err(PiiRejected)
      else if !access.scoped then Err(OfficeScope)
      else if request.timeoutMs == 0 || request.timeoutMs > n.budget.timeoutMs then Err(Timeout)
      else if request.rowCap == 0 || request.rowCap > n.budget.rowCap then Err(RowCap)
      else if OverBudget(w, runs, n) then Err(QueryBudget)
      else
        match data
        case None => Err(QueryBudget)
        case Some(output) => Ok(Object(map[WRAPPER := output]))
  }

  // -------------------------------------------------------------------------- the executor

  /** The rows inside a guarded output. */
  function RowsOf(output: Json): seq<Json> {
    match Get(output, WRAPPER)
    case None => []
    case Some(data) =>
      match Get(data, "rows")
      case Some(Array(items)) => items
      case _ => []
  }

  /** The output with every declared slot that the row has copied to its top level. */
  function Projected(slots: seq<OutputSlot>, row: Json, fields: map<string, Json>): map<string, Json> {
    if slots == [] then fields
    else
      var before, name := Projected(slots[..|slots| - 1], row, fields), slots[|slots| - 1].name;
      match Get(row, name)
      case None => before
      case Some(value) => before[name := value]
  }

  /** Slots are projected only when exactly one row was returned. */
  function Resolved(n: Node, output: Json): Json {
    if |RowsOf(output)| == 1 && output.Object?
    then Object(Projected(n.outputs, RowsOf(output)[0], output.fields)) else output
  }

  method ProjectResolvedSlots(n: Node, output: Json) returns (r: Json)
    requires |RowsOf(output)| == 1
    ensures r == Resolved(n, output)
  {
    r := output;
    if output.Object? {
      var row := RowsOf(output)[0];
      var fields := output.fields;
      for i := 0 to |n.outputs|
        invariant fields == Projected(n.outputs[..i], row, output.fields)
      {
        assert n.outputs[..i + 1][..i] == n.outputs[..i];
        var value := Get(row, n.outputs[i].name);
        if value.Some? {
          fields := fields[n.outputs[i].name := value.value];
        }
      }
      assert n.outputs[..|n.outputs|] == n.outputs;
      r := Object(fields);
    }
  }

  /** A guarded node without a capability is an error; a rejection is a refusal. */
  function Execute(w: Workflow, n: Node, bindings: map<string, Json>, runs: seq<Row>, access: Access,
                   data: Option<Json>, clarification: nat): Reply {
    if n.kind.ClarificationInterrupt? then Asked(clarification)
    else
      match DeclaredCapability(n)
      case None => Crash
      case Some(capability) =>
        var request := Request(capability, bindings, n.budget.timeoutMs, n.budget.rowCap);
        match Guard(w, runs, access, n.id, request, n.kind.ResolveEntity?, data)
        case Err(_) => Refused
        case Ok(output) =>
          Produced(if n.kind.ResolveEntity? then Resolved(n, output) else output, |RowsOf(output)|)
  }

  // ------------------------------------------------------------------ when it is refused

  lemma {:induction false} FirstIsSole(nodes: seq<Node>, n: Node)
    requires UniqueIds(nodes) && n in nodes
    ensures FirstById(nodes, n.id) == Some(n)
  {
    if nodes[0] == n {
    } else {
      var i :| 0 <= i < |nodes| && nodes[i] == n;
      assert nodes[0].id != nodes[i].id && nodes[1..][i - 1] == n;
      FirstIsSole(nodes[1..], n);
    }
  }

  /** The runner's own bindings always have a declared provenance. */
  lemma BindingsAreDeclared(n: Node, t: seq<Row>, scope: Json, name: string)
    requires BindingsFor(n.inputs, t, scope).Some? && name in BindingsFor(n.inputs, t, scope).value
    ensures DeclaresParameter(n, name)
  {
    BindingsExact(n.inputs, t, scope, name);
  }

  lemma {:induction false} FirstByIdIsFirst(nodes: seq<Node>, id: NodeId)
    ensures FirstOf(nodes, (n: Node) => n.id == id, FirstById(nodes, id))
  {
    if nodes != [] {
      FirstByIdIsFirst(nodes[1..], id);
      FirstOfNext(nodes, (n: Node) => n.id == id, FirstById(nodes[1..], id));
    }
  }

  /** The capability a guarded node stands for: a query its own, a probe that of its policy. */
  ghost predicate ActsAs(n: Node, capability: string) {
    (n.kind.ExecuteQuery? && n.kind.capability == Some(capability)) ||
    (!n.kind.ExecuteQuery? && n.policy.requiredCapability == Some(capability))
  }

  /** The request is one that this node, its caller and its budget allow. */
  ghost predicate Requestable(n: Node, access: Access, request: Request) {
    && ActsAs(n, request.capability)
    && (exists c :: c in access.catalog.capabilities && c.id == request.capability && c.approved)
    && request.capability in access.who.capabilities && access.scoped
    && (n.policy.piiRequired ==> access.who.canViewPii)
    && (forall name | name in request.parameters ::
          exists i :: i in n.inputs && i.parameter == name && i.source != ExactSensitiveInput)
    && 0 < request.timeoutMs <= n.budget.timeoutMs && 0 < request.rowCap <= n.budget.rowCap
  }

  /**
   * The guard lets a request through if and only if the first node with the id may run now, is
   * of the kind asked for and allows the request, and the completed rows with its own queries
   * fit the cap; what the database then answers is handed on in a wrapper, and its error is one.
   */
  lemma GuardPassesIff(w: Workflow, runs: seq<Row>, access: Access, id: NodeId, request: Request, probe: bool,
                       data: Option<Json>, n: Node)
    requires FirstOf(w.nodes, (m: Node) => m.id == id, Some(n))
    ensures
      var r := Guard(w, runs, access, id, request, probe, data);
      && (r.Ok? <==>
            && !IsCompleted(runs, id) && DependenciesSatisfied(w, id, runs)
            && (if probe then n.kind.ResolveEntity? else n.kind.ExecuteQuery?)
            && Requestable(n, access, request) && !OverBudget(w, runs, n) && data.Some?)
      && (r.Ok? ==> r.value == Object(map["untrusted_tool_output" := data.value]))
  {
    FirstByIdIsFirst(w.nodes, id);
    FirstIsDetermined(w.nodes, (m: Node) => m.id == id, FirstById(w.nodes, id), Some(n));
    FindApprovedIsFirst(access.catalog.capabilities, request.capability);
    forall name | name in request.parameters
      ensures DeclaresParameter(n, name) <==>
              exists i :: i in n.inputs && i.parameter == name && i.source != ExactSensitiveInput
    {
    }
  }

  /** How many rows the database returned: the length of the list under "rows", if it is one. */
  ghost predicate Returns(data: Json, count: nat) {
    if exists items :: Get(data, "rows") == Some(Array(items))
    then exists items :: Get(data, "rows") == Some(Array(items)) && count == |items|
    else count == 0
  }

  /** The rows reported for a guarded output are those that the database returned. */
  lemma RowsAreReturned(data: Json, count: nat)
    ensures Returns(data, count) <==> |RowsOf(Object(map["untrusted_tool_output" := data]))| == count
  {
    if items :| Get(data, "rows") == Some(Array(items)) {
      assert RowsOf(Object(map["untrusted_tool_output" := data])) == items;
    }
  }

  /**
   * A node the runner started, whose policy check passed, is refused if and only if its time
   * or rows are capped at zero, the completed rows with its own queries exceed the query cap,
   * or the database fails; otherwise the runner gets the rows as they are.
   */
  lemma RefusedIff(w: Workflow, n: Node, t: seq<Row>, scope: Json, seen: seq<Row>, access: Access, data: Option<Json>,
                   clarification: nat)
    requires UniqueIds(w.nodes) && n in w.nodes && Guarded(n) && PolicyPasses(n, access)
    requires exists capability :: ActsAs(n, capability)
    requires BindingsFor(n.inputs, t, scope).Some?
    requires !IsCompleted(seen, n.id) && DependenciesSatisfied(w, n.id, seen)
    ensures
      var reply := Execute(w, n, BindingsFor(n.inputs, t, scope).value, seen, access, data, clarification);
      var refused := n.budget.timeoutMs == 0 || n.budget.rowCap == 0 || OverBudget(w, seen, n) || data.None?;
      && (reply.Refused? <==> refused)
      && (!refused ==>
            var output := Object(map[WRAPPER := data.value]);
            reply == Produced(if n.kind.ResolveEntity? then Resolved(n, output) else output, |RowsOf(output)|))
  {
    FirstIsSole(w.nodes, n);
    var bindings := BindingsFor(n.inputs, t, scope).value;
    forall name | name in bindings ensures DeclaresParameter(n, name) { BindingsAreDeclared(n, t, scope, name); }
  }

  // --------------------------------------------------------------- what a probe leaves behind

  lemma {:induction false} ProjectedMember(slots: seq<OutputSlot>, row: Json, fields: map<string, Json>, key: string)
    ensures
      var after := Projected(slots, row, fields);
      if (exists s :: s in slots && s.name == key) && Get(row, key).Some?
      then key in after && after[key] == Get(row, key).value
      else (key in after <==> key in fields) && (key in fields ==> after[key] == fields[key])
  {
    if slots != [] {
      var init, last := slots[..|slots| - 1], slots[|slots| - 1];
      ProjectedMember(init, row, fields, key);
      assert forall s :: s in slots <==> s in init || s == last;
    }
  }

  /** A slot name that no other reader of a node's output knows. */
  predicate PlainName(name: string) {
    name != WRAPPER && name != "cardinality" && name != "row_count"
  }

  /** What a probe of these data produces. */
  function ProbeOutput(n: Node, data: Json): Json {
    Resolved(n, Object(map[WRAPPER := data]))
  }

  lemma ProbeMember(n: Node, data: Json, key: string)
    requires key != WRAPPER
    ensures
      var rows := RowsOf(Object(map[WRAPPER := data]));
      Get(ProbeOutput(n, data), key) ==
      if |rows| == 1 && (exists s :: s in n.outputs && s.name == key) then Get(rows[0], key) else None
  {
    var output := Object(map[WRAPPER := data]);
    if |RowsOf(output)| == 1 { ProjectedMember(n.outputs, RowsOf(output)[0], output.fields, key); }
  }

  /**
   * A declared slot of a probe can be read afterwards if and only if the probe returned exactly
   * one row and that row has it.
   */
  lemma SlotIffOneRow(n: Node, data: Json, slot: OutputSlot)
    requires slot in n.outputs && PlainName(slot.name)
    ensures
      var rows := RowsOf(Object(map[WRAPPER := data]));
      Get(ProbeOutput(n, data), slot.name).Some? <==> |rows| == 1 && Get(rows[0], slot.name).Some?
  {
    ProbeMember(n, data, slot.name);
  }

  /** A probe whose slots have plain names shows the number of its rows. */
  lemma ProbeShowsCount(n: Node, data: Json, r: Row)
    requires forall s :: s in n.outputs ==> PlainName(s.name)
    requires r.output == Some(ProbeOutput(n, data)) && r.rows == |RowsOf(Object(map[WRAPPER := data]))|
    ensures CardinalityOf(r) == FromRowCount(r.rows) && CardinalityOf(r).Some?
  {
    assert WRAPPER[0] != "cardinality"[0] && WRAPPER[0] != "row_count"[0];
    ProbeMember(n, data, "cardinality");
    ProbeMember(n, data, "row_count");
  }

  /** A query's output has no slots at all: whoever reads one is left without it. */
  lemma QueriesHaveNoSlots(w: Workflow, n: Node, bindings: map<string, Json>, runs: seq<Row>, access: Access,
                           data: Option<Json>, clarification: nat, slot: string)
    requires n.kind.ExecuteQuery? && slot != WRAPPER
    requires Execute(w, n, bindings, runs, access, data, clarification).Produced?
    ensures Get(Execute(w, n, bindings, runs, access, data, clarification).output, slot).None?
  {
  }
}
