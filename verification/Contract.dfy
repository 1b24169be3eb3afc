/** The workflow contract (contract.rs): nodes, edges, budgets and bindings. */
module Contract {
  import opened Wrappers
  import opened Json

  datatype NodeId = NodeId(name: string)

  /** The rule `^[a-z][a-z0-9_]{0,47}$`, counted in bytes. */
  predicate ValidName(name: string) {
    && 1 <= |name| <= 48
    && 'a' <= name[0] <= 'z'
    && (forall i | 0 <= i < |name| :: 'a' <= name[i] <= 'z' || '0' <= name[i] <= '9' || name[i] == '_')
  }

  type u8 = x: int | 0 <= x < 0x100
  type u16 = x: int | 0 <= x < 0x1_0000
  type u32 = x: int | 0 <= x < 0x1_0000_0000
  type u64 = x: int | 0 <= x < 0x1_0000_0000_0000_0000

  const U16_SPAN := 0x1_0000
  const U64_SPAN := 0x1_0000_0000_0000_0000

  datatype Cardinality = Zero | One | Many

  datatype EdgeCondition = Always | ClarificationAnswered | OnCardinality(expected: Cardinality)

  datatype Edge = Edge(source: NodeId, target: NodeId, condition: EdgeCondition)

  datatype Budgets = Budgets(
    sharedTimeoutMs: u64, sharedRowCap: u32, maxQueryCount: u8, maxParallelQueries: u8)

  datatype NodeBudget = NodeBudget(timeoutMs: u64, rowCap: u32, queryCost: u8)

  datatype Sensitivity = PublicBusiness | MaskedOutput | FilterOnly | Pii | NeverUse

  datatype ParameterType = DateType | IntegerType | IntegerArrayType | StringType | CurrencyType

  datatype ConstraintField =
    | LimitMode | LimitValue | FromDate | ToDate | CurrencyCode | Metric | TransactionAmount
    | Domain | PersonName | ClientId | Office | Product | ProductIds | OfficeIds | ChargeType
    | AccountNumber

  datatype BindingSource =
    | AuthorizedScope
    | CatalogDefault
    | DeterministicExtraction(field: ConstraintField)
    | VerifiedUserText(field: ConstraintField)
    | ExactSensitiveInput
    | SafePriorSelection(clarification: NodeId)
    | PriorStep(node: NodeId, slot: string)
    | AuthorizedDataProbe(node: NodeId, slot: string)

  datatype NodeInput = NodeInput(parameter: string, kind: ParameterType, source: BindingSource)

  datatype OutputSlot = OutputSlot(name: string, kind: ParameterType, sensitivity: Sensitivity)

  datatype IterateOver = IterateOver(source: NodeId, slot: string, max: u8)

  datatype Composition = Single | Comparison | Grouped

  datatype TerminalState = Success | Unsupported | NotFound | FailedOperational

  datatype NodeKind =
    | ResolveEntity(probeDataset: string, probeShape: string, probeRowCap: u32)
    | ExecuteQuery(capability: Option<string>, dataset: Option<string>, shape: Option<string>,
                   query: Option<string>, iterateOver: Option<IterateOver>)
    | CardinalityBranch(source: NodeId, zero: NodeId, one: NodeId, many: NodeId)
    | ClarificationInterrupt(clarificationKind: string, optionSource: NodeId, resume: NodeId)
    | ComposeResult(sources: seq<NodeId>, composition: Composition)
    | Complete(terminal: TerminalState)

  datatype Idempotency = Pure | Replayable | ExecuteOnce

  datatype NodePolicy = NodePolicy(
    requiredCapability: Option<string>, maxSensitivity: Sensitivity, piiRequired: bool)

  datatype Node = Node(
    id: NodeId, kind: NodeKind, inputs: seq<NodeInput>, outputs: seq<OutputSlot>,
    policy: NodePolicy, budget: NodeBudget, idempotency: Idempotency)

  datatype FailPolicy = FailFast | ContinueLabelled

  datatype OutputContract = OutputContract(allowsPartial: bool, maxSensitivity: Sensitivity)

  type WorkflowId = nat

  datatype Workflow = Workflow(
    id: WorkflowId, nodes: seq<Node>, edges: seq<Edge>, budgets: Budgets,
    failPolicy: FailPolicy, output: OutputContract)

  function Ids(nodes: seq<Node>): set<NodeId> {
    set n | n in nodes :: n.id
  }

  ghost predicate UniqueIds(nodes: seq<Node>) {
    forall i, j | 0 <= i < j < |nodes| :: nodes[i].id != nodes[j].id
  }

  lemma UniqueJoin(a: seq<Node>, b: seq<Node>)
    requires UniqueIds(a) && UniqueIds(b) && Ids(a) !! Ids(b)
    ensures UniqueIds(a + b) && Ids(a + b) == Ids(a) + Ids(b)
  {
    forall i, j | 0 <= i < j < |a + b| ensures (a + b)[i].id != (a + b)[j].id {
      if i < |a| <= j {
        assert (a + b)[i].id in Ids(a) && (a + b)[j].id in Ids(b);
      }
    }
  }

  lemma UniqueSplit(a: seq<Node>, b: seq<Node>)
    requires UniqueIds(a + b)
    ensures UniqueIds(a) && UniqueIds(b) && Ids(a) !! Ids(b)
  {
    var c := a + b;
    forall i, j | 0 <= i < j < |a| ensures a[i].id != a[j].id { assert c[i] == a[i] && c[j] == a[j]; }
    forall i, j | 0 <= i < j < |b| ensures b[i].id != b[j].id { assert c[|a| + i] == b[i] && c[|a| + j] == b[j]; }
    forall i, j | 0 <= i < |a| && 0 <= j < |b| ensures a[i].id != b[j].id { assert c[i] == a[i] && c[|a| + j] == b[j]; }
  }

  lemma IdsJoin(a: seq<Node>, b: seq<Node>)
    ensures Ids(a + b) == Ids(a) + Ids(b)
  {
    assert forall n :: n in a + b <==> n in a || n in b;
  }

  lemma UniqueJoinIff(a: seq<Node>, b: seq<Node>)
    ensures UniqueIds(a + b) <==> UniqueIds(a) && UniqueIds(b) && Ids(a) !! Ids(b)
  {
    if UniqueIds(a + b) { UniqueSplit(a, b); }
    if UniqueIds(a) && UniqueIds(b) && Ids(a) !! Ids(b) { UniqueJoin(a, b); }
  }

  // ------------------------------------------------- durable output (state.rs)

  function SensitiveFields(inputs: seq<NodeInput>): set<string> {
    set input | input in inputs && input.source.ExactSensitiveInput? :: input.parameter
  }

  function PersistedOutput(inputs: seq<NodeInput>, output: Json): Json {
    if SensitiveFields(inputs) == {} then output else Redact(output, SensitiveFields(inputs))
  }

  /** What is stored never keeps a member named after an exact sensitive input. */
  lemma PersistedIsClean(inputs: seq<NodeInput>, output: Json)
    ensures PersistedOutput(inputs, output) == Redact(output, SensitiveFields(inputs))
    ensures Clean(PersistedOutput(inputs, output), SensitiveFields(inputs))
  {
  }

  /** The path steps over a member named after an exact sensitive input. */
  ghost predicate StepsOverSecret(inputs: seq<NodeInput>, path: seq<Step>) {
    exists i, k :: i in inputs && i.source == ExactSensitiveInput && 0 <= k < |path| && path[k] == Member(i.parameter)
  }

  /**
   * What is stored of an output: nothing behind a member named after an exact sensitive input,
   * and behind every other path what was there, with plain values unchanged.
   */
  lemma PersistedShows(inputs: seq<NodeInput>, output: Json, path: seq<Step>)
    ensures
      var before, after := Lookup(output, path), Lookup(PersistedOutput(inputs, output), path);
      if StepsOverSecret(inputs, path) then after.None?
      else (after.Some? <==> before.Some?)
           && (before.Some? && !before.value.Object? && !before.value.Array? ==> after == before)
  {
    PersistedIsClean(inputs, output);
    RedactedLookup(output, SensitiveFields(inputs), path);
    SecretIsSensitive(inputs, path);
  }

  lemma SecretIsSensitive(inputs: seq<NodeInput>, path: seq<Step>)
    ensures StepsOverSecret(inputs, path) <==> Crosses(path, SensitiveFields(inputs))
  {
    if StepsOverSecret(inputs, path) {
      var i, k :| i in inputs && i.source == ExactSensitiveInput && 0 <= k < |path| && path[k] == Member(i.parameter);
      assert path[k].Member? && path[k].key in SensitiveFields(inputs);
    }
    if Crosses(path, SensitiveFields(inputs)) {
      var k :| 0 <= k < |path| && path[k].Member? && path[k].key in SensitiveFields(inputs);
      var i :| i in inputs && i.source.ExactSensitiveInput? && i.parameter == path[k].key;
      assert path[k] == Member(i.parameter);
    }
  }

  lemma {:induction false} NothingToRedact(value: Json)
    ensures Clean(value, {})
    decreases value
  {
    match value
    case Array(items) => forall i | 0 <= i < |items| ensures Clean(items[i], {}) { NothingToRedact(items[i]); }
    case Object(fields) => forall k | k in fields ensures Clean(fields[k], {}) { NothingToRedact(fields[k]); }
    case _ =>
  }
}
