/**
 * How the compiler acquires a parameter: what justifies each binding and when acquisition
 * fails.
 */
module Acquisition {
  import opened Wrappers
  import opened Contract
  import opened Catalogs
  import opened Graphs
  import opened Ledger
  import opened Compiler
  import opened CompiledShape
  import opened Verifier

  // ------------------------------------------------------------------------ building a probe

  predicate Backs(c: Capability, probe: ProbeRef) {
    && c.approved && c.recipe.Some?
    && c.recipe.value.datasetId == probe.datasetId && c.recipe.value.shapeId == probe.shapeId
  }

  lemma {:induction false} BackingFound(all: seq<Capability>, probe: ProbeRef)
    ensures FindBacking(all, probe).Some? <==> exists c :: c in all && Backs(c, probe)
    ensures FindBacking(all, probe).Some? ==>
            FindBacking(all, probe).value in all && Backs(FindBacking(all, probe).value, probe)
  {
    if all != [] {
      BackingFound(all[1..], probe);
      assert all == [all[0]] + all[1..];
      assert all[0] in all && forall c :: c in all <==> c == all[0] || c in all[1..];
    }
  }

  lemma {:induction false} SlotFound(all: seq<ProducedSlot>, slot: string)
    ensures FindSlot(all, slot).Some? <==> exists s :: s in all && s.slot == slot
    ensures FindSlot(all, slot).Some? ==> FindSlot(all, slot).value in all && FindSlot(all, slot).value.slot == slot
  {
    if all != [] {
      SlotFound(all[1..], slot);
      assert all == [all[0]] + all[1..];
    }
  }

  predicate GadgetNamed(name: string) {
    && ValidName("resolve_" + name) && ValidName("branch_" + name)
    && ValidName("not_found_" + name) && ValidName("select_" + name)
  }

  /** The shape a probe refers to: in the first dataset with its id, the first with its id. */
  function ProbedShape(probe: ProbeRef, catalog: Catalog): Option<Shape> {
    LookUpShape(catalog, probe.datasetId, probe.shapeId)
  }

  /**
   * A probe is built exactly when its shape is a resolver or probe shape that produces the
   * slot, some approved capability selects exactly this dataset and shape, and the names fit.
   */
  lemma ProbeBuildsIff(name: string, probe: ProbeRef, catalog: Catalog)
    ensures BuildProbe(name, probe, catalog).Ok? <==>
            && ProbedShape(probe, catalog).Some? && !ProbedShape(probe, catalog).value.role.Terminal?
            && (exists s :: s in ProbedShape(probe, catalog).value.produces && s.slot == probe.outputSlot)
            && (exists c :: c in catalog.capabilities && Backs(c, probe))
            && GadgetNamed(name)
  {
    BackingFound(catalog.capabilities, probe);
    if ProbedShape(probe, catalog).Some? { SlotFound(ProbedShape(probe, catalog).value.produces, probe.outputSlot); }
  }

  /**
   * What a built probe is made of: it runs the shape it refers to, shows the slot as the shape
   * declares it, stands for the first approved capability with just this dataset and shape, and
   * is capped by the shape's rows and the dataset's time.
   */
  ghost predicate IsProbeFor(g: Gadget, name: string, probe: ProbeRef, d: Dataset, x: Shape, slot: ProducedSlot,
                             c: Capability) {
    var rows := match x.rowCap case None => 25 case Some(cap) => cap;
    && g.Probing? && g.name == name && g.backing == c.id
    && g.probe == ResolveEntity(probe.datasetId, probe.shapeId, rows)
    && g.slot.name == probe.outputSlot && g.slot.sensitivity == slot.sensitivity
    && (slot.kind in {"date", "integer", "integer_array", "string", "currency"} ==>
          ParameterTypeOf(slot.kind) == Some(g.slot.kind))
    && g.budget.rowCap == rows && g.budget.queryCost == 1
    && g.budget.timeoutMs == match d.timeoutMs case None => 5000 case Some(cap) => cap
  }

  lemma {:induction false} BackingIsFirst(all: seq<Capability>, probe: ProbeRef)
    ensures FirstOf(all, (c: Capability) => Backs(c, probe), FindBacking(all, probe))
  {
    if all != [] {
      BackingIsFirst(all[1..], probe);
      FirstOfNext(all, (c: Capability) => Backs(c, probe), FindBacking(all[1..], probe));
    }
  }

  lemma ProbeIsBacked(name: string, probe: ProbeRef, catalog: Catalog, g: Gadget)
      returns (d: Dataset, x: Shape, slot: ProducedSlot, c: Capability)
    requires BuildProbe(name, probe, catalog) == Ok(g)
    ensures FirstOf(catalog.datasets, (y: Dataset) => y.id == probe.datasetId, Some(d))
    ensures FirstOf(d.shapes, (y: Shape) => y.id == probe.shapeId, Some(x))
    ensures FirstOf(x.produces, (y: ProducedSlot) => y.slot == probe.outputSlot, Some(slot))
    ensures FirstOf(catalog.capabilities, (y: Capability) => Backs(y, probe), Some(c))
    ensures IsProbeFor(g, name, probe, d, x, slot, c)
  {
    FindDatasetIsFirst(catalog.datasets, probe.datasetId);
    d := FindDataset(catalog.datasets, probe.datasetId).value;
    FindShapeIsFirst(d.shapes, probe.shapeId);
    x := FindShape(d.shapes, probe.shapeId).value;
    FindSlotIsFirst(x.produces, probe.outputSlot);
    slot := FindSlot(x.produces, probe.outputSlot).value;
    BackingIsFirst(catalog.capabilities, probe);
    c := FindBacking(catalog.capabilities, probe).value;
  }

  // ------------------------------------------------------------------- justified bindings

  lemma {:induction false} KnownFound(fields: seq<ConstraintField>, known: seq<ConstraintField>)
    ensures FirstKnown(fields, known).Some? <==> exists f :: f in fields && f in known
    ensures FirstKnown(fields, known).Some? ==>
            FirstKnown(fields, known).value in fields && FirstKnown(fields, known).value in known
  {
    if fields != [] {
      KnownFound(fields[1..], known);
      assert fields == [fields[0]] + fields[1..];
    }
  }

  /** What the policy, the facts and the catalog must say for a binding to be made. */
  ghost predicate Justified(a: Acquired, p: ParameterPolicy, facts: Facts, catalog: Catalog) {
    match a.source
    case AuthorizedScope => p.name == "office_ids" && a.gadget.None?
    case CatalogDefault => p.hasDefault && a.gadget.None?
    case DeterministicExtraction(f) => f in BindingFields(catalog, p.name) && f in facts.deterministic && a.gadget.None?
    case VerifiedUserText(f) => f in BindingFields(catalog, p.name) && f in facts.verifiedUser && a.gadget.None?
    case ExactSensitiveInput => false
    case PriorStep(n, slot) => p.name in facts.priorSteps && facts.priorSteps[p.name] == (n, slot) && a.gadget.None?
    case SafePriorSelection(n) =>
      || (p.name in facts.safePrior && facts.safePrior[p.name] == n && a.gadget.None?)
      || ((p.required || p.userRequired) && n == ClarifyId(p.name) && a.gadget == Some(Asking(p.name)))
    case AuthorizedDataProbe(n, slot) =>
      p.probe.Some? && BuildProbe(p.name, p.probe.value, catalog).Ok? && n == ResolveId(p.name)
      && slot == p.probe.value.outputSlot && a.gadget == Some(BuildProbe(p.name, p.probe.value, catalog).value)
  }

  lemma StrategyIsJustified(s: Strategy, p: ParameterPolicy, facts: Facts, catalog: Catalog, a: Acquired)
    requires TryStrategy(s, p, facts, catalog) == Some(Ok(a))
    ensures Justified(a, p, facts, catalog)
  {
    KnownFound(BindingFields(catalog, p.name), facts.deterministic);
    KnownFound(BindingFields(catalog, p.name), facts.verifiedUser);
  }

  lemma {:induction false} TriedIsJustified(strategies: seq<Strategy>, p: ParameterPolicy, facts: Facts,
                                            catalog: Catalog, a: Acquired)
    requires TryInOrder(strategies, p, facts, catalog) == Ok(a)
    ensures Justified(a, p, facts, catalog)
  {
    if TryStrategy(strategies[0], p, facts, catalog).Some? {
      StrategyIsJustified(strategies[0], p, facts, catalog, a);
    } else {
      TriedIsJustified(strategies[1..], p, facts, catalog, a);
    }
  }

  /** The strategy before the one that decided: those listed earlier had nothing to offer. */
  lemma {:induction false} EarlierHadNothing(strategies: seq<Strategy>, p: ParameterPolicy, facts: Facts,
                                             catalog: Catalog) returns (k: nat)
    ensures k <= |strategies| && forall j | 0 <= j < k :: TryStrategy(strategies[j], p, facts, catalog).None?
    ensures if k == |strategies| then TryInOrder(strategies, p, facts, catalog) == Err(CompileError.Unsupported)
            else TryStrategy(strategies[k], p, facts, catalog) == Some(TryInOrder(strategies, p, facts, catalog))
  {
    if strategies == [] || TryStrategy(strategies[0], p, facts, catalog).Some? {
      k := 0;
    } else {
      var i := EarlierHadNothing(strategies[1..], p, facts, catalog);
      k := i + 1;
    }
  }

  /**
   * An exact identifier is always taken out of band and never asked, extracted or probed;
   * every other binding is justified by the policy, the facts or the catalog.
   */
  lemma AcquiredIsJustified(capability: Capability, p: ParameterPolicy, facts: Facts, catalog: Catalog, a: Acquired)
    requires Acquire(capability, p, facts, catalog) == Ok(a)
    ensures if IsExactIdentifier(capability, p.name, catalog) then a == Acquired(ExactSensitiveInput, None)
            else Justified(a, p, facts, catalog)
    ensures a.source.ExactSensitiveInput? <==> IsExactIdentifier(capability, p.name, catalog)
  {
    if !IsExactIdentifier(capability, p.name, catalog) {
      TriedIsJustified(Strategies(p), p, facts, catalog, a);
    }
  }

  /** A parameter is unsupported only if every listed strategy has nothing to offer. */
  lemma {:induction false} UnsupportedIff(strategies: seq<Strategy>, p: ParameterPolicy, facts: Facts, catalog: Catalog)
    ensures TryInOrder(strategies, p, facts, catalog) == Err(CompileError.Unsupported) <==>
            forall s | s in strategies :: TryStrategy(s, p, facts, catalog).None?
  {
    var k := EarlierHadNothing(strategies, p, facts, catalog);
    if k < |strategies| { assert strategies[k] in strategies; }
  }

  /** Without an authored order a required parameter is never unsupported: it is asked for. */
  lemma RequiredIsAcquired(p: ParameterPolicy, facts: Facts, catalog: Catalog)
    requires p.resolution == [] && (p.required || p.userRequired)
    ensures TryInOrder(Strategies(p), p, facts, catalog) != Err(CompileError.Unsupported)
  {
    UnsupportedIff(Strategies(p), p, facts, catalog);
    assert ALL_STRATEGIES[7] in ALL_STRATEGIES;
  }

  // --------------------------------------------------------------- which source is taken

  lemma {:induction false} KnownIsFirst(fields: seq<ConstraintField>, known: seq<ConstraintField>)
    ensures FirstOf(fields, (f: ConstraintField) => f in known, FirstKnown(fields, known))
  {
    if fields != [] {
      KnownIsFirst(fields[1..], known);
      FirstOfNext(fields, (f: ConstraintField) => f in known, FirstKnown(fields[1..], known));
    }
  }

  /**
   * A parameter is taken out of band if and only if a filter of the capability's recipe names
   * it and the first dataset with the recipe's id has a filter of that id marked exact.
   */
  lemma ExactIffMarked(capability: Capability, p: ParameterPolicy, facts: Facts, catalog: Catalog)
    ensures
      var r := Acquire(capability, p, facts, catalog);
      r.Ok? && r.value.source.ExactSensitiveInput? <==>
      && capability.recipe.Some?
      && exists d, m, s ::
           && FirstOf(catalog.datasets, (x: Dataset) => x.id == capability.recipe.value.datasetId, Some(d))
           && m in capability.recipe.value.filters && m.parameter == Some(p.name)
           && s in d.filters && s.id == m.filterId && s.exactIdentifier
  {
    var r := Acquire(capability, p, facts, catalog);
    if r.Ok? { AcquiredIsJustified(capability, p, facts, catalog, r.value); }
    if capability.recipe.Some? {
      var id := capability.recipe.value.datasetId;
      var found := FindDataset(catalog.datasets, id);
      FindDatasetIsFirst(catalog.datasets, id);
      forall d | FirstOf(catalog.datasets, (x: Dataset) => x.id == id, Some(d)) ensures found == Some(d) {
        FirstIsDetermined(catalog.datasets, (x: Dataset) => x.id == id, found, Some(d));
      }
    }
  }

  /** The first strategy that has something to offer decides. */
  lemma {:induction false} FirstOfferDecides(strategies: seq<Strategy>, k: nat, p: ParameterPolicy, facts: Facts,
                                             catalog: Catalog)
    requires k <= |strategies| && forall j | 0 <= j < k :: TryStrategy(strategies[j], p, facts, catalog).None?
    ensures k < |strategies| && TryStrategy(strategies[k], p, facts, catalog).Some? ==>
            TryInOrder(strategies, p, facts, catalog) == TryStrategy(strategies[k], p, facts, catalog).value
    ensures k == |strategies| ==> TryInOrder(strategies, p, facts, catalog) == Err(CompileError.Unsupported)
  {
    if k > 0 { FirstOfferDecides(strategies[1..], k - 1, p, facts, catalog); }
  }

  /** How many strategies of the default order have nothing to offer before one has. */
  function Idle(p: ParameterPolicy, facts: Facts, catalog: Catalog): nat {
    var fields := BindingFields(catalog, p.name);
    if p.name == "office_ids" then 0 else if p.hasDefault then 1
    else if FirstKnown(fields, facts.deterministic).Some? then 2
    else if FirstKnown(fields, facts.verifiedUser).Some? then 3
    else if p.name in facts.safePrior then 4 else if p.name in facts.priorSteps then 5
    else if p.probe.Some? then 6 else if p.required || p.userRequired then 7 else 8
  }

  lemma IdleOfferNothing(p: ParameterPolicy, facts: Facts, catalog: Catalog)
    ensures
      var k := Idle(p, facts, catalog);
      TryInOrder(ALL_STRATEGIES, p, facts, catalog) ==
      if k == 8 then Err(CompileError.Unsupported) else TryStrategy(ALL_STRATEGIES[k], p, facts, catalog).value
  {
    var k := Idle(p, facts, catalog);
    forall j | 0 <= j < k ensures TryStrategy(ALL_STRATEGIES[j], p, facts, catalog).None? {
    }
    FirstOfferDecides(ALL_STRATEGIES, k, p, facts, catalog);
  }

  /**
   * Without an authored order: the offices for their own name, else the default if there is
   * one, else the first field bound to the name that was extracted, else the first that the
   * user is known to have said, else the safe prior selection, else the prior step, else the
   * probe. A question comes last, only for a parameter that is required, and without one the
   * parameter is unsupported.
   */
  lemma TakenByDefaultOrder(capability: Capability, p: ParameterPolicy, facts: Facts, catalog: Catalog)
    requires p.resolution == [] && !IsExactIdentifier(capability, p.name, catalog)
    ensures
      var r := Acquire(capability, p, facts, catalog);
      var fields := if p.name in catalog.bindings then catalog.bindings[p.name] else [];
      var isExtracted := (f: ConstraintField) => f in facts.deterministic;
      var isSaid := (f: ConstraintField) => f in facts.verifiedUser;
      if p.name == "office_ids" then r == Ok(Acquired(AuthorizedScope, None))
      else if p.hasDefault then r == Ok(Acquired(CatalogDefault, None))
      else if exists f :: f in fields && isExtracted(f) then
        exists f :: FirstOf(fields, isExtracted, Some(f)) && r == Ok(Acquired(DeterministicExtraction(f), None))
      else if exists f :: f in fields && isSaid(f) then
        exists f :: FirstOf(fields, isSaid, Some(f)) && r == Ok(Acquired(VerifiedUserText(f), None))
      else if p.name in facts.safePrior then r == Ok(Acquired(SafePriorSelection(facts.safePrior[p.name]), None))
      else if p.name in facts.priorSteps then
        r == Ok(Acquired(PriorStep(facts.priorSteps[p.name].0, facts.priorSteps[p.name].1), None))
      else if p.probe.Some? then
        r == match BuildProbe(p.name, p.probe.value, catalog)
             case Err(e) => Err(e)
             case Ok(g) => Ok(Acquired(AuthorizedDataProbe(ResolveId(p.name), p.probe.value.outputSlot), Some(g)))
      else if !p.required && !p.userRequired then r == Err(CompileError.Unsupported)
      else if !ValidName("clarify_" + p.name) then r == Err(InvalidProposal)
      else r == Ok(Acquired(SafePriorSelection(ClarifyId(p.name)), Some(Asking(p.name))))
  {
    var fields := BindingFields(catalog, p.name);
    KnownIsFirst(fields, facts.deterministic);
    KnownIsFirst(fields, facts.verifiedUser);
    IdleOfferNothing(p, facts, catalog);
  }

  /**
   * An authored order is followed as written: the parameter is acquired as by the first of its
   * strategies that alone would not leave it unsupported, whatever comes after.
   */
  lemma TakenByAuthoredOrder(capability: Capability, p: ParameterPolicy, facts: Facts, catalog: Catalog)
    requires p.resolution != [] && !IsExactIdentifier(capability, p.name, catalog)
    ensures
      var alone := (s: Strategy) => Acquire(capability, p.(resolution := [s]), facts, catalog);
      var offers := (s: Strategy) => alone(s) != Err(CompileError.Unsupported);
      if forall s :: s in p.resolution ==> !offers(s)
      then Acquire(capability, p, facts, catalog) == Err(CompileError.Unsupported)
      else exists s :: FirstOf(p.resolution, offers, Some(s)) && Acquire(capability, p, facts, catalog) == alone(s)
  {
    var alone := (s: Strategy) => Acquire(capability, p.(resolution := [s]), facts, catalog);
    var offers := (s: Strategy) => alone(s) != Err(CompileError.Unsupported);
    forall s
      ensures alone(s) == match TryStrategy(s, p, facts, catalog)
                          case Some(outcome) => outcome
                          case None => Err(CompileError.Unsupported)
      ensures offers(s) <==> TryStrategy(s, p, facts, catalog).Some?
    {
      AloneIsTried(s, p, facts, catalog);
    }
    var k := EarlierHadNothing(p.resolution, p, facts, catalog);
    if k < |p.resolution| {
      assert p.resolution[k] in p.resolution && offers(p.resolution[k]);
      assert FirstOf(p.resolution, offers, Some(p.resolution[k]));
    }
  }

  lemma AloneIsTried(s: Strategy, p: ParameterPolicy, facts: Facts, catalog: Catalog)
    ensures TryInOrder([s], p.(resolution := [s]), facts, catalog) ==
            match TryStrategy(s, p, facts, catalog)
            case Some(outcome) => outcome
            case None => Err(CompileError.Unsupported)
    ensures TryStrategy(s, p, facts, catalog) != Some(Err(CompileError.Unsupported))
  {
  }

  // ------------------------------------------------------------------ the compiled capability

  /** The parameter is bound: its policy requires it, or the capability's query does. */
  ghost predicate MustBind(capability: Capability, p: ParameterPolicy, catalog: Catalog) {
    && p.name != "office_ids"
    && (p.required || exists q, x ::
          FirstOf(catalog.queries, (y: Query) => y.id == capability.queryId, Some(q))
          && x in q.parameters && x.required && x.name == p.name)
  }

  lemma MustBindIff(capability: Capability, p: ParameterPolicy, catalog: Catalog)
    ensures MustBind(capability, p, catalog) <==> IsAcquired(capability, p, catalog)
  {
    var found := FindQuery(catalog.queries, capability.queryId);
    FindQueryIsFirst(catalog.queries, capability.queryId);
    forall q | FirstOf(catalog.queries, (y: Query) => y.id == capability.queryId, Some(q)) ensures found == Some(q) {
      FirstIsDetermined(catalog.queries, (y: Query) => y.id == capability.queryId, found, Some(q));
    }
  }

  /** What the policy at `k` adds to the inputs, if it is bound. */
  ghost predicate BoundAt(capability: Capability, facts: Facts, catalog: Catalog, k: nat, input: NodeInput) {
    && k < |capability.policies| && MustBind(capability, capability.policies[k], catalog)
    && Acquire(capability, capability.policies[k], facts, catalog).Ok?
    && input == NodeInput(capability.policies[k].name, capability.policies[k].kind,
                          Acquire(capability, capability.policies[k], facts, catalog).value.source)
  }

  ghost predicate AddedAt(capability: Capability, facts: Facts, catalog: Catalog, k: nat, g: Gadget) {
    && k < |capability.policies| && MustBind(capability, capability.policies[k], catalog)
    && Acquire(capability, capability.policies[k], facts, catalog).Ok?
    && Acquire(capability, capability.policies[k], facts, catalog).value.gadget == Some(g)
  }

  /** Acquisition fails only at a parameter that is bound and cannot be acquired. */
  lemma {:induction false} AcquiredIff(capability: Capability, facts: Facts, catalog: Catalog, i: nat)
    requires i <= |capability.policies|
    ensures AcquireUpTo(capability, facts, catalog, i).Ok? <==>
            forall k | 0 <= k < i && MustBind(capability, capability.policies[k], catalog) ::
              Acquire(capability, capability.policies[k], facts, catalog).Ok?
  {
    if i > 0 {
      AcquiredIff(capability, facts, catalog, i - 1);
      MustBindIff(capability, capability.policies[i - 1], catalog);
    }
  }

  /** The inputs are the caller's offices and the bound parameters, each by its own type and source. */
  lemma {:induction false} InputsExact(capability: Capability, facts: Facts, catalog: Catalog, i: nat, input: NodeInput)
    requires i <= |capability.policies| && AcquireUpTo(capability, facts, catalog, i).Ok?
    ensures input in AcquireUpTo(capability, facts, catalog, i).value.0 <==>
            || input == NodeInput("office_ids", IntegerArrayType, AuthorizedScope)
            || exists k: nat | k < i :: BoundAt(capability, facts, catalog, k, input)
  {
    if i > 0 {
      InputsExact(capability, facts, catalog, i - 1, input);
      MustBindIff(capability, capability.policies[i - 1], catalog);
      var before, after := AcquireUpTo(capability, facts, catalog, i - 1).value.0,
                           AcquireUpTo(capability, facts, catalog, i).value.0;
      assert input in after <==> input in before || BoundAt(capability, facts, catalog, i - 1, input);
    }
  }

  /** The gadgets are those that some bound parameter needs. */
  lemma {:induction false} GadgetsExact(capability: Capability, facts: Facts, catalog: Catalog, i: nat, g: Gadget)
    requires i <= |capability.policies| && AcquireUpTo(capability, facts, catalog, i).Ok?
    ensures g in AcquireUpTo(capability, facts, catalog, i).value.1 <==>
            exists k: nat | k < i :: AddedAt(capability, facts, catalog, k, g)
  {
    if i > 0 {
      GadgetsExact(capability, facts, catalog, i - 1, g);
      MustBindIff(capability, capability.policies[i - 1], catalog);
      var before, after := AcquireUpTo(capability, facts, catalog, i - 1).value.1,
                           AcquireUpTo(capability, facts, catalog, i).value.1;
      assert g in after <==> g in before || AddedAt(capability, facts, catalog, i - 1, g);
    }
  }

  lemma {:induction false} UnapprovedIsFirst(catalog: Catalog, ids: seq<string>)
    ensures FirstOf(ids, (id: string) => !exists c :: c in catalog.capabilities && c.id == id && c.approved,
                    FirstUnapproved(catalog, ids))
  {
    if ids != [] {
      FindApprovedIsFirst(catalog.capabilities, ids[0]);
      UnapprovedIsFirst(catalog, ids[1..]);
      FirstOfNext(ids, (id: string) => !exists c :: c in catalog.capabilities && c.id == id && c.approved,
                  FirstUnapproved(catalog, ids[1..]));
    }
  }

  /**
   * The capability path succeeds if and only if there is an id, every id has an approved record
   * and, in the first such record of the first id, every bound parameter is acquired. The first
   * id without an approved record is reported, and a list of none as unsupported.
   */
  lemma CapabilityCompilesIff(id: WorkflowId, ids: seq<string>, catalog: Catalog, budgets: Budgets, facts: Facts)
    ensures
      var r := CompileCapability(id, ids, catalog, budgets, facts);
      var unapproved := (s: string) => !exists c :: c in catalog.capabilities && c.id == s && c.approved;
      && (forall s :: FirstOf(ids, unapproved, Some(s)) ==> r == Err(UnknownCapability(s)))
      && (ids == [] ==> r == Err(CompileError.Unsupported))
      && (ids != [] && FirstOf(ids, unapproved, None) ==>
            exists c ::
              && FirstOf(catalog.capabilities, (y: Capability) => y.id == ids[0] && y.approved, Some(c))
              && (r.Ok? <==> forall k | 0 <= k < |c.policies| && MustBind(c, c.policies[k], catalog) ::
                    Acquire(c, c.policies[k], facts, catalog).Ok?))
  {
    var unapproved := (s: string) => !exists c :: c in catalog.capabilities && c.id == s && c.approved;
    UnapprovedIsFirst(catalog, ids);
    forall s | FirstOf(ids, unapproved, Some(s)) ensures FirstUnapproved(catalog, ids) == Some(s) {
      FirstIsDetermined(ids, unapproved, FirstUnapproved(catalog, ids), Some(s));
    }
    if ids != [] && FirstOf(ids, unapproved, None) {
      FirstIsDetermined(ids, unapproved, FirstUnapproved(catalog, ids), None);
      assert ids[0] in ids;
      FindApprovedIsFirst(catalog.capabilities, ids[0]);
      var c := FindApproved(catalog.capabilities, ids[0]).value;
      AcquiredIff(c, facts, catalog, |c.policies|);
    }
  }

  /**
   * The query node runs the capability's own query, dataset and shape, binds just the bound
   * parameters, costs one query, and is capped by the capability's limit, or a hundred rows if
   * it has none that fits, and by the query's time, or five seconds.
   */
  lemma QueryNodeIs(id: WorkflowId, ids: seq<string>, catalog: Catalog, budgets: Budgets, facts: Facts, w: Workflow,
                    n: Node, input: NodeInput)
      returns (c: Capability)
    requires CompileCapability(id, ids, catalog, budgets, facts) == Ok(w)
    requires n in w.nodes && n.kind.ExecuteQuery?
    ensures FirstOf(catalog.capabilities, (y: Capability) => y.id == ids[0] && y.approved, Some(c))
    ensures n.kind.capability == Some(c.id) && n.kind.query == Some(c.queryId) && n.kind.iterateOver.None?
    ensures match c.recipe
            case None => n.kind.dataset.None? && n.kind.shape.None?
            case Some(recipe) => n.kind.dataset == Some(recipe.datasetId) && n.kind.shape == Some(recipe.shapeId)
    ensures input in n.inputs <==>
            || input == NodeInput("office_ids", IntegerArrayType, AuthorizedScope)
            || exists k: nat :: BoundAt(c, facts, catalog, k, input)
    ensures n.budget.queryCost == 1 && n.policy.requiredCapability == Some(c.id) && !n.policy.piiRequired
    ensures if c.maxLimit.Some? && 0 <= c.maxLimit.value <= 0xFFFF_FFFF then n.budget.rowCap == c.maxLimit.value
            else n.budget.rowCap == 100
    ensures forall q | FirstOf(catalog.queries, (y: Query) => y.id == c.queryId, Some(q)) ::
              n.budget.timeoutMs == match q.timeoutMs case None => 5000 case Some(cap) => cap
  {
    FindApprovedIsFirst(catalog.capabilities, ids[0]);
    c := FindApproved(catalog.capabilities, ids[0]).value;
    var (inputs, gadgets) := AcquireUpTo(c, facts, catalog, |c.policies|).value;
    AcquiredSoFar(c, facts, catalog, |c.policies|);
    if n in AllNodes(gadgets) {
      NodeOfGadget(gadgets, n);
      var g :| g in gadgets && n in GadgetNodes(g);
      GadgetsAskNothing(g, n);
    }
    assert n == QueryNode(c, catalog, inputs);
    InputsExact(c, facts, catalog, |c.policies|, input);
    var found := FindQuery(catalog.queries, c.queryId);
    FindQueryIsFirst(catalog.queries, c.queryId);
    forall q | FirstOf(catalog.queries, (y: Query) => y.id == c.queryId, Some(q)) ensures found == Some(q) {
      FirstIsDetermined(catalog.queries, (y: Query) => y.id == c.queryId, found, Some(q));
    }
  }

  lemma GadgetsAskNothing(g: Gadget, n: Node)
    requires n in GadgetNodes(g) && (g.Probing? ==> g.probe.ResolveEntity?)
    ensures !n.kind.ExecuteQuery?
  {
  }
}
