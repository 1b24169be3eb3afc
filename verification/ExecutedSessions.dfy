/**
 * Accepted capabilities carried out by the repository's executor: the rows its probe returns
 * decide, and a selection that is answered can never be carried on.
 */
module ExecutedSessions {
  import opened Wrappers
  import opened Json
  import opened Contract
  import opened Catalogs
  import opened Scheduler
  import opened Ledger
  import opened Store
  import opened Runner
  import opened History
  import opened Branching
  import opened BudgetSafety
  import opened Supply
  import opened Verifier
  import opened Compiler
  import opened CompiledShape
  import opened CompiledVerdict
  import opened CompiledRuns
  import opened Endings
  import opened Liveness
  import opened Dialogues
  import opened Executor
  import opened CompiledLiveness
  import opened CompiledSessions

  // ------------------------------------------------------------------ what the executor leaves

  /** Whatever rows it sees and whatever the database may answer, the reply is the executor's. */
  ghost predicate Executed(w: Workflow, access: Access, t: seq<Row>, n: Node, turn: Turn) {
    (Guarded(n) || n.kind.ClarificationInterrupt?) && BindingsFor(n.inputs, t, turn.scope).Some? ==>
      exists seen, data: Option<Json>, clarification ::
        && (data.Some? ==> access.answers(data.value))
        && turn.reply == Execute(w, n, BindingsFor(n.inputs, t, turn.scope).value, seen, access, data, clarification)
  }

  ghost predicate AllExecuted(w: Workflow, access: Access, t: seq<Row>, batch: seq<Node>, now: nat -> Turn) {
    forall j: nat :: j < |batch| ==> Executed(w, access, t, batch[j], now(j))
  }

  /** Every node the run starts is carried out by the executor. */
  ghost function CarriedOut(w: Workflow, access: Access): Claim {
    (t, now) => AllExecuted(w, access, t, SelectBatch(w, FromCompleted(w, t), t), now)
  }

  function DataRows(data: Json): seq<Json> {
    RowsOf(Object(map[WRAPPER := data]))
  }

  lemma ProducedProbe(w: Workflow, n: Node, bindings: map<string, Json>, seen: seq<Row>, access: Access,
                      data: Option<Json>, clarification: nat)
    requires n.kind.ResolveEntity? && Execute(w, n, bindings, seen, access, data, clarification).Produced?
    ensures data.Some?
    ensures Execute(w, n, bindings, seen, access, data, clarification) ==
            Produced(ProbeOutput(n, data.value), |DataRows(data.value)|)
  {
  }

  /** The row is what the probe leaves of these data. */
  predicate Holds(n: Node, r: Row, data: Json) {
    r.output == Some(ProbeOutput(n, data)) && r.rows == |DataRows(data)|
  }

  /** The row is what the probe leaves of some data that the database may answer. */
  ghost predicate RowServed(n: Node, access: Access, r: Row) {
    exists data :: Holds(n, r, data) && access.answers(data)
  }

  ghost predicate ProbeServed(n: Node, access: Access, t: seq<Row>) {
    forall r :: r in t && r.node == n.id && r.status.Completed? ==> RowServed(n, access, r)
  }

  lemma DoneIsServed(w: Workflow, n: Node, access: Access, base: seq<Row>, turn: Turn, r: Row)
    requires n.kind.ResolveEntity? && SensitiveFields(n.inputs) == {} && Executed(w, access, base, n, turn)
    requires DoneRow(w, n, base, turn, r) && BindingsFor(n.inputs, base, turn.scope).Some?
    ensures RowServed(n, access, r)
  {
    var seen, data: Option<Json>, clarification :|
      && (data.Some? ==> access.answers(data.value))
      && turn.reply == Execute(w, n, BindingsFor(n.inputs, base, turn.scope).value, seen, access, data, clarification);
    ProducedProbe(w, n, BindingsFor(n.inputs, base, turn.scope).value, seen, access, data, clarification);
    assert Holds(n, r, data.value);
  }

  lemma RecordedIsServed(w: Workflow, n: Node, access: Access, a: seq<Row>, batch: seq<Node>, now: nat -> Turn,
                         b: seq<Row>)
    requires UniqueIds(w.nodes) && n in w.nodes && (forall m :: m in batch ==> m in w.nodes)
    requires n.kind.ResolveEntity? && n.inputs == [SCOPE] && AllExecuted(w, access, a, batch, now)
    requires RowsRecorded(w, batch, a, now, b) && ProbeServed(n, access, a)
    ensures ProbeServed(n, access, b)
  {
    forall r | r in b && r.node == n.id && r.status.Completed? ensures RowServed(n, access, r) {
      var i :| 0 <= i < |b| && b[i] == r;
      if i < |a| {
        assert r == a[i] && r in a;
      } else {
        var k: nat := i - |a|;
        assert b[|a| + k].node == batch[k].id && DoneRow(w, batch[k], a, now(k), b[|a| + k]);
        SameIdIsSame(w.nodes, batch[k], n);
        ProbeIsBound(n, a, now(k).scope);
        DoneIsServed(w, n, access, a, now(k), r);
      }
    }
  }

  lemma ProbeIsBound(n: Node, t: seq<Row>, scope: Json)
    requires n.inputs == [SCOPE]
    ensures BindingsFor(n.inputs, t, scope).Some?
  {
    PlainIsBound(n, t);
    ScopeIsIrrelevant(n, t, scope);
  }

  lemma StepIsServed(db: Db, w: Workflow, n: Node, access: Access, user: nat, now: nat -> Turn)
    requires UniqueIds(w.nodes) && n in w.nodes && n.kind.ResolveEntity? && n.inputs == [SCOPE]
    requires CarriedOut(w, access)(Rows(db, w.id), now) && ProbeServed(n, access, Rows(db, w.id))
    requires Iterate(db, w, user, FromCompleted(w, Rows(db, w.id)), now).Next?
    ensures ProbeServed(n, access, Rows(Iterate(db, w, user, FromCompleted(w, Rows(db, w.id)), now).db, w.id))
  {
    var a := Rows(db, w.id);
    var b := NextRows(db, w, user, FromCompleted(w, a), now);
    FirstOfBatchRunnable(w, FromCompleted(w, a), a);
    RecordedIsServed(w, n, access, a, SelectBatch(w, FromCompleted(w, a), a), now, b);
  }

  lemma {:induction false} ServedOnTheWay(db: Db, w: Workflow, n: Node, access: Access, user: nat,
                                          turns: nat -> nat -> Turn, k: nat)
    requires UniqueIds(w.nodes) && n in w.nodes && n.kind.ResolveEntity? && n.inputs == [SCOPE]
    requires Throughout(db, w, user, turns, k, CarriedOut(w, access)) && ProbeServed(n, access, Rows(db, w.id))
    ensures ProbeServed(n, access, Rows(LastState(db, w, user, turns, k).0, w.id))
    decreases Pending(w.nodes, Rows(db, w.id))
  {
    var consumed := FromCompleted(w, Rows(db, w.id));
    var step := Iterate(db, w, user, consumed, turns(k));
    if step.Next? {
      IterationProgresses(db, w, user, consumed, turns(k));
      StepIsServed(db, w, n, access, user, turns(k));
      var after, next := step.db, k + 1;
      ServedOnTheWay(after, w, n, access, user, turns, next);
    }
  }

  // -------------------------------------------------------------- the probe always comes first

  lemma ShownBranchMeansProbe(w: Workflow, g: Gadget, query: Node, t: seq<Row>)
    requires IsCompiled(w, [g], query) && g.Probing? && TableInv(w, t) && IsCompleted(t, BranchId(g.name))
    ensures IsCompleted(t, ResolveId(g.name))
  {
    BranchAfterProbe(w, g, query, t);
  }

  lemma SelectMeansProbe(w: Workflow, g: Gadget, query: Node, t: seq<Row>)
    requires IsCompiled(w, [g], query) && g.Probing? && TableInv(w, t) && Started(w, t, SelectId(g.name))
    ensures IsCompleted(t, ResolveId(g.name))
  {
    SelectAfterMany(w, g, query, t);
    ShownIsCompleted(t, BranchId(g.name));
    ShownBranchMeansProbe(w, g, query, t);
  }

  lemma QueryMeansProbe(w: Workflow, g: Gadget, query: Node, t: seq<Row>)
    requires IsCompiled(w, [g], query) && g.Probing? && TableInv(w, t) && Started(w, t, EXECUTE)
    ensures IsCompleted(t, ResolveId(g.name))
  {
    QueryAfterOneOrAnswer(w, g, query, t);
    if IsCompleted(t, SelectId(g.name)) {
      SelectMeansProbe(w, g, query, t);
    } else {
      ShownIsCompleted(t, BranchId(g.name));
      ShownBranchMeansProbe(w, g, query, t);
    }
  }

  /** A node that is left blind or asks is started only after the probe. */
  lemma HeldUpMeansProbe(w: Workflow, g: Gadget, query: Node, t: seq<Row>, n: Node, turn: Turn)
    requires IsCompiled(w, [g], query) && g.Probing? && ProbesResolve([g]) && TableInv(w, t) && n in w.nodes
    requires IsRunnable(w, n.id, t) && (FateOf(w, n, t, turn) == LeftBlind || FateOf(w, n, t, turn) == HasAsked)
    ensures IsCompleted(t, ResolveId(g.name))
  {
    if FateOf(w, n, t, turn) == HasAsked {
      OnlyQuestion(w, [g], query, n);
      SelectMeansProbe(w, g, query, t);
    } else {
      var h := WhoIsBlind(w, [g], query, t, n, turn);
      if n == query { QueryMeansProbe(w, g, query, t); } else { BranchAfterProbe(w, g, query, t); }
    }
  }

  lemma StoppedMeansProbe(w: Workflow, g: Gadget, query: Node, base: seq<Row>, batch: seq<Node>, now: nat -> Turn)
    requires IsCompiled(w, [g], query) && g.Probing? && ProbesResolve([g]) && TableInv(w, base)
    requires batch == SelectBatch(w, FromCompleted(w, base), base)
    requires SomeFate(w, batch, base, now, LeftBlind) || SomeFate(w, batch, base, now, HasAsked)
    ensures IsCompleted(base, ResolveId(g.name))
  {
    var k: nat :| k < |batch| && (FateOf(w, batch[k], base, now(k)) == LeftBlind
                                  || FateOf(w, batch[k], base, now(k)) == HasAsked);
    BatchMember(w, base, k);
    HeldUpMeansProbe(w, g, query, base, batch[k], now(k));
  }

  /** When a run stops without failing, its probe has completed before the last iteration. */
  lemma ProbeIsThrough(w: Workflow, g: Gadget, query: Node, last: Db, now: nat -> Turn, r: RunResult)
    requires IsCompiled(w, [g], query) && g.Probing? && ProbesResolve([g]) && Settled(w, Rows(last, w.id))
    requires RunStops(w, last, now, r.db, r.outcome) && !r.outcome.Failed?
    ensures IsCompleted(Rows(last, w.id), ResolveId(g.name))
  {
    var base := Rows(last, w.id);
    if RunnableNodes(w, base) == [] {
      HeadCompleted(w, [g], query, base, g);
    } else {
      StoppedMeansProbe(w, g, query, base, SelectBatch(w, FromCompleted(w, base), base), now);
    }
  }

  // ----------------------------------------------------------------------- what the rows decide

  function ProbeOf(g: Gadget): Node
    requires g.Probing?
  {
    GadgetNodes(g)[0]
  }

  lemma ProbeIsMember(w: Workflow, g: Gadget, query: Node)
    requires IsCompiled(w, [g], query) && g.Probing? && ProbesResolve([g])
    ensures ProbeOf(g) in w.nodes && ProbeOf(g).kind.ResolveEntity? && ProbeOf(g).inputs == [SCOPE]
    ensures ProbeOf(g).id == ResolveId(g.name) && ProbeOf(g).outputs == [g.slot]
  {
    assert ProbeOf(g) in GadgetNodes(g);
    NodeOfGadget([g], ProbeOf(g));
  }

  /** The completed probe holds these data, here and later. */
  ghost predicate Probed(g: Gadget, t: seq<Row>, data: Json)
    requires g.Probing?
  {
    FindCompleted(t, ResolveId(g.name)).Some? && Holds(ProbeOf(g), FindCompleted(t, ResolveId(g.name)).value, data)
  }

  lemma ServedIsProbed(g: Gadget, access: Access, t: seq<Row>) returns (data: Json)
    requires g.Probing? && ProbeOf(g).id == ResolveId(g.name)
    requires ProbeServed(ProbeOf(g), access, t) && IsCompleted(t, ResolveId(g.name))
    ensures Probed(g, t, data) && access.answers(data)
  {
    var r := FindCompleted(t, ResolveId(g.name)).value;
    assert RowServed(ProbeOf(g), access, r);
    data :| Holds(ProbeOf(g), r, data) && access.answers(data);
  }

  lemma ProbedLater(g: Gadget, a: seq<Row>, b: seq<Row>, data: Json)
    requires g.Probing? && Probed(g, a, data) && KeepsCompleted(a, b) && WellKept(b)
    ensures Probed(g, b, data)
  {
    FindStays(a, b, ResolveId(g.name));
  }

  /** What the run reads off the probe: how many rows there were, and the slot of a single one. */
  lemma ProbedShows(g: Gadget, t: seq<Row>, data: Json)
    requires g.Probing? && PlainName(g.slot.name) && Probed(g, t, data) && ProbeOf(g).outputs == [g.slot]
    ensures CardinalityFor(t, ResolveId(g.name)) == FromRowCount(|DataRows(data)|)
    ensures OutputSlotValue(t, ResolveId(g.name), g.slot.name).Some? <==>
            |DataRows(data)| == 1 && Get(DataRows(data)[0], g.slot.name).Some?
  {
    ProbeShowsCount(ProbeOf(g), data, FindCompleted(t, ResolveId(g.name)).value);
    SlotIffOneRow(ProbeOf(g), data, g.slot);
  }

  /** The query of a probing capability has its bindings exactly when the probe's slot is there. */
  lemma BoundIffSlot(w: Workflow, g: Gadget, query: Node, t: seq<Row>)
    requires MadeOf(w, [g], query) && g.Probing?
    ensures HasBindings(query, t) <==> OutputSlotValue(t, ResolveId(g.name), g.slot.name).Some?
  {
    BindingsExistIff(query.inputs, t, Null);
    forall i | i in query.inputs && IsSlot(i.source)
      ensures i.source.node == ResolveId(g.name) && i.source.slot == g.slot.name
    {
      var h :| h in [g] && h.Probing? && i.source.node == ResolveId(h.name) && i.source.slot == h.slot.name;
    }
    assert ReadsProbe(query, g);
  }

  /** How a run ends, by the rows its probe returned; `a` is what was there before. */
  ghost predicate EndsByRows(w: Workflow, g: Gadget, a: seq<Row>, r: RunResult, rows: seq<Json>)
    requires g.Probing?
  {
    var t := Rows(r.db, w.id);
    var toQuery := |rows| == 1 || IsCompleted(a, SelectId(g.name));
    var slot := |rows| == 1 && Get(rows[0], g.slot.name).Some?;
    if rows == [] then r.outcome.Completed? && IsCompleted(t, NotFoundId(g.name))
    else if !toQuery then r.outcome == WaitingFor(SelectId(g.name))
    else if slot || IsCompleted(a, EXECUTE) then r.outcome.Completed? && IsCompleted(t, COMPLETE)
    else r.outcome.Error? && RunsIn(t, EXECUTE)
  }

  lemma ArmIsByRows(w: Workflow, g: Gadget, query: Node, a: seq<Row>, r: RunResult, data: Json)
    requires MadeOf(w, [g], query) && g.Probing? && PlainName(g.slot.name) && ProbeOf(g).outputs == [g.slot]
    requires Probed(g, Rows(r.db, w.id), data) && EndsByArm(w, g, query, a, r)
    ensures EndsByRows(w, g, a, r, DataRows(data))
  {
    ProbedShows(g, Rows(r.db, w.id), data);
    BoundIffSlot(w, g, query, Rows(r.db, w.id));
  }

  /** A run carried out by the executor knows the data its probe returned when it stops. */
  lemma StoppedIsProbed(db: Db, w: Workflow, g: Gadget, query: Node, access: Access, user: nat,
                        turns: nat -> nat -> Turn) returns (data: Json)
    requires MadeOf(w, [g], query) && g.Probing? && Begins(db, w, user) &&
             ProbeServed(ProbeOf(g), access, Rows(db, w.id))
    requires Obedient(db, w, user, turns, 0) && Throughout(db, w, user, turns, 0, CarriedOut(w, access))
    requires !RunStateless(db, w, user, turns, 0).outcome.Failed?
    ensures Probed(g, Rows(RunStateless(db, w, user, turns, 0).db, w.id), data) && access.answers(data)
  {
    ProbeIsMember(w, g, query);
    RunEnds(db, w, user, turns, 0);
    ServedOnTheWay(db, w, ProbeOf(g), access, user, turns, 0);
    var (last, j) := LastState(db, w, user, turns, 0);
    var r := RunStateless(db, w, user, turns, 0);
    ProbeIsThrough(w, g, query, last, turns(j), r);
    data := ServedIsProbed(g, access, Rows(last, w.id));
    StoppedTable(last, w, user, turns(j), last, r);
    ProbedLater(g, Rows(last, w.id), Rows(r.db, w.id), data);
  }

  lemma UnfailedRunEnds(db: Db, w: Workflow, g: Gadget, query: Node, access: Access, user: nat,
                        turns: nat -> nat -> Turn) returns (data: Json)
    requires MadeOf(w, [g], query) && g.Probing? && PlainName(g.slot.name)
    requires Begins(db, w, user) && ProbeServed(ProbeOf(g), access, Rows(db, w.id))
    requires Obedient(db, w, user, turns, 0) && Throughout(db, w, user, turns, 0, CarriedOut(w, access))
    requires !RunStateless(db, w, user, turns, 0).outcome.Failed?
    ensures Probed(g, Rows(RunStateless(db, w, user, turns, 0).db, w.id), data) && access.answers(data)
    ensures EndsByRows(w, g, Rows(db, w.id), RunStateless(db, w, user, turns, 0), DataRows(data))
  {
    data := StoppedIsProbed(db, w, g, query, access, user, turns);
    ProbeIsMember(w, g, query);
    CapabilityRunEnds(db, w, [g], query, user, turns);
    ArmIsByRows(w, g, query, Rows(db, w.id), RunStateless(db, w, user, turns, 0), data);
  }

  /** The run ended by the rows its probe returned, or it failed for want of budget or by a refusal. */
  ghost predicate EndsByRowsOrFails(w: Workflow, g: Gadget, a: seq<Row>, last: seq<Row>, now: nat -> Turn, r: RunResult,
                                    access: Access)
    requires g.Probing?
  {
    if r.outcome.Failed? then FailedFor(w, last, now)
    else
      exists data ::
        access.answers(data) && Probed(g, Rows(r.db, w.id), data) && EndsByRows(w, g, a, r, DataRows(data))
  }

  /**
   * A run of an accepted capability with a probe, carried out by the executor: no row ends it at
   * not found, several at the selection, and one completes it if that row has the slot the query
   * reads and leaves the query running in an error if not. It fails only for want of budget or by
   * a refusal.
   */
  lemma ExecutedRunEnds(db: Db, w: Workflow, g: Gadget, query: Node, access: Access, user: nat,
                        turns: nat -> nat -> Turn)
    requires MadeOf(w, [g], query) && g.Probing? && PlainName(g.slot.name)
    requires Begins(db, w, user) && ProbeServed(ProbeOf(g), access, Rows(db, w.id))
    requires Obedient(db, w, user, turns, 0) && Throughout(db, w, user, turns, 0, CarriedOut(w, access))
    ensures
      var (last, j) := LastState(db, w, user, turns, 0);
      EndsByRowsOrFails(w, g, Rows(db, w.id), Rows(last, w.id), turns(j), RunStateless(db, w, user, turns, 0), access)
  {
    if RunStateless(db, w, user, turns, 0).outcome.Failed? {
      CapabilityRunEnds(db, w, [g], query, user, turns);
    } else {
      var data := UnfailedRunEnds(db, w, g, query, access, user, turns);
    }
  }

  // ------------------------------------------------------------------------------- sessions

  /** What the executor is asked to carry out: probes with plainly named slots. */
  ghost predicate PlainlyMade(w: Workflow, gadgets: seq<Gadget>, query: Node) {
    MadeOf(w, gadgets, query) && forall g :: g in gadgets && g.Probing? ==> PlainName(g.slot.name)
  }

  ghost predicate ServedSoFar(gadgets: seq<Gadget>, access: Access, t: seq<Row>) {
    forall g :: g in gadgets && g.Probing? ==> ProbeServed(ProbeOf(g), access, t)
  }

  /** A session whose first run the executor carries out. */
  ghost predicate ExecutedSession(first: Db, w: Workflow, gadgets: seq<Gadget>, access: Access, user: nat,
                                  turns: nat -> nat -> Turn, request: ResumeRequest, db: Db,
                                  later: nat -> nat -> Turn) {
    && Session(first, w, user, turns, request, db, later) && ServedSoFar(gadgets, access, Rows(first, w.id))
    && Throughout(first, w, user, turns, 0, CarriedOut(w, access))
  }

  /** A selection is asked only if the query cannot have its bindings. */
  lemma SelectionIsUnbound(first: Db, w: Workflow, g: Gadget, query: Node, access: Access, user: nat,
                           turns: nat -> nat -> Turn)
    requires PlainlyMade(w, [g], query) && g.Probing? && Begins(first, w, user)
    requires ServedSoFar([g], access, Rows(first, w.id)) && Obedient(first, w, user, turns, 0)
    requires Throughout(first, w, user, turns, 0, CarriedOut(w, access))
    requires RunStateless(first, w, user, turns, 0).outcome.WaitingFor?
    ensures !HasBindings(query, Rows(RunStateless(first, w, user, turns, 0).db, w.id))
  {
    assert g in [g];
    var data := StoppedIsProbed(first, w, g, query, access, user, turns);
    ProbeIsMember(w, g, query);
    var h := FirstRunStops(first, w, [g], query, user, turns);
    assert h == g;
    ProbedShows(g, Rows(RunStateless(first, w, user, turns, 0).db, w.id), data);
    BoundIffSlot(w, g, query, Rows(RunStateless(first, w, user, turns, 0).db, w.id));
  }

  lemma QuestionIsBound(w: Workflow, g: Gadget, query: Node, t: seq<Row>)
    requires MadeOf(w, [g], query) && g.Asking?
    ensures HasBindings(query, t)
  {
    SlotsAreOfOne(query, g);
    PlainIsBound(query, t);
  }

  /** The run completed if and only if a plain question was answered. */
  ghost predicate CompletesIffQuestion(w: Workflow, g: Gadget, r: RunResult) {
    && (r.outcome.Completed? <==> g.Asking?)
    && (g.Asking? ==> IsCompleted(Rows(r.db, w.id), COMPLETE))
    && (g.Probing? ==> r.outcome.Error? && RunsIn(Rows(r.db, w.id), EXECUTE))
  }

  /**
   * The run after an accepted answer completes if and only if the answered gadget is a plain
   * question, unless it fails for want of budget or by a refusal. After a selection it ends in an
   * error with the query left running, whatever was selected: several rows leave the slot absent,
   * and the answer does not fill it.
   */
  lemma ExecutedSessionEnds(first: Db, w: Workflow, gadgets: seq<Gadget>, query: Node, access: Access, user: nat,
                            turns: nat -> nat -> Turn, request: ResumeRequest, db: Db, later: nat -> nat -> Turn)
      returns (g: Gadget)
    requires PlainlyMade(w, gadgets, query)
    requires ExecutedSession(first, w, gadgets, access, user, turns, request, db, later)
    ensures gadgets == [g]
    ensures
      var (last, j) := LastState(db, w, user, later, 0);
      var r := RunStateless(db, w, user, later, 0);
      if r.outcome.Failed? then FailedFor(w, Rows(last, w.id), later(j)) else CompletesIffQuestion(w, g, r)
  {
    g := FirstRunStops(first, w, gadgets, query, user, turns);
    AnsweredRunEnds(first, w, gadgets, query, user, turns, request, db, later);
    var asked := Rows(RunStateless(first, w, user, turns, 0).db, w.id);
    if g.Asking? {
      QuestionIsBound(w, g, query, asked);
    } else {
      SelectionIsUnbound(first, w, g, query, access, user, turns);
    }
  }

  /** The same for every capability that the verifier accepts. */
  lemma AcceptedSessionEnds(id: WorkflowId, ids: seq<string>, catalog: Catalog, budgets: Budgets, facts: Facts,
                            w: Workflow, capability: Capability, principal: Principal, order: seq<NodeId>,
                            access: Access, first: Db, user: nat, turns: nat -> nat -> Turn, request: ResumeRequest,
                            db: Db, later: nat -> nat -> Turn) returns (g: Gadget)
    requires CompiledFrom(id, ids, catalog, budgets, facts, w, capability) && Accepted(w, principal, catalog, order)
    requires forall h :: h in PartsOf(capability, facts, catalog).0 && h.Probing? ==> PlainName(h.slot.name)
    requires ExecutedSession(first, w, PartsOf(capability, facts, catalog).0, access, user, turns, request, db, later)
    ensures PartsOf(capability, facts, catalog).0 == [g]
    ensures
      var (last, j) := LastState(db, w, user, later, 0);
      var r := RunStateless(db, w, user, later, 0);
      if r.outcome.Failed? then FailedFor(w, Rows(last, w.id), later(j)) else CompletesIffQuestion(w, g, r)
  {
    AcceptedIsMadeOf(id, ids, catalog, budgets, facts, w, capability, principal, order);
    var (gadgets, query) := PartsOf(capability, facts, catalog);
    g := ExecutedSessionEnds(first, w, gadgets, query, access, user, turns, request, db, later);
  }
}
