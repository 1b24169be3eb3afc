/**
 * Runs and answered sessions of accepted capabilities, for any answers and for those of the
 * repository's executor: an answered question completes, an answered selection does not.
 */
module CompiledSessions {
  import opened Wrappers
  import opened Json
  import opened Contract
  import opened Catalogs
  import opened Scheduler
  import opened Ledger
  import opened Store
  import opened Runner
  import opened History
  import opened Branching
  import opened BudgetSafety
  import opened Supply
  import opened Verifier
  import opened Compiler
  import opened CompiledShape
  import opened CompiledAcceptance
  import opened CompiledVerdict
  import opened CompiledRuns
  import opened Acquisition
  import opened Endings
  import opened Liveness
  import opened Dialogues
  import opened CompiledLiveness

  // ----------------------------------------------------------------- accepted capabilities

  /** The input that binds the slot of the gadget's probe is there. */
  ghost predicate Binds(inputs: seq<NodeInput>, g: Gadget) {
    g.Probing? ==> exists i :: i in inputs && i.source == AuthorizedDataProbe(ResolveId(g.name), g.slot.name)
  }

  lemma AcquiredBinds(capability: Capability, p: ParameterPolicy, facts: Facts, catalog: Catalog, a: Acquired)
    requires Acquire(capability, p, facts, catalog) == Ok(a) && a.gadget.Some?
    ensures Binds([NodeInput(p.name, p.kind, a.source)], a.gadget.value)
  {
    AcquiredIsJustified(capability, p, facts, catalog, a);
    var input := NodeInput(p.name, p.kind, a.source);
    if a.gadget.value.Probing? {
      var d, x, slot, c := ProbeIsBacked(p.name, p.probe.value, catalog, a.gadget.value);
      assert input in [input];
    }
  }

  lemma BindsMore(inputs: seq<NodeInput>, more: seq<NodeInput>, g: Gadget)
    ensures Binds(inputs, g) ==> Binds(inputs + more, g)
    ensures Binds(more, g) ==> Binds(inputs + more, g)
  {
    assert forall i :: i in inputs || i in more ==> i in inputs + more;
  }

  /** Every probe that is acquired is read by the query. */
  lemma {:induction false} GadgetsAreRead(capability: Capability, facts: Facts, catalog: Catalog, i: nat)
    requires i <= |capability.policies| && AcquireUpTo(capability, facts, catalog, i).Ok?
    ensures
      var (inputs, gadgets) := AcquireUpTo(capability, facts, catalog, i).value;
      forall g :: g in gadgets ==> Binds(inputs, g)
  {
    if i > 0 {
      GadgetsAreRead(capability, facts, catalog, i - 1);
      var (inputs, gadgets) := AcquireUpTo(capability, facts, catalog, i - 1).value;
      var p := capability.policies[i - 1];
      if IsAcquired(capability, p, catalog) {
        var a := Acquire(capability, p, facts, catalog).value;
        var more := [NodeInput(p.name, p.kind, a.source)];
        if a.gadget.Some? { AcquiredBinds(capability, p, facts, catalog, a); }
        forall g | g in gadgets || a.gadget == Some(g) ensures Binds(inputs + more, g) { BindsMore(inputs, more, g); }
      }
    }
  }

  /** The gadgets and the query of a capability that compiles. */
  function PartsOf(capability: Capability, facts: Facts, catalog: Catalog): (seq<Gadget>, Node) {
    match AcquireUpTo(capability, facts, catalog, |capability.policies|)
    case Err(_) => ([], QueryNode(capability, catalog, []))
    case Ok((inputs, gadgets)) => (gadgets, QueryNode(capability, catalog, inputs))
  }

  lemma FittingSlots(gadgets: seq<Gadget>, query: Node)
    requires forall i :: i in query.inputs ==> SourceFits(gadgets, i)
    ensures SlotsFromProbes(query, gadgets)
  {
    forall i | i in query.inputs && IsSlot(i.source)
      ensures exists g ::
                g in gadgets && g.Probing? && i.source.node == ResolveId(g.name) && i.source.slot == g.slot.name
    {
      assert SourceFits(gadgets, i);
      var g :| g in gadgets && SlotFits(g, i.source.node, i.source.slot, i.kind);
    }
  }

  lemma PartsMake(w: Workflow, gadgets: seq<Gadget>, query: Node)
    requires IsCompiled(w, gadgets, query) && ProbesResolve(gadgets) && |gadgets| <= 1 && UniqueIds(w.nodes)
    requires forall i :: i in query.inputs ==> SourceFits(gadgets, i)
    requires forall g :: g in gadgets ==> Binds(query.inputs, g)
    ensures MadeOf(w, gadgets, query) && AllFed(w)
  {
    FittingSlots(gadgets, query);
    CompiledIsFed(w, gadgets, query);
    if gadgets != [] { assert Binds(query.inputs, gadgets[0]); }
  }

  lemma AcceptedSourcesFit(id: WorkflowId, ids: seq<string>, catalog: Catalog, budgets: Budgets, facts: Facts,
                           w: Workflow, capability: Capability, principal: Principal, order: seq<NodeId>)
    requires CompiledFrom(id, ids, catalog, budgets, facts, w, capability) && Accepted(w, principal, catalog, order)
    ensures AcquireUpTo(capability, facts, catalog, |capability.policies|).Ok? && UniqueIds(w.nodes)
    ensures
      var (inputs, gadgets) := AcquireUpTo(capability, facts, catalog, |capability.policies|).value;
      |gadgets| <= 1 && forall i :: i in inputs ==> SourceFits(gadgets, i)
  {
    AcceptedIsWellShaped(w, principal, catalog, order);
    CompiledAcceptedIff(id, ids, catalog, budgets, facts, w, capability, principal, order);
    var (inputs, gadgets) := AcquireUpTo(capability, facts, catalog, |capability.policies|).value;
    forall i | i in inputs ensures SourceFits(gadgets, i) { assert InputFits(capability, catalog, gadgets, i); }
  }

  lemma AcceptedIsMadeOf(id: WorkflowId, ids: seq<string>, catalog: Catalog, budgets: Budgets, facts: Facts,
                         w: Workflow, capability: Capability, principal: Principal, order: seq<NodeId>)
    requires CompiledFrom(id, ids, catalog, budgets, facts, w, capability) && Accepted(w, principal, catalog, order)
    ensures
      var (gadgets, query) := PartsOf(capability, facts, catalog);
      MadeOf(w, gadgets, query) && AllFed(w)
  {
    AcceptedSourcesFit(id, ids, catalog, budgets, facts, w, capability, principal, order);
    CompiledIsCompiled(id, ids, catalog, budgets, facts, w, capability);
    GadgetsAreRead(capability, facts, catalog, |capability.policies|);
    var (gadgets, query) := PartsOf(capability, facts, catalog);
    PartsMake(w, gadgets, query);
  }

  /**
   * A run of an accepted capability in which nothing crashes ends exactly as its probe and its
   * bindings say, whatever was answered; it fails only if a node was refused or cancelled, or
   * the budget starved it.
   */
  lemma AcceptedRunEnds(id: WorkflowId, ids: seq<string>, catalog: Catalog, budgets: Budgets, facts: Facts,
                        w: Workflow, capability: Capability, principal: Principal, order: seq<NodeId>,
                        db: Db, user: nat, turns: nat -> nat -> Turn)
    requires CompiledFrom(id, ids, catalog, budgets, facts, w, capability) && Accepted(w, principal, catalog, order)
    requires Begins(db, w, user) && Obedient(db, w, user, turns, 0)
    ensures
      var (gadgets, query) := PartsOf(capability, facts, catalog);
      var (last, j) := LastState(db, w, user, turns, 0);
      && |gadgets| <= 1
      && EndsAsOrFails(w, gadgets, query, Rows(db, w.id), Rows(last, w.id), turns(j),
                       RunStateless(db, w, user, turns, 0))
  {
    AcceptedIsMadeOf(id, ids, catalog, budgets, facts, w, capability, principal, order);
    var (gadgets, query) := PartsOf(capability, facts, catalog);
    CapabilityRunEnds(db, w, gadgets, query, user, turns);
  }

  // --------------------------------------------------------------------------- one session

  /** A run that waits, the answer it gets, and the run after it. */
  ghost predicate Session(first: Db, w: Workflow, user: nat, turns: nat -> nat -> Turn, request: ResumeRequest, db: Db,
                          later: nat -> nat -> Turn) {
    && Begins(first, w, user) && Obedient(first, w, user, turns, 0)
    && AnsweredThen(RunStateless(first, w, user, turns, 0), request, db) && Obedient(db, w, user, later, 0)
  }

  lemma OneGadgetAsksOnce(w: Workflow, gadgets: seq<Gadget>, query: Node)
    requires IsCompiled(w, gadgets, query) && ProbesResolve(gadgets) && |gadgets| <= 1
    ensures QuestionsApart(w)
  {
    forall m, n | IsQuestion(w, m) && IsQuestion(w, n) ensures m.id == n.id {
      OnlyQuestion(w, gadgets, query, m);
      OnlyQuestion(w, gadgets, query, n);
    }
  }

  /** What is known of a run that has stopped. */
  lemma StoppedRun(first: Db, w: Workflow, user: nat, turns: nat -> nat -> Turn) returns (now: nat -> Turn, last: Db)
    requires UniqueIds(w.nodes) && Begins(first, w, user) && Obedient(first, w, user, turns, 0)
    ensures LastIs(first, w, user, now, last, RunStateless(first, w, user, turns, 0))
    ensures Decided(w, Rows(RunStateless(first, w, user, turns, 0).db, w.id))
  {
    RunEnds(first, w, user, turns, 0);
    DecidedOnTheWay(first, w, user, turns, 0);
    var (before, j) := LastState(first, w, user, turns, 0);
    now, last := turns(j), before;
  }

  lemma StoppedTable(first: Db, w: Workflow, user: nat, now: nat -> Turn, last: Db, r: RunResult)
    requires LastIs(first, w, user, now, last, r)
    ensures TableInv(w, Rows(r.db, w.id)) && KeepsCompleted(Rows(first, w.id), Rows(r.db, w.id))
  {
    StopKeepsRows(w, last, now, r.db, r.outcome);
    PrefixKeeps(Rows(first, w.id), Rows(r.db, w.id));
  }

  lemma AnswerLeaves(first: Db, w: Workflow, user: nat, now: nat -> Turn, last: Db, stopped: RunResult,
                     request: ResumeRequest, db: Db)
    requires QuestionsApart(w) && Owned(first, w, user) && LastIs(first, w, user, now, last, stopped)
    requires AnsweredThen(stopped, request, db)
    ensures Settled(w, Rows(db, w.id)) && Owned(db, w, user) && IsCompleted(Rows(db, w.id), stopped.outcome.node)
    ensures KeepsCompleted(Rows(stopped.db, w.id), Rows(db, w.id))
  {
    AnswerContinues(first, w, user, now, last, stopped, request, db);
  }

  lemma DecidedAfterAnswer(w: Workflow, t: seq<Row>, p: NodeId, b: seq<Row>)
    requires TableInv(w, t) && Decided(w, t) && b == SetStatus(t, p, Status.Waiting, Status.Completed)
    ensures Decided(w, b)
  {
    AnsweredDecided(w, t, p);
  }

  lemma WaitingAnswerIsOwn(first: Db, w: Workflow, user: nat, now: nat -> Turn, last: Db, stopped: RunResult,
                           request: ResumeRequest, db: Db)
    requires Owned(first, w, user) && LastIs(first, w, user, now, last, stopped)
    requires AnsweredThen(stopped, request, db)
    ensures Rows(db, w.id) == SetStatus(Rows(stopped.db, w.id), stopped.outcome.node, Status.Waiting, Status.Completed)
  {
    AnswerIsItsOwn(w, user, last, stopped, request, db);
  }

  lemma AnswerStaysDecided(first: Db, w: Workflow, user: nat, now: nat -> Turn, last: Db, stopped: RunResult,
                           request: ResumeRequest, db: Db)
    requires Owned(first, w, user) && LastIs(first, w, user, now, last, stopped)
    requires Decided(w, Rows(stopped.db, w.id)) && AnsweredThen(stopped, request, db)
    ensures Rows(db, w.id) == SetStatus(Rows(stopped.db, w.id), stopped.outcome.node, Status.Waiting, Status.Completed)
    ensures Decided(w, Rows(db, w.id))
  {
    var t, b := Rows(stopped.db, w.id), Rows(db, w.id);
    StoppedTable(first, w, user, now, last, stopped);
    WaitingAnswerIsOwn(first, w, user, now, last, stopped, request, db);
    DecidedAfterAnswer(w, t, stopped.outcome.node, b);
  }

  /** The answer leaves a state from which a run may begin, with the question completed. */
  lemma AnsweredBegins(first: Db, w: Workflow, user: nat, now: nat -> Turn, last: Db, stopped: RunResult,
                       request: ResumeRequest, db: Db)
    requires QuestionsApart(w) && Owned(first, w, user) && LastIs(first, w, user, now, last, stopped)
    requires Decided(w, Rows(stopped.db, w.id)) && AnsweredThen(stopped, request, db)
    ensures Begins(db, w, user) && IsCompleted(Rows(db, w.id), stopped.outcome.node)
    ensures KeepsCompleted(Rows(stopped.db, w.id), Rows(db, w.id))
    ensures Rows(db, w.id) == SetStatus(Rows(stopped.db, w.id), stopped.outcome.node, Status.Waiting, Status.Completed)
  {
    AnswerLeaves(first, w, user, now, last, stopped, request, db);
    AnswerStaysDecided(first, w, user, now, last, stopped, request, db);
  }

  /** How the run after the answer ends, by the bindings the query had when the question was asked. */
  ghost predicate AnsweredEnds(w: Workflow, query: Node, asked: seq<Row>, r: RunResult) {
    var t := Rows(r.db, w.id);
    if HasBindings(query, asked) then r.outcome.Completed? && IsCompleted(t, COMPLETE)
    else r.outcome.Error? && RunsIn(t, EXECUTE)
  }

  lemma AnsweredNodes(t: seq<Row>, p: NodeId, n: NodeId)
    requires p != n
    ensures IsCompleted(SetStatus(t, p, Status.Waiting, Status.Completed), n) ==> IsCompleted(t, n)
  {
    var b := SetStatus(t, p, Status.Waiting, Status.Completed);
    if r :| r in b && r.node == n && r.status.Completed? {
      var i :| 0 <= i < |b| && b[i] == r;
      assert t[i] in t;
    }
  }

  lemma OthersHaveFailed(t: seq<Row>, i: nat, k: nat)
    requires WellKept(t) && i < |t| && k < |t| && t[i].node == t[k].node && !t[i].status.Failed?
    ensures k == i || t[k].status.Failed?
  {
  }

  lemma WaitingIsNotCompleted(t: seq<Row>, p: NodeId)
    requires WellKept(t) && exists r :: r in t && r.node == p && r.status.Waiting?
    ensures !IsCompleted(t, p)
  {
    var i :| 0 <= i < |t| && t[i].node == p && t[i].status.Waiting?;
    forall r | r in t && r.node == p ensures !r.status.Completed? {
      var k :| 0 <= k < |t| && t[k] == r;
      OthersHaveFailed(t, i, k);
    }
  }

  /** While the selection waits, the query has not completed. */
  lemma QueryNotBeforeAnswer(w: Workflow, g: Gadget, query: Node, t: seq<Row>)
    requires IsCompiled(w, [g], query) && g.Probing? && TableInv(w, t)
    requires exists r :: r in t && r.node == SelectId(g.name) && r.status.Waiting?
    ensures !IsCompleted(t, EXECUTE)
  {
    WaitingIsNotCompleted(t, SelectId(g.name));
    SelectAfterMany(w, g, query, t);
    if IsCompleted(t, EXECUTE) { QueryAfterOneOrAnswer(w, g, query, t); }
  }

  lemma AnsweredProbeEnds(w: Workflow, g: Gadget, query: Node, asked: seq<Row>, a: seq<Row>, r: RunResult)
    requires IsCompiled(w, [g], query) && g.Probing? && ReadsOnly(query, g) && EndsByArm(w, g, query, a, r)
    requires CardinalityFor(asked, ResolveId(g.name)) == Some(Many)
    requires KeepsCompleted(asked, Rows(r.db, w.id)) && WellKept(Rows(r.db, w.id))
    requires IsCompleted(a, SelectId(g.name)) && !IsCompleted(a, EXECUTE)
    ensures AnsweredEnds(w, query, asked, r)
  {
    ShownIsCompleted(asked, ResolveId(g.name));
    FindStays(asked, Rows(r.db, w.id), ResolveId(g.name));
    BoundStays(query, g, asked, Rows(r.db, w.id));
  }

  lemma KeepsCompletedTransitive(a: seq<Row>, b: seq<Row>, c: seq<Row>)
    requires KeepsCompleted(a, b) && KeepsCompleted(b, c)
    ensures KeepsCompleted(a, c)
  {
  }

  lemma SlotsAreOfOne(query: Node, g: Gadget)
    requires SlotsFromProbes(query, [g])
    ensures ReadsOnly(query, g)
  {
  }

  lemma StoppedWaits(first: Db, w: Workflow, user: nat, now: nat -> Turn, last: Db, r: RunResult)
    requires LastIs(first, w, user, now, last, r) && r.outcome.WaitingFor?
    ensures exists row :: row in Rows(r.db, w.id) && row.node == r.outcome.node && row.status.Waiting?
  {
    var base := Rows(last, w.id);
    WaitsAtRow(w, base, SelectBatch(w, FromCompleted(w, base), base), now, Rows(r.db, w.id), r.outcome.node);
  }

  lemma WaitsAtRow(w: Workflow, base: seq<Row>, batch: seq<Node>, now: nat -> Turn, t: seq<Row>, p: NodeId)
    requires RowsLeft(w, batch, base, now, t) && WaitsAt(w, batch, base, now, t, p)
    ensures exists row :: row in t && row.node == p && row.status.Waiting?
  {
    var k: nat :| k < |batch| && batch[k].id == p && |base| + k < |t| && t[|base| + k].status.Waiting?;
    assert RowLeft(w, batch[k], base, now(k), t[|base| + k]) && t[|base| + k] in t;
  }

  lemma ProbeSessionEnds(w: Workflow, g: Gadget, query: Node, asked: seq<Row>, a: seq<Row>, r: RunResult)
    requires IsCompiled(w, [g], query) && g.Probing? && SlotsFromProbes(query, [g]) && EndsByArm(w, g, query, a, r)
    requires CardinalityFor(asked, ResolveId(g.name)) == Some(Many) && TableInv(w, asked)
    requires exists row :: row in asked && row.node == SelectId(g.name) && row.status.Waiting?
    requires a == SetStatus(asked, SelectId(g.name), Status.Waiting, Status.Completed) && KeepsCompleted(asked, a)
    requires IsCompleted(a, SelectId(g.name)) && KeepsCompleted(a, Rows(r.db, w.id)) && WellKept(Rows(r.db, w.id))
    ensures AnsweredEnds(w, query, asked, r)
  {
    QueryNotBeforeAnswer(w, g, query, asked);
    Levels(g.name);
    AnsweredNodes(asked, SelectId(g.name), EXECUTE);
    KeepsCompletedTransitive(asked, a, Rows(r.db, w.id));
    SlotsAreOfOne(query, g);
    AnsweredProbeEnds(w, g, query, asked, a, r);
  }

  lemma QuestionSessionEnds(w: Workflow, g: Gadget, query: Node, asked: seq<Row>, a: seq<Row>, r: RunResult)
    requires g.Asking? && SlotsFromProbes(query, [g]) && EndsAs(w, [g], query, a, r)
    requires IsCompleted(a, ClarifyId(g.name))
    ensures AnsweredEnds(w, query, asked, r)
  {
    SlotsAreOfOne(query, g);
    PlainIsBound(query, asked);
  }

  lemma WaitingIsAtQuestion(w: Workflow, gadgets: seq<Gadget>, query: Node, a: seq<Row>, r: RunResult)
    requires |gadgets| <= 1 && EndsAs(w, gadgets, query, a, r) && r.outcome.WaitingFor?
    ensures |gadgets| == 1 && gadgets == [gadgets[0]] && r.outcome == WaitingFor(QuestionOf(gadgets[0]))
    ensures gadgets[0].Probing? ==> CardinalityFor(Rows(r.db, w.id), ResolveId(gadgets[0].name)) == Some(Many)
  {
  }

  /** Where the first run stopped, and what its probe showed. */
  lemma FirstRunStops(first: Db, w: Workflow, gadgets: seq<Gadget>, query: Node, user: nat, turns: nat -> nat -> Turn)
      returns (g: Gadget)
    requires MadeOf(w, gadgets, query) && Begins(first, w, user) && Obedient(first, w, user, turns, 0)
    requires RunStateless(first, w, user, turns, 0).outcome.WaitingFor?
    ensures gadgets == [g] && RunStateless(first, w, user, turns, 0).outcome == WaitingFor(QuestionOf(g))
    ensures g.Probing? ==>
              CardinalityFor(Rows(RunStateless(first, w, user, turns, 0).db, w.id), ResolveId(g.name)) == Some(Many)
  {
    CapabilityRunEnds(first, w, gadgets, query, user, turns);
    WaitingIsAtQuestion(w, gadgets, query, Rows(first, w.id), RunStateless(first, w, user, turns, 0));
    g := gadgets[0];
  }

  /** How the run after the answer ends, given how any run from there does. */
  lemma SecondRunEnds(w: Workflow, g: Gadget, query: Node, user: nat, first: Db, now: nat -> Turn, last: Db,
                      stopped: RunResult, request: ResumeRequest, db: Db, r: RunResult)
    requires MadeOf(w, [g], query) && LastIs(first, w, user, now, last, stopped) && Owned(first, w, user)
    requires Decided(w, Rows(stopped.db, w.id)) && AnsweredThen(stopped, request, db)
    requires stopped.outcome == WaitingFor(QuestionOf(g))
    requires g.Probing? ==> CardinalityFor(Rows(stopped.db, w.id), ResolveId(g.name)) == Some(Many)
    requires EndsAs(w, [g], query, Rows(db, w.id), r) && WellKept(Rows(r.db, w.id))
    requires KeepsCompleted(Rows(db, w.id), Rows(r.db, w.id))
    ensures AnsweredEnds(w, query, Rows(stopped.db, w.id), r)
  {
    OneGadgetAsksOnce(w, [g], query);
    AnsweredBegins(first, w, user, now, last, stopped, request, db);
    if g.Asking? {
      QuestionSessionEnds(w, g, query, Rows(stopped.db, w.id), Rows(db, w.id), r);
    } else {
      StoppedWaits(first, w, user, now, last, stopped);
      StoppedTable(first, w, user, now, last, stopped);
      ProbeSessionEnds(w, g, query, Rows(stopped.db, w.id), Rows(db, w.id), r);
    }
  }

  /** The run after the answer begins well. */
  lemma AnsweredMayBegin(first: Db, w: Workflow, gadgets: seq<Gadget>, query: Node, user: nat,
                         turns: nat -> nat -> Turn, request: ResumeRequest, db: Db)
    requires MadeOf(w, gadgets, query) && Begins(first, w, user) && Obedient(first, w, user, turns, 0)
    requires AnsweredThen(RunStateless(first, w, user, turns, 0), request, db)
    ensures Begins(db, w, user)
  {
    OneGadgetAsksOnce(w, gadgets, query);
    var now, last := StoppedRun(first, w, user, turns);
    AnsweredBegins(first, w, user, now, last, RunStateless(first, w, user, turns, 0), request, db);
  }

  /** The end of a session, when the run after the answer did not fail. */
  lemma UnfailedSessionEnds(first: Db, w: Workflow, g: Gadget, query: Node, user: nat, turns: nat -> nat -> Turn,
                            request: ResumeRequest, db: Db, later: nat -> nat -> Turn)
    requires MadeOf(w, [g], query) && Session(first, w, user, turns, request, db, later) && Begins(db, w, user)
    requires EndsAs(w, [g], query, Rows(db, w.id), RunStateless(db, w, user, later, 0))
    ensures AnsweredEnds(w, query, Rows(RunStateless(first, w, user, turns, 0).db, w.id),
                         RunStateless(db, w, user, later, 0))
  {
    var same := FirstRunStops(first, w, [g], query, user, turns);
    var now, last := StoppedRun(first, w, user, turns);
    var second, end := StoppedRun(db, w, user, later);
    StoppedTable(db, w, user, second, end, RunStateless(db, w, user, later, 0));
    SecondRunEnds(w, g, query, user, first, now, last, RunStateless(first, w, user, turns, 0), request, db,
                  RunStateless(db, w, user, later, 0));
  }

  /**
   * The run after an accepted answer completes if and only if the query had its bindings when
   * it was asked; otherwise it ends in an error with the query running, unless it fails for want
   * of budget or by a refusal.
   */
  lemma AnsweredRunEnds(first: Db, w: Workflow, gadgets: seq<Gadget>, query: Node, user: nat,
                        turns: nat -> nat -> Turn, request: ResumeRequest, db: Db, later: nat -> nat -> Turn)
    requires MadeOf(w, gadgets, query) && Session(first, w, user, turns, request, db, later)
    ensures |gadgets| == 1
    ensures
      var (last, j) := LastState(db, w, user, later, 0);
      var stopped, r := RunStateless(first, w, user, turns, 0), RunStateless(db, w, user, later, 0);
      if r.outcome.Failed? then FailedFor(w, Rows(last, w.id), later(j))
      else AnsweredEnds(w, query, Rows(stopped.db, w.id), r)
  {
    var g := FirstRunStops(first, w, gadgets, query, user, turns);
    AnsweredMayBegin(first, w, gadgets, query, user, turns, request, db);
    CapabilityRunEnds(db, w, gadgets, query, user, later);
    if !RunStateless(db, w, user, later, 0).outcome.Failed? {
      UnfailedSessionEnds(first, w, g, query, user, turns, request, db, later);
    }
  }
}
