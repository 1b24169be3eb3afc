/**
 * A session that fails: a probe that returns several rows, an accepted selection, and a run
 * that ends in an error with the query left running. It exists for every capability that probes.
 */
module FailedSelection {
  import opened Wrappers
  import opened Json
  import opened Contract
  import opened Catalogs
  import opened Scheduler
  import opened Ledger
  import opened Store
  import opened Runner
  import opened History
  import opened Branching
  import opened BudgetSafety
  import opened Supply
  import opened Verifier
  import opened Compiler
  import opened CompiledShape
  import opened CompiledVerdict
  import opened CompiledRuns
  import opened Endings
  import opened Liveness
  import opened Dialogues
  import opened Executor
  import opened CompiledLiveness
  import opened CompiledSessions
  import opened ExecutedSessions

  // ------------------------------------------------------------- the probe comes before all else

  lemma NotFoundMeansProbe(w: Workflow, g: Gadget, query: Node, t: seq<Row>)
    requires IsCompiled(w, [g], query) && g.Probing? && TableInv(w, t) && Started(w, t, NotFoundId(g.name))
    ensures IsCompleted(t, ResolveId(g.name))
  {
    Levels(g.name);
    InnerIsNoEntry(w, [g], query, g, NotFoundId(g.name));
    var e := StartedThroughEdge(w, t, NotFoundId(g.name));
    EdgesInto(w, g, query, e);
    ShownBranchMeansProbe(w, g, query, t);
  }

  lemma TerminalMeansProbe(w: Workflow, g: Gadget, query: Node, t: seq<Row>)
    requires IsCompiled(w, [g], query) && g.Probing? && TableInv(w, t) && Started(w, t, COMPLETE)
    ensures IsCompleted(t, ResolveId(g.name))
  {
    var last := Edge(EXECUTE, COMPLETE, Always);
    assert last in w.edges;
    var e := StartedThroughEdge(w, t, COMPLETE);
    EdgeIntoTerminal(w, g, query, e);
    QueryMeansProbe(w, g, query, t);
  }

  lemma EdgeIntoTerminal(w: Workflow, g: Gadget, query: Node, e: Edge)
    requires IsCompiled(w, [g], query) && g.Probing? && e in w.edges && e.target == COMPLETE
    ensures e.source == EXECUTE
  {
    Levels(g.name);
    if e in AllEdges([g]) {
      EdgeOfGadget([g], e);
      GadgetEdgeList(g, e);
    }
  }

  /** Every other node is started only after the probe has completed. */
  lemma OthersMeanProbe(w: Workflow, g: Gadget, query: Node, t: seq<Row>, id: NodeId)
    requires IsCompiled(w, [g], query) && g.Probing? && TableInv(w, t) && id in Ids(w.nodes)
    requires Started(w, t, id) && id != ResolveId(g.name)
    ensures IsCompleted(t, ResolveId(g.name))
  {
    CompiledIds(w, [g], query);
    if id == EXECUTE {
      QueryMeansProbe(w, g, query, t);
    } else if id == COMPLETE {
      TerminalMeansProbe(w, g, query, t);
    } else if id == BranchId(g.name) {
      BranchAfterProbe(w, g, query, t);
    } else if id == SelectId(g.name) {
      SelectMeansProbe(w, g, query, t);
    } else {
      assert Made([g], id);
      NotFoundMeansProbe(w, g, query, t);
    }
  }

  lemma {:induction false} NoneCompleted(t: seq<Row>)
    requires forall r :: r in t ==> !r.status.Completed?
    ensures CompletedCount(t) == 0
  {
    if t != [] {
      assert t[|t| - 1] in t;
      NoneCompleted(t[..|t| - 1]);
    }
  }

  /** Before the probe has completed nothing has. */
  lemma NothingBeforeProbe(w: Workflow, g: Gadget, query: Node, t: seq<Row>)
    requires IsCompiled(w, [g], query) && g.Probing? && TableInv(w, t) && !IsCompleted(t, ResolveId(g.name))
    ensures CompletedCount(t) == 0
  {
    forall r | r in t ensures !r.status.Completed? {
      var i :| 0 <= i < |t| && t[i] == r;
      assert Belongs(w, t[i]);
      if r.node != ResolveId(g.name) { OthersMeanProbe(w, g, query, t, r.node); }
    }
    NoneCompleted(t);
  }

  // -------------------------------------------------------------------- the guard lets it through

  /** The caps and the caller let the executor carry out the probe, and two rows fit. */
  ghost predicate LetsProbe(w: Workflow, g: Gadget, query: Node, access: Access)
    requires g.Probing?
  {
    && PolicyPasses(ProbeOf(g), access) && query.kind.ExecuteQuery? && query.kind.capability.Some?
    && g.budget.timeoutMs > 0 && g.budget.rowCap >= 2 && query.budget.rowCap >= 2 && FitsCaps(w)
  }

  lemma ProbeFitsBudget(w: Workflow, g: Gadget, query: Node, t: seq<Row>)
    requires IsCompiled(w, [g], query) && g.Probing? && ProbesResolve([g]) && FitsCaps(w) && CompletedCount(t) == 0
    ensures !OverBudget(w, t, ProbeOf(g))
  {
    ProbeIsMember(w, g, query);
    PartDeclaresLess([ProbeOf(g)], w.nodes);
    DeclaredOne(ProbeOf(g));
  }

  lemma ProbeIsNotRefused(w: Workflow, g: Gadget, query: Node, access: Access, t: seq<Row>, scope: Json, data: Json)
    requires IsCompiled(w, [g], query) && g.Probing? && ProbesResolve([g]) && LetsProbe(w, g, query, access)
    requires TableInv(w, t) && IsRunnable(w, ResolveId(g.name), t)
    requires BindingsFor(ProbeOf(g).inputs, t, scope).Some?
    ensures !Execute(w, ProbeOf(g), BindingsFor(ProbeOf(g).inputs, t, scope).value, t, access, Some(data), 0).Refused?
  {
    ProbeIsMember(w, g, query);
    NothingBeforeProbe(w, g, query, t);
    ProbeFitsBudget(w, g, query, t);
    assert ActsAs(ProbeOf(g), g.backing);
    RefusedIff(w, ProbeOf(g), t, scope, t, access, Some(data), 0);
  }

  // -------------------------------------------------------------------------- such a database

  const TWO_ROWS := Object(map["rows" := Array([Null, Null])])

  lemma TwoRows()
    ensures DataRows(TWO_ROWS) == [Null, Null]
  {
  }

  /** The executor's answer from a database that always returns two rows. */
  function TwoRowTurn(w: Workflow, access: Access, t: seq<Row>, n: Node): Turn {
    var bindings := match BindingsFor(n.inputs, t, Null) case None => map[] case Some(b) => b;
    Turn(true, Null, false, 0,
         if Guarded(n) || n.kind.ClarificationInterrupt? then Execute(w, n, bindings, t, access, Some(TWO_ROWS), 0)
         else if Composes(n) then Produced(Null, 0) else Crash, false)
  }

  function TwoRowWorld(w: Workflow, access: Access): World {
    t => (j: nat) =>
           var batch := SelectBatch(w, FromCompleted(w, t), t);
           if j < |batch| then TwoRowTurn(w, access, t, batch[j]) else Turn(true, Null, false, 0, Refused, false)
  }

  ghost function InTwoRowWorld(w: Workflow, access: Access): Claim {
    (t, now) => now == TwoRowWorld(w, access)(t)
  }

  lemma GuardedNodes(w: Workflow, g: Gadget, query: Node, n: Node)
    requires IsCompiled(w, [g], query) && g.Probing? && ProbesResolve([g]) && n in w.nodes && Guarded(n)
    ensures n == ProbeOf(g) || n == query
  {
    if n in AllNodes([g]) {
      NodeOfGadget([g], n);
      GadgetNodeKinds(g, n);
    }
  }

  lemma TwoRowsAreExecuted(w: Workflow, access: Access, t: seq<Row>, n: Node)
    requires access.answers(TWO_ROWS)
    ensures Executed(w, access, t, n, TwoRowTurn(w, access, t, n))
  {
  }

  lemma TwoRowsObey(w: Workflow, access: Access, t: seq<Row>, n: Node)
    requires Guarded(n) ==> DeclaredCapability(n).Some?
    ensures Obeys(n, TwoRowTurn(w, access, t, n))
  {
  }

  lemma TwoRowsAreKept(w: Workflow, access: Access, t: seq<Row>, n: Node)
    requires Guarded(n) ==> n.budget.rowCap >= 2
    ensures KeepsLimits(n, TwoRowTurn(w, access, t, n))
  {
    TwoRows();
  }

  lemma TwoRowTurnIsGood(w: Workflow, g: Gadget, query: Node, access: Access, t: seq<Row>, n: Node)
    requires IsCompiled(w, [g], query) && g.Probing? && ProbesResolve([g]) && LetsProbe(w, g, query, access)
    requires n in w.nodes && access.answers(TWO_ROWS)
    ensures
      var turn := TwoRowTurn(w, access, t, n);
      Obeys(n, turn) && KeepsLimits(n, turn) && Executed(w, access, t, n, turn)
  {
    if Guarded(n) { GuardedNodes(w, g, query, n); }
    TwoRowsObey(w, access, t, n);
    TwoRowsAreKept(w, access, t, n);
    TwoRowsAreExecuted(w, access, t, n);
  }

  lemma TwoRowWorldIsGood(w: Workflow, g: Gadget, query: Node, access: Access, t: seq<Row>)
    requires IsCompiled(w, [g], query) && g.Probing? && ProbesResolve([g]) && LetsProbe(w, g, query, access)
    requires access.answers(TWO_ROWS)
    ensures
      var now := TwoRowWorld(w, access)(t);
      ObeysNow(w, t, now) && KeepsNow(w, t, now)
      && AllExecuted(w, access, t, SelectBatch(w, FromCompleted(w, t), t), now)
  {
    var batch, now := SelectBatch(w, FromCompleted(w, t), t), TwoRowWorld(w, access)(t);
    FirstOfBatchRunnable(w, FromCompleted(w, t), t);
    forall j: nat | j < |batch|
      ensures Obeys(batch[j], now(j)) && KeepsLimits(batch[j], now(j)) && Executed(w, access, t, batch[j], now(j))
    {
      assert batch[j] in batch;
      TwoRowTurnIsGood(w, g, query, access, t, batch[j]);
    }
  }

  lemma TwoRowTurns(w: Workflow, g: Gadget, query: Node, access: Access, db: Db, user: nat)
      returns (turns: nat -> nat -> Turn)
    requires IsCompiled(w, [g], query) && g.Probing? && ProbesResolve([g]) && LetsProbe(w, g, query, access)
    requires access.answers(TWO_ROWS)
    ensures Throughout(db, w, user, turns, 0, InTwoRowWorld(w, access))
    ensures Obedient(db, w, user, turns, 0) && Throughout(db, w, user, turns, 0, Keeping(w))
    ensures Throughout(db, w, user, turns, 0, CarriedOut(w, access))
  {
    var claim := InTwoRowWorld(w, access);
    turns := SomeWorldFollows(db, w, user, 0, TwoRowWorld(w, access), claim);
    forall t, now | claim(t, now) ensures Obeying(w)(t, now) && Keeping(w)(t, now) && CarriedOut(w, access)(t, now) {
      TwoRowWorldIsGood(w, g, query, access, t);
    }
    ThroughoutWeakens(db, w, user, turns, 0, claim, Obeying(w));
    ThroughoutWeakens(db, w, user, turns, 0, claim, Keeping(w));
    ThroughoutWeakens(db, w, user, turns, 0, claim, CarriedOut(w, access));
  }

  // ------------------------------------------------------------------------------ the first run

  /** Where the database only ever returns two rows, the query is not reached without an answer. */
  lemma QueryIsNotReached(w: Workflow, g: Gadget, query: Node, a: seq<Row>, last: seq<Row>, data: Json)
    requires MadeOf(w, [g], query) && g.Probing? && PlainName(g.slot.name) && Known(w, query, a, last)
    requires !IsCompleted(a, SelectId(g.name)) && Probed(g, last, data) && |DataRows(data)| == 2
    ensures !Started(w, last, EXECUTE)
  {
    if Started(w, last, EXECUTE) {
      QueryAfterOneOrAnswer(w, g, query, last);
      if IsCompleted(last, SelectId(g.name)) {
        QuestionWasAnswered(w, [g], query, a, last, g);
      } else {
        ShownIsCompleted(last, BranchId(g.name));
        ProbeShowsSame(w, g, query, last, One);
        ProbeIsMember(w, g, query);
        ProbedShows(g, last, data);
      }
    }
  }

  lemma NobodyIsRefused(w: Workflow, g: Gadget, query: Node, access: Access, a: seq<Row>, last: seq<Row>, n: Node)
    requires MadeOf(w, [g], query) && g.Probing? && PlainName(g.slot.name) && LetsProbe(w, g, query, access)
    requires Known(w, query, a, last) && !IsCompleted(a, SelectId(g.name)) && ProbeServed(ProbeOf(g), access, last)
    requires forall data :: access.answers(data) ==> |DataRows(data)| == 2
    requires n in w.nodes && IsRunnable(w, n.id, last)
    ensures FateOf(w, n, last, TwoRowTurn(w, access, last, n)) != CutShort
  {
    var turn := TwoRowTurn(w, access, last, n);
    if Guarded(n) && HasBindings(n, last) {
      GuardedNodes(w, g, query, n);
      ProbeIsMember(w, g, query);
      if n == ProbeOf(g) {
        ProbeIsNotRefused(w, g, query, access, last, Null, TWO_ROWS);
      } else {
        QueryMeansProbe(w, g, query, last);
        var data := ServedIsProbed(g, access, last);
        QueryIsNotReached(w, g, query, a, last, data);
      }
    }
  }

  lemma TwoRowWorldAt(w: Workflow, access: Access, t: seq<Row>, k: nat)
    requires k < |SelectBatch(w, FromCompleted(w, t), t)|
    ensures TwoRowWorld(w, access)(t)(k) == TwoRowTurn(w, access, t, SelectBatch(w, FromCompleted(w, t), t)[k])
  {
  }

  lemma FirstBatchIsNotShort(w: Workflow, g: Gadget, query: Node, access: Access, a: seq<Row>, last: seq<Row>,
                             now: nat -> Turn)
    requires MadeOf(w, [g], query) && g.Probing? && PlainName(g.slot.name) && LetsProbe(w, g, query, access)
    requires Known(w, query, a, last) && !IsCompleted(a, SelectId(g.name)) && ProbeServed(ProbeOf(g), access, last)
    requires forall data :: access.answers(data) ==> |DataRows(data)| == 2
    requires now == TwoRowWorld(w, access)(last)
    ensures !SomeFate(w, SelectBatch(w, FromCompleted(w, last), last), last, now, CutShort)
  {
    var batch := SelectBatch(w, FromCompleted(w, last), last);
    forall k: nat | k < |batch| ensures FateOf(w, batch[k], last, now(k)) != CutShort {
      BatchMember(w, last, k);
      TwoRowWorldAt(w, access, last, k);
      NobodyIsRefused(w, g, query, access, a, last, batch[k]);
    }
  }

  /** A job that has run nothing yet, with a memory row to keep its clarification. */
  ghost predicate FreshJob(db: Db, w: Workflow, user: nat) {
    Rows(db, w.id) == [] && Owned(db, w, user) && db.job.memory
  }

  lemma FreshBegins(db: Db, w: Workflow, user: nat)
    requires FreshJob(db, w, user)
    ensures Begins(db, w, user) && AllWithin(w, Rows(db, w.id))
  {
  }

  lemma FreshIsServed(w: Workflow, g: Gadget, access: Access, db: Db, user: nat)
    requires FreshJob(db, w, user) && g.Probing? && PlainName(g.slot.name)
    ensures ServedSoFar([g], access, Rows(db, w.id)) && forall h :: h in [g] && h.Probing? ==> PlainName(h.slot.name)
  {
  }

  /** The run on a fresh job waits at the selection. */
  lemma FirstRunWaits(w: Workflow, g: Gadget, query: Node, access: Access, db: Db, user: nat,
                      turns: nat -> nat -> Turn)
    requires MadeOf(w, [g], query) && g.Probing? && PlainName(g.slot.name) && LetsProbe(w, g, query, access)
    requires forall data :: access.answers(data) ==> |DataRows(data)| == 2
    requires FreshJob(db, w, user) && Throughout(db, w, user, turns, 0, InTwoRowWorld(w, access))
    requires Obedient(db, w, user, turns, 0) && Throughout(db, w, user, turns, 0, Keeping(w))
    requires Throughout(db, w, user, turns, 0, CarriedOut(w, access))
    ensures RunStateless(db, w, user, turns, 0).outcome == WaitingFor(SelectId(g.name))
  {
    FreshBegins(db, w, user);
    FirstRunDoesNotFail(w, g, query, access, db, user, turns);
    var data := UnfailedRunEnds(db, w, g, query, access, user, turns);
  }

  lemma FirstRunDoesNotFail(w: Workflow, g: Gadget, query: Node, access: Access, db: Db, user: nat,
                            turns: nat -> nat -> Turn)
    requires MadeOf(w, [g], query) && g.Probing? && PlainName(g.slot.name) && LetsProbe(w, g, query, access)
    requires forall data :: access.answers(data) ==> |DataRows(data)| == 2
    requires FreshJob(db, w, user) && Throughout(db, w, user, turns, 0, InTwoRowWorld(w, access))
    requires Obedient(db, w, user, turns, 0) && Throughout(db, w, user, turns, 0, Keeping(w))
    requires Throughout(db, w, user, turns, 0, CarriedOut(w, access))
    ensures !RunStateless(db, w, user, turns, 0).outcome.Failed?
  {
    FreshBegins(db, w, user);
    var (last, j) := LastState(db, w, user, turns, 0);
    LastIsKnown(db, w, query, user, turns);
    ProbeIsMember(w, g, query);
    ServedOnTheWay(db, w, ProbeOf(g), access, user, turns, 0);
    ThroughoutLast(db, w, user, turns, 0, InTwoRowWorld(w, access));
    FirstBatchIsNotShort(w, g, query, access, Rows(db, w.id), Rows(last, w.id), turns(j));
    WithinOnTheWay(db, w, user, turns, 0);
    if RunnableNodes(w, Rows(last, w.id)) != [] { FittingIsNotStarved(w, Rows(last, w.id)); }
    CapabilityRunEnds(db, w, [g], query, user, turns);
  }

  // -------------------------------------------------------------------- the answer and after it

  /** The one answer that fits a paused job. */
  function FittingAnswer(stopped: Db, w: Workflow, p: NodeId): ResumeRequest {
    ResumeRequest(stopped.job.id, stopped.job.user, w.id, p,
                  if stopped.job.pending.Some? then stopped.job.pending.value else 0, stopped.job.revision)
  }

  lemma FittingAnswerResumes(w: Workflow, user: nat, last: Db, stopped: RunResult)
    requires Owned(last, w, user) && last.job.memory && stopped.outcome.WaitingFor?
    requires JobWaits(last.job, stopped.db.job, stopped.outcome.node)
    ensures Resume(stopped.db, FittingAnswer(stopped.db, w, stopped.outcome.node)).1.Resumed?
  {
  }

  lemma AnsweringKeepsWithin(w: Workflow, t: seq<Row>, p: NodeId, b: seq<Row>)
    requires TableInv(w, t) && AllWithin(w, t) && b == SetStatus(t, p, Status.Waiting, Status.Completed)
    ensures AllWithin(w, b)
  {
    forall r | r in b ensures WithinDeclared(w, r) {
      var i :| 0 <= i < |b| && b[i] == r;
      assert t[i] in t && Belongs(w, t[i]);
    }
  }

  lemma ServedIsNotFailed(db: Db, w: Workflow, gadgets: seq<Gadget>, query: Node, user: nat, turns: nat -> nat -> Turn)
    requires MadeOf(w, gadgets, query) && FitsCaps(w) && Begins(db, w, user) && AllWithin(w, Rows(db, w.id))
    requires Throughout(db, w, user, turns, 0, Serving(w)) && Throughout(db, w, user, turns, 0, Keeping(w))
    ensures !RunStateless(db, w, user, turns, 0).outcome.Failed?
  {
    ThroughoutWeakens(db, w, user, turns, 0, Serving(w), Obeying(w));
    ServedRunDoesNotFail(db, w, user, turns);
    CapabilityRunEnds(db, w, gadgets, query, user, turns);
  }

  ghost function InWillingWorld(w: Workflow): Claim {
    (t, now) => now == Willing(w)(t)
  }

  lemma WillingIsLight(w: Workflow, t: seq<Row>)
    ensures Serving(w)(t, Willing(w)(t)) && Keeping(w)(t, Willing(w)(t))
  {
    WillingServes(w, t);
  }

  /** Turns that serve the run and take no time and no rows. */
  lemma LightTurns(db: Db, w: Workflow, user: nat) returns (turns: nat -> nat -> Turn)
    ensures Throughout(db, w, user, turns, 0, Serving(w)) && Throughout(db, w, user, turns, 0, Keeping(w))
    ensures Obedient(db, w, user, turns, 0)
  {
    turns := SomeWorldFollows(db, w, user, 0, Willing(w), InWillingWorld(w));
    forall t, now | InWillingWorld(w)(t, now) ensures Serving(w)(t, now) && Keeping(w)(t, now) {
      WillingIsLight(w, t);
    }
    ThroughoutWeakens(db, w, user, turns, 0, InWillingWorld(w), Serving(w));
    ThroughoutWeakens(db, w, user, turns, 0, InWillingWorld(w), Keeping(w));
    ThroughoutWeakens(db, w, user, turns, 0, Serving(w), Obeying(w));
  }

  lemma StoppedCanBeAnswered(w: Workflow, user: nat, first: Db, now: nat -> Turn, last: Db, stopped: RunResult)
      returns (request: ResumeRequest, db: Db)
    requires LastIs(first, w, user, now, last, stopped) && Owned(first, w, user) && first.job.memory
    requires stopped.outcome.WaitingFor?
    ensures AnsweredThen(stopped, request, db)
  {
    FittingAnswerResumes(w, user, last, stopped);
    request := FittingAnswer(stopped.db, w, stopped.outcome.node);
    db := Resume(stopped.db, request).0;
  }

  lemma AnswerKeepsWithin(w: Workflow, user: nat, first: Db, now: nat -> Turn, last: Db, stopped: RunResult,
                          request: ResumeRequest, db: Db)
    requires LastIs(first, w, user, now, last, stopped) && Owned(first, w, user) && AnsweredThen(stopped, request, db)
    requires AllWithin(w, Rows(stopped.db, w.id))
    ensures AllWithin(w, Rows(db, w.id))
  {
    var t, answered := Rows(stopped.db, w.id), Rows(db, w.id);
    StoppedTable(first, w, user, now, last, stopped);
    WaitingAnswerIsOwn(first, w, user, now, last, stopped, request, db);
    AnsweringKeepsWithin(w, t, stopped.outcome.node, answered);
  }

  /** The run that waits can be answered, and the next run may begin within its limits. */
  lemma WaitingCanBeAnswered(w: Workflow, g: Gadget, query: Node, first: Db, user: nat, turns: nat -> nat -> Turn)
      returns (request: ResumeRequest, db: Db)
    requires MadeOf(w, [g], query) && Begins(first, w, user) && AllWithin(w, Rows(first, w.id)) && first.job.memory
    requires Obedient(first, w, user, turns, 0) && Throughout(first, w, user, turns, 0, Keeping(w))
    requires RunStateless(first, w, user, turns, 0).outcome.WaitingFor?
    ensures AnsweredThen(RunStateless(first, w, user, turns, 0), request, db)
    ensures Begins(db, w, user) && AllWithin(w, Rows(db, w.id))
  {
    var now, last := StoppedRun(first, w, user, turns);
    var stopped := RunStateless(first, w, user, turns, 0);
    request, db := StoppedCanBeAnswered(w, user, first, now, last, stopped);
    AnsweredMayBegin(first, w, [g], query, user, turns, request, db);
    WithinOnTheWay(first, w, user, turns, 0);
    AnswerKeepsWithin(w, user, first, now, last, stopped, request, db);
  }

  /** After a selection some run that nobody refuses ends in an error. */
  lemma AnsweredRunErrs(w: Workflow, g: Gadget, query: Node, access: Access, first: Db, user: nat,
                        turns: nat -> nat -> Turn, request: ResumeRequest, db: Db) returns (later: nat -> nat -> Turn)
    requires PlainlyMade(w, [g], query) && g.Probing? && FitsCaps(w) && ServedSoFar([g], access, Rows(first, w.id))
    requires Begins(first, w, user) && Obedient(first, w, user, turns, 0)
    requires Throughout(first, w, user, turns, 0, CarriedOut(w, access))
    requires AnsweredThen(RunStateless(first, w, user, turns, 0), request, db)
    requires Begins(db, w, user) && AllWithin(w, Rows(db, w.id))
    ensures ExecutedSession(first, w, [g], access, user, turns, request, db, later)
    ensures
      var r := RunStateless(db, w, user, later, 0);
      r.outcome.Error? && RunsIn(Rows(r.db, w.id), EXECUTE)
  {
    later := LightTurns(db, w, user);
    ServedIsNotFailed(db, w, [g], query, user, later);
    var same := ExecutedSessionEnds(first, w, [g], query, access, user, turns, request, db, later);
    assert same == [g][0];
  }

  /**
   * Every capability that probes has a failing session, if the guard lets its probe through and
   * two rows fit: the database returns two rows, the run waits at the selection, the answer is
   * accepted, and the next run, in which nobody refuses anything, ends in an error with the
   * query left running.
   */
  lemma SelectionSessionFails(w: Workflow, g: Gadget, query: Node, access: Access, first: Db, user: nat)
      returns (turns: nat -> nat -> Turn, request: ResumeRequest, db: Db, later: nat -> nat -> Turn)
    requires MadeOf(w, [g], query) && g.Probing? && PlainName(g.slot.name) && LetsProbe(w, g, query, access)
    requires access.answers(TWO_ROWS) && forall data :: access.answers(data) ==> |DataRows(data)| == 2
    requires FreshJob(first, w, user)
    ensures ExecutedSession(first, w, [g], access, user, turns, request, db, later)
    ensures RunStateless(first, w, user, turns, 0).outcome == WaitingFor(SelectId(g.name))
    ensures
      var r := RunStateless(db, w, user, later, 0);
      r.outcome.Error? && RunsIn(Rows(r.db, w.id), EXECUTE)
  {
    turns := TwoRowTurns(w, g, query, access, first, user);
    FirstRunWaits(w, g, query, access, first, user, turns);
    FreshBegins(first, w, user);
    request, db := WaitingCanBeAnswered(w, g, query, first, user, turns);
    FreshIsServed(w, g, access, first, user);
    later := AnsweredRunErrs(w, g, query, access, first, user, turns, request, db);
  }
}
