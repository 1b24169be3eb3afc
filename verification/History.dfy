/**
 * Everything that can happen to one job over its life: installs, iterations of runs,
 * pauses inside them, answers, and status changes made by the rest of the service. The
 * theorems hold for every sequence of these events, including ones that cut a run short.
 */
module History {
  import opened Wrappers
  import opened Json
  import opened Contract
  import opened Scheduler
  import opened Ledger
  import opened Store
  import opened Runner

  type Definitions = map<WorkflowId, Workflow>

  ghost predicate Coherent(defs: Definitions) {
    forall wid | wid in defs :: defs[wid].id == wid
  }

  /** `consumed` is arbitrary: safety does not depend on the ledger being right. */
  datatype Event =
    | Installed(job: nat, user: nat, workflow: WorkflowId, version: u16)
    | Iterated(workflow: WorkflowId, user: nat, consumed: Totals, turns: nat -> Turn)
    | Answered(request: ResumeRequest)
    | StatusChanged(status: JobStatus, memory: bool, pending: Option<nat>)

  function Apply(defs: Definitions, db: Db, e: Event): Db {
    match e
    case Installed(job, user, wid, version) =>
      (match Install(db, job, user, wid, version) case None => db case Some(after) => after)
    case Iterated(wid, user, consumed, turns) =>
      if wid in defs then Iterate(db, defs[wid], user, consumed, turns).db else db
    case Answered(request) => Resume(db, request).0
    case StatusChanged(status, memory, pending) =>
      db.(job := db.job.(status := status, memory := memory, pending := pending))
  }

  /** The state after a sequence of events. */
  function After(defs: Definitions, db: Db, events: seq<Event>): Db {
    if events == [] then db
    else Apply(defs, After(defs, db, events[..|events| - 1]), events[|events| - 1])
  }

  // --------------------------------------------------------- how tables may change

  /** A waiting row may be answered; no other row ever changes. */
  predicate RowEvolves(a: Row, b: Row) {
    b == a || (a.status.Waiting? && b == a.(status := Status.Completed))
  }

  ghost predicate Evolves(a: seq<Row>, b: seq<Row>) {
    |a| <= |b| && forall i | 0 <= i < |a| :: RowEvolves(a[i], b[i])
  }

  /** Weaker than `Evolves`: nodes stay where they are and completed rows stay as they are. */
  ghost predicate KeepsCompleted(a: seq<Row>, b: seq<Row>) {
    && |a| <= |b|
    && (forall i | 0 <= i < |a| :: b[i].node == a[i].node && (a[i].status.Completed? ==> b[i] == a[i]))
  }

  lemma EvolvesTransitive(a: seq<Row>, b: seq<Row>, c: seq<Row>)
    requires Evolves(a, b) && Evolves(b, c)
    ensures Evolves(a, c)
  {
  }

  lemma EvolvesKeepsCompleted(a: seq<Row>, b: seq<Row>)
    requires Evolves(a, b)
    ensures KeepsCompleted(a, b)
  {
  }

  lemma FindStays(a: seq<Row>, b: seq<Row>, n: NodeId)
    requires KeepsCompleted(a, b) && WellKept(b) && IsCompleted(a, n)
    ensures IsCompleted(b, n) && FindCompleted(b, n) == FindCompleted(a, n)
  {
  }

  /** An edge that once let its target run always will. */
  lemma SatisfiedStays(e: Edge, a: seq<Row>, b: seq<Row>)
    requires KeepsCompleted(a, b) && WellKept(b) && IsSatisfied(e, a)
    ensures IsSatisfied(e, b)
  {
  }

  // ----------------------------------------------------------------- support paths

  /** Some edge from `a` to `b` lets `b` run; in particular `a` has completed. */
  ghost predicate Fired(w: Workflow, t: seq<Row>, a: NodeId, b: NodeId) {
    exists e :: e in w.edges && e.source == a && e.target == b && IsSatisfied(e, t)
  }

  /** A path from an entry point on which every node but the last has completed. */
  ghost predicate SupportPath(w: Workflow, t: seq<Row>, p: seq<NodeId>) {
    && |p| > 0 && IsEntryPoint(w, p[0])
    && (forall i, j | 0 <= i < j < |p| && j == i + 1 :: Fired(w, t, p[i], p[j]))
  }

  ghost predicate Supported(w: Workflow, t: seq<Row>, n: NodeId) {
    exists p :: SupportPath(w, t, p) && p[|p| - 1] == n
  }

  lemma SupportStays(w: Workflow, a: seq<Row>, b: seq<Row>, n: NodeId)
    requires KeepsCompleted(a, b) && WellKept(b) && Supported(w, a, n)
    ensures Supported(w, b, n)
  {
    var p :| SupportPath(w, a, p) && p[|p| - 1] == n;
    forall i, j | 0 <= i < j < |p| && j == i + 1 ensures Fired(w, b, p[i], p[j]) {
      assert Fired(w, a, p[i], p[j]);
      var e :| e in w.edges && e.source == p[i] && e.target == p[j] && IsSatisfied(e, a);
      SatisfiedStays(e, a, b);
    }
    assert SupportPath(w, b, p);
  }

  lemma RunnableIsSupported(w: Workflow, t: seq<Row>, n: NodeId)
    requires forall i | 0 <= i < |t| :: Supported(w, t, t[i].node)
    requires DependenciesSatisfied(w, n, t)
    ensures Supported(w, t, n)
  {
    if IsEntryPoint(w, n) {
      assert SupportPath(w, t, [n]);
    } else {
      var e :| e in w.edges && e.target == n && IsSatisfied(e, t);
      var r :| r in t && r.node == e.source && r.status.Completed?;
      var i :| 0 <= i < |t| && t[i] == r;
      var p :| SupportPath(w, t, p) && p[|p| - 1] == e.source;
      assert Fired(w, t, e.source, n);
      var q := p + [n];
      forall i, j | 0 <= i < j < |q| && j == i + 1 ensures Fired(w, t, q[i], q[j]) {
        if j < |p| { assert Fired(w, t, p[i], p[j]); }
      }
      assert SupportPath(w, t, q);
    }
  }

  // -------------------------------------------------------------------- invariants

  predicate Blank(r: Row) {
    r.output.None? && r.ms.None? && r.rows == 0
  }

  /** A completed row carries clean output, or nothing at all if it completed by an answer. */
  ghost predicate RowKept(n: Node, r: Row) {
    RowFits(n, r) || (r.node == n.id && Blank(r) && (r.status.Waiting? || r.status.Completed?))
  }

  ghost predicate Belongs(w: Workflow, r: Row) {
    exists n :: n in w.nodes && RowKept(n, r)
  }

  ghost predicate TableInv(w: Workflow, t: seq<Row>) {
    && WellKept(t)
    && (forall i | 0 <= i < |t| :: Belongs(w, t[i]))
    && (forall i | 0 <= i < |t| :: Supported(w, t, t[i].node))
  }

  /** The node waits for an answer or has had one; an answer leaves no duration behind. */
  ghost predicate WaitsOrAnswered(t: seq<Row>, n: NodeId) {
    exists r :: r in t && r.node == n && (r.status.Waiting? || (r.status.Completed? && r.ms.None?))
  }

  /** The node the job points at is waiting for an answer or has had one. */
  ghost predicate PointsAtStarted(db: Db) {
    db.job.workflow.Some? && db.job.currentNode.Some? ==>
      WaitsOrAnswered(Rows(db, db.job.workflow.value), db.job.currentNode.value)
  }

  /** No row that waits has a duration. */
  ghost predicate WaitingHasNone(t: seq<Row>) {
    forall r :: r in t && r.status.Waiting? ==> r.ms.None?
  }

  lemma TableWaitingHasNone(w: Workflow, t: seq<Row>)
    requires TableInv(w, t)
    ensures WaitingHasNone(t)
  {
    forall r | r in t && r.status.Waiting? ensures r.ms.None? {
      var i :| 0 <= i < |t| && t[i] == r;
      assert Belongs(w, t[i]);
    }
  }

  lemma WaitsOrAnsweredStays(a: seq<Row>, b: seq<Row>, n: NodeId)
    requires Evolves(a, b) && WaitingHasNone(a) && WaitsOrAnswered(a, n)
    ensures WaitsOrAnswered(b, n)
  {
    var r :| r in a && r.node == n && (r.status.Waiting? || (r.status.Completed? && r.ms.None?));
    var i :| 0 <= i < |a| && a[i] == r;
    assert RowEvolves(a[i], b[i]) && b[i] in b;
  }

  ghost predicate Inv(defs: Definitions, db: Db) {
    && (forall wid | wid in defs :: TableInv(defs[wid], Rows(db, wid)))
    && (forall wid | wid !in defs :: Rows(db, wid) == [])
    && PointsAtStarted(db)
  }

  /** A job before any workflow was installed. */
  predicate Initial(db: Db) {
    db.tables == map[] && db.job.workflow.None?
  }

  lemma AppendedTable(w: Workflow, a: seq<Row>, b: seq<Row>)
    requires TableInv(w, a) && Appended(w, a, b)
    ensures TableInv(w, b) && Evolves(a, b)
  {
    AppendedIsWellKept(w, a, b);
    forall i | 0 <= i < |a| ensures a[i] == b[i] { }
    assert Evolves(a, b);
    EvolvesKeepsCompleted(a, b);
    forall i | 0 <= i < |b| ensures Belongs(w, b[i]) && Supported(w, b, b[i].node) {
      if i < |a| {
        assert b[i] == a[i] && Belongs(w, a[i]) && Supported(w, a, a[i].node);
      } else {
        assert Fresh(w, a, b[i]);
        var n :| n in w.nodes && RowFits(n, b[i]);
        assert RowKept(n, b[i]);
        RunnableIsSupported(w, a, b[i].node);
      }
      SupportStays(w, a, b, b[i].node);
    }
  }

  lemma PausedTable(w: Workflow, t: seq<Row>, node: NodeId)
    requires TableInv(w, t)
    ensures TableInv(w, SetStatus(t, node, Status.Running, Status.Waiting))
  {
    var b := SetStatus(t, node, Status.Running, Status.Waiting);
    assert KeepsCompleted(t, b);
    assert WellKept(b);
    forall i | 0 <= i < |b| ensures Belongs(w, b[i]) && Supported(w, b, b[i].node) {
      assert Belongs(w, t[i]) && Supported(w, t, t[i].node);
      var n :| n in w.nodes && RowKept(n, t[i]);
      assert RowKept(n, b[i]);
      SupportStays(w, t, b, b[i].node);
    }
  }

  /** An answer changes one table at most, and there only rows that wait. */
  lemma ReplyRows(db: Db, wid: WorkflowId, request: ResumeRequest)
    ensures
      var t, b := Rows(db, wid), Rows(Resume(db, request).0, wid);
      b == t || b == SetStatus(t, request.node, Status.Waiting, Status.Completed)
  {
  }

  lemma AnsweredTable(w: Workflow, t: seq<Row>, node: NodeId)
    requires TableInv(w, t)
    ensures
      var b := SetStatus(t, node, Status.Waiting, Status.Completed);
      TableInv(w, b) && Evolves(t, b)
  {
    var b := SetStatus(t, node, Status.Waiting, Status.Completed);
    assert Evolves(t, b);
    EvolvesKeepsCompleted(t, b);
    assert WellKept(b);
    forall i | 0 <= i < |b| ensures Belongs(w, b[i]) && Supported(w, b, b[i].node) {
      assert Belongs(w, t[i]) && Supported(w, t, t[i].node);
      var n :| n in w.nodes && RowKept(n, t[i]);
      assert RowKept(n, b[i]);
      SupportStays(w, t, b, b[i].node);
    }
  }

  // ------------------------------------------------------------ one event at a time

  /** A node that reports a pause belongs to the batch. */
  lemma {:induction false} PausedInBatch(w: Workflow, batch: seq<Node>, runs: seq<Row>, turns: nat -> Turn, i: nat,
                                         r: Report)
    requires i <= |batch| && r in ExecuteBatch(w, batch, runs, turns, i).1 && r.Paused?
    ensures exists n :: n in batch && n.id == r.node
  {
    var (t, reports) := ExecuteBatch(w, batch, runs, turns, i - 1);
    if r in reports {
      PausedInBatch(w, batch, runs, turns, i - 1, r);
    } else {
      assert batch[i - 1] in batch;
    }
  }

  /** Pausing touches no row that was there before the batch began. */
  lemma PauseIsFresh(w: Workflow, a: seq<Row>, b: seq<Row>, node: NodeId)
    requires Appended(w, a, b) && IsRunnable(w, node, a)
    ensures Evolves(a, SetStatus(b, node, Status.Running, Status.Waiting))
  {
  }

  /** A batch keeps the table invariant and only adds rows, paused or not. */
  lemma BatchKeeps(w: Workflow, a: seq<Row>, batch: seq<Node>, turns: nat -> Turn)
    requires TableInv(w, a)
    requires forall n :: n in batch ==> n in w.nodes && IsRunnable(w, n.id, a)
    ensures
      var (b, reports) := ExecuteBatch(w, batch, a, turns, |batch|);
      && TableInv(w, b) && Evolves(a, b)
      && (FirstPaused(reports).Some? ==>
            var c := SetStatus(b, FirstPaused(reports).value.node, Status.Running, Status.Waiting);
            TableInv(w, c) && Evolves(a, c))
  {
    var (b, reports) := ExecuteBatch(w, batch, a, turns, |batch|);
    BatchIsAppended(w, batch, a, turns, |batch|);
    AppendedTable(w, a, b);
    var paused := FirstPaused(reports);
    if paused.Some? {
      PausedInBatch(w, batch, a, turns, |batch|, paused.value);
      PausedTable(w, b, paused.value.node);
      PauseIsFresh(w, a, b, paused.value.node);
    }
  }

  lemma SettledRows(db: Db, w: Workflow, user: nat, consumed: Totals, reports: seq<Report>)
    ensures
      var b, c := Rows(db, w.id), Rows(Settle(db, w, user, consumed, reports).db, w.id);
      c == b || (FirstPaused(reports).Some? &&
                 c == SetStatus(b, FirstPaused(reports).value.node, Status.Running, Status.Waiting))
  {
  }

  /** One iteration of a run keeps the table invariant and only adds rows. */
  lemma IterationKeeps(db: Db, w: Workflow, user: nat, consumed: Totals, turns: nat -> Turn)
    requires TableInv(w, Rows(db, w.id))
    ensures
      var after := Rows(Iterate(db, w, user, consumed, turns).db, w.id);
      TableInv(w, after) && Evolves(Rows(db, w.id), after)
  {
    var a, batch := Rows(db, w.id), SelectBatch(w, consumed, Rows(db, w.id));
    if RunnableNodes(w, a) != [] && batch != [] {
      var (b, reports) := ExecuteBatch(w, batch, a, turns, |batch|);
      FirstOfBatchRunnable(w, consumed, a);
      BatchKeeps(w, a, batch, turns);
      SettledRows(WithRows(db, w.id, b), w, user, consumed, reports);
    }
  }

  /** What any event does to the tables. */
  ghost predicate TablesEvolve(a: Db, b: Db) {
    forall wid :: Evolves(Rows(a, wid), Rows(b, wid))
  }

  lemma CountRunningFinds(t: seq<Row>, node: NodeId)
    requires CountRunning(t, node) > 0
    ensures exists r :: r in SetStatus(t, node, Status.Running, Status.Waiting) && r.node == node && r.status.Waiting?
  {
    var i := RunningIndex(t, node);
    var b := SetStatus(t, node, Status.Running, Status.Waiting);
    assert b[i] in b;
  }

  lemma {:induction false} RunningIndex(t: seq<Row>, node: NodeId) returns (i: nat)
    requires CountRunning(t, node) > 0
    ensures i < |t| && t[i].node == node && t[i].status.Running?
  {
    var last := |t| - 1;
    if t[last].node == node && t[last].status.Running? { i := last; } else { i := RunningIndex(t[..last], node); }
  }

  /** A settled batch either leaves the job alone or pauses it at a node that now waits. */
  lemma SettlePoints(db: Db, w: Workflow, user: nat, consumed: Totals, reports: seq<Report>)
    ensures
      var after := Settle(db, w, user, consumed, reports).db;
      after.job == db.job || PointsAtStarted(after)
  {
    var paused := FirstPaused(reports);
    if paused.Some? && Pause(db, db.job.id, user, w.id, paused.value.node, paused.value.clarification).Some? {
      CountRunningFinds(Rows(db, w.id), paused.value.node);
    }
  }

  lemma IterationPoints(db: Db, w: Workflow, user: nat, consumed: Totals, turns: nat -> Turn)
    ensures
      var after := Iterate(db, w, user, consumed, turns).db;
      after.job == db.job || PointsAtStarted(after)
  {
    var batch := SelectBatch(w, consumed, Rows(db, w.id));
    var (t, reports) := ExecuteBatch(w, batch, Rows(db, w.id), turns, |batch|);
    SettlePoints(WithRows(db, w.id, t), w, user, consumed, reports);
  }

  lemma SettleIsLocal(db: Db, w: Workflow, user: nat, consumed: Totals, reports: seq<Report>, other: WorkflowId)
    requires other != w.id
    ensures Rows(Settle(db, w, user, consumed, reports).db, other) == Rows(db, other)
  {
  }

  lemma IterationIsLocal(db: Db, w: Workflow, user: nat, consumed: Totals, turns: nat -> Turn, other: WorkflowId)
    requires other != w.id
    ensures Rows(Iterate(db, w, user, consumed, turns).db, other) == Rows(db, other)
  {
    var batch := SelectBatch(w, consumed, Rows(db, w.id));
    var (t, reports) := ExecuteBatch(w, batch, Rows(db, w.id), turns, |batch|);
    SettleIsLocal(WithRows(db, w.id, t), w, user, consumed, reports, other);
  }

  /** A step confined to the table of one workflow keeps the whole invariant. */
  lemma LocalStepKeeps(defs: Definitions, db: Db, after: Db, wid: WorkflowId)
    requires Inv(defs, db) && wid in defs
    requires TableInv(defs[wid], Rows(after, wid)) && Evolves(Rows(db, wid), Rows(after, wid))
    requires forall other | other != wid :: Rows(after, other) == Rows(db, other)
    requires after.job == db.job || PointsAtStarted(after)
    ensures Inv(defs, after) && TablesEvolve(db, after)
  {
    forall v ensures Evolves(Rows(db, v), Rows(after, v)) { }
    if after.job == db.job {
      PointingStays(defs, db, after);
    }
  }

  lemma IteratedKeeps(defs: Definitions, db: Db, wid: WorkflowId, user: nat, consumed: Totals, turns: nat -> Turn)
    requires Coherent(defs) && Inv(defs, db) && wid in defs
    ensures Inv(defs, Iterate(db, defs[wid], user, consumed, turns).db)
    ensures TablesEvolve(db, Iterate(db, defs[wid], user, consumed, turns).db)
  {
    var w := defs[wid];
    assert w.id == wid && TableInv(w, Rows(db, w.id));
    IterationKeeps(db, w, user, consumed, turns);
    forall other | other != wid { IterationIsLocal(db, w, user, consumed, turns, other); }
    IterationPoints(db, w, user, consumed, turns);
    LocalStepKeeps(defs, db, Iterate(db, w, user, consumed, turns).db, wid);
  }

  lemma PointingStays(defs: Definitions, a: Db, b: Db)
    requires Inv(defs, a) && TablesEvolve(a, b)
    requires b.job.workflow == a.job.workflow && b.job.currentNode == a.job.currentNode
    ensures PointsAtStarted(b)
  {
    if a.job.workflow.Some? && a.job.currentNode.Some? {
      var wid := a.job.workflow.value;
      if wid in defs { TableWaitingHasNone(defs[wid], Rows(a, wid)); }
      WaitsOrAnsweredStays(Rows(a, wid), Rows(b, wid), a.job.currentNode.value);
    }
  }

  lemma AnswerEvolves(defs: Definitions, db: Db, request: ResumeRequest, wid: WorkflowId)
    requires Inv(defs, db)
    ensures
      var a, b := Rows(db, wid), Rows(Resume(db, request).0, wid);
      Evolves(a, b) && if wid in defs then TableInv(defs[wid], b) else b == []
  {
    ReplyRows(db, wid, request);
    if wid in defs { AnsweredTable(defs[wid], Rows(db, wid), request.node); }
  }

  lemma AnsweredKeeps(defs: Definitions, db: Db, request: ResumeRequest)
    requires Inv(defs, db)
    ensures Inv(defs, Resume(db, request).0) && TablesEvolve(db, Resume(db, request).0)
  {
    var after := Resume(db, request).0;
    forall wid
      ensures Evolves(Rows(db, wid), Rows(after, wid))
      ensures if wid in defs then TableInv(defs[wid], Rows(after, wid)) else Rows(after, wid) == []
    {
      AnswerEvolves(defs, db, request, wid);
    }
    if after != db { PointingStays(defs, db, after); }
  }

  /** An event that changes only the job row, and not where it points, keeps everything. */
  lemma JobOnlyKeeps(defs: Definitions, db: Db, after: Db)
    requires Inv(defs, db) && after.tables == db.tables
    requires
      || after.job.currentNode.None?
      || (after.job.workflow == db.job.workflow && after.job.currentNode == db.job.currentNode)
    ensures Inv(defs, after) && TablesEvolve(db, after)
  {
  }

  lemma EventKeeps(defs: Definitions, db: Db, e: Event)
    requires Coherent(defs) && Inv(defs, db)
    ensures Inv(defs, Apply(defs, db, e)) && TablesEvolve(db, Apply(defs, db, e))
  {
    match e
    case Installed(_, _, _, _) => JobOnlyKeeps(defs, db, Apply(defs, db, e));
    case Iterated(wid, user, consumed, turns) =>
      if wid in defs { IteratedKeeps(defs, db, wid, user, consumed, turns); }
    case Answered(request) => AnsweredKeeps(defs, db, request);
    case StatusChanged(_, _, _) => JobOnlyKeeps(defs, db, Apply(defs, db, e));
  }

  // ---------------------------------------------------------------- whole histories

  lemma InitialHolds(defs: Definitions, db: Db)
    requires Initial(db)
    ensures Inv(defs, db)
  {
  }

  /** The invariant holds after every history of a fresh job. */
  lemma {:induction false} HistoryKeepsInvariant(defs: Definitions, db: Db, events: seq<Event>)
    requires Coherent(defs) && Initial(db)
    ensures Inv(defs, After(defs, db, events))
  {
    if events == [] {
      InitialHolds(defs, db);
    } else {
      HistoryKeepsInvariant(defs, db, events[..|events| - 1]);
      EventKeeps(defs, After(defs, db, events[..|events| - 1]), events[|events| - 1]);
    }
  }

  lemma TablesEvolveTransitive(a: Db, b: Db, c: Db)
    requires TablesEvolve(a, b) && TablesEvolve(b, c)
    ensures TablesEvolve(a, c)
  {
  }

  lemma LastStep(defs: Definitions, db: Db, events: seq<Event>)
    requires Coherent(defs) && Initial(db) && events != []
    ensures TablesEvolve(After(defs, db, events[..|events| - 1]), After(defs, db, events))
  {
    HistoryKeepsInvariant(defs, db, events[..|events| - 1]);
    EventKeeps(defs, After(defs, db, events[..|events| - 1]), events[|events| - 1]);
  }

  lemma TablesEvolveReflexive(db: Db)
    ensures TablesEvolve(db, db)
  {
  }

  /**
   * Between any two moments of a history rows are only added or answered: no completed,
   * failed or running row ever changes again.
   */
  lemma {:induction false} HistoryOnlyAddsRows(defs: Definitions, db: Db, events: seq<Event>, i: nat)
    requires Coherent(defs) && Initial(db) && i <= |events|
    ensures TablesEvolve(After(defs, db, events[..i]), After(defs, db, events))
  {
    if i == |events| {
      assert events[..i] == events;
      TablesEvolveReflexive(After(defs, db, events));
    } else {
      var init := events[..|events| - 1];
      HistoryOnlyAddsRows(defs, db, init, i);
      assert init[..i] == events[..i];
      LastStep(defs, db, events);
      TablesEvolveTransitive(After(defs, db, events[..i]), After(defs, db, init), After(defs, db, events));
    }
  }

  /**
   * In every reachable state, each node has at most one completed row and at most one
   * running or waiting row, never both, and its attempts strictly increase.
   */
  lemma OneLiveRowPerNode(defs: Definitions, db: Db, events: seq<Event>, wid: WorkflowId, i: nat, j: nat)
    requires Coherent(defs) && Initial(db)
    requires
      var t := Rows(After(defs, db, events), wid);
      i < j < |t| && t[i].node == t[j].node
    ensures
      var t := Rows(After(defs, db, events), wid);
      t[i].status.Failed? && t[i].attempt < t[j].attempt
  {
    HistoryKeepsInvariant(defs, db, events);
    assert wid in defs;
  }

  /** Once an edge has let its target run, it lets it run at every later moment. */
  lemma MatchedStaysMatched(defs: Definitions, db: Db, events: seq<Event>, i: nat, wid: WorkflowId, e: Edge)
    requires Coherent(defs) && Initial(db) && i <= |events|
    requires IsSatisfied(e, Rows(After(defs, db, events[..i]), wid))
    ensures IsSatisfied(e, Rows(After(defs, db, events), wid))
  {
    HistoryOnlyAddsRows(defs, db, events, i);
    HistoryKeepsInvariant(defs, db, events);
    var a, b := Rows(After(defs, db, events[..i]), wid), Rows(After(defs, db, events), wid);
    EvolvesKeepsCompleted(a, b);
    assert wid !in defs ==> a == b == [];
    SatisfiedStays(e, a, b);
  }

  /**
   * A row left running when an event ends (a second pause of the same batch, an error or
   * a crash) stays running for ever, and its node is never started again.
   */
  lemma RunningRowIsStranded(defs: Definitions, db: Db, events: seq<Event>, i: nat, wid: WorkflowId, k: nat)
    requires Coherent(defs) && Initial(db) && i <= |events|
    requires
      var a := Rows(After(defs, db, events[..i]), wid);
      k < |a| && a[k].status.Running?
    ensures
      var a, b := Rows(After(defs, db, events[..i]), wid), Rows(After(defs, db, events), wid);
      && k < |b| && b[k] == a[k]
      && !IsCompleted(b, a[k].node)
      && (forall j | k < j < |b| :: b[j].node != a[k].node)
  {
    HistoryOnlyAddsRows(defs, db, events, i);
    HistoryKeepsInvariant(defs, db, events);
    RunningStays(Rows(After(defs, db, events[..i]), wid), Rows(After(defs, db, events), wid), k);
  }

  lemma RunningStays(a: seq<Row>, b: seq<Row>, k: nat)
    requires Evolves(a, b) && WellKept(b) && k < |a| && a[k].status.Running?
    ensures k < |b| && b[k] == a[k] && !IsCompleted(b, a[k].node)
    ensures forall j | k < j < |b| :: b[j].node != a[k].node
  {
  }

  /** The row's stored output is clean of the sensitive inputs of the node it belongs to. */
  ghost predicate CleanIn(w: Workflow, r: Row)
    requires r.output.Some?
  {
    exists n :: n in w.nodes && n.id == r.node && Clean(r.output.value, SensitiveFields(n.inputs))
  }

  lemma BelongingIsClean(w: Workflow, r: Row)
    requires Belongs(w, r) && r.output.Some?
    ensures CleanIn(w, r)
  {
    var n :| n in w.nodes && RowKept(n, r);
    assert n.id == r.node && Clean(r.output.value, SensitiveFields(n.inputs));
  }

  /** The row is of a node of which no path in its output steps over a secret. */
  ghost predicate KeepsSecrets(w: Workflow, r: Row)
    requires r.output.Some?
  {
    exists n :: n in w.nodes && n.id == r.node &&
                forall path | StepsOverSecret(n.inputs, path) :: Lookup(r.output.value, path).None?
  }

  lemma CleanKeepsSecrets(w: Workflow, r: Row)
    requires r.output.Some? && CleanIn(w, r)
    ensures KeepsSecrets(w, r)
  {
    var n :| n in w.nodes && n.id == r.node && Clean(r.output.value, SensitiveFields(n.inputs));
    forall path | StepsOverSecret(n.inputs, path) ensures Lookup(r.output.value, path).None? {
      SecretIsSensitive(n.inputs, path);
      RedactFixesClean(r.output.value, SensitiveFields(n.inputs));
      RedactedLookup(r.output.value, SensitiveFields(n.inputs), path);
    }
  }

  /** Stored output shows none of the sensitive inputs of the node it belongs to, for ever. */
  lemma DurableOutputIsClean(defs: Definitions, db: Db, events: seq<Event>, wid: WorkflowId, r: Row)
    requires Coherent(defs) && Initial(db)
    requires r in Rows(After(defs, db, events), wid) && r.output.Some?
    ensures wid in defs && CleanIn(defs[wid], r) && KeepsSecrets(defs[wid], r)
  {
    HistoryKeepsInvariant(defs, db, events);
    var t := Rows(After(defs, db, events), wid);
    var i :| 0 <= i < |t| && t[i] == r;
    assert wid in defs && Belongs(defs[wid], t[i]);
    BelongingIsClean(defs[wid], r);
    CleanKeepsSecrets(defs[wid], r);
  }

  // ------------------------------------------------------------- completed ancestry

  lemma CompletedPath(w: Workflow, t: seq<Row>, n: NodeId) returns (p: seq<NodeId>)
    requires TableInv(w, t) && IsCompleted(t, n)
    ensures SupportPath(w, t, p) && p[|p| - 1] == n
    ensures forall i | 0 <= i < |p| :: IsCompleted(t, p[i])
  {
    var r :| r in t && r.node == n && r.status.Completed?;
    var k :| 0 <= k < |t| && t[k] == r;
    assert Supported(w, t, t[k].node);
    p :| SupportPath(w, t, p) && p[|p| - 1] == n;
    SupportIsCompleted(w, t, p);
  }

  /**
   * Whatever happened, every completed node hangs from an entry point by a path of
   * completed nodes over edges that matched.
   */
  lemma CompletedHasCompletedPath(defs: Definitions, db: Db, events: seq<Event>, wid: WorkflowId, n: NodeId)
      returns (p: seq<NodeId>)
    requires Coherent(defs) && Initial(db)
    requires IsCompleted(Rows(After(defs, db, events), wid), n)
    ensures wid in defs
    ensures
      var t := Rows(After(defs, db, events), wid);
      && SupportPath(defs[wid], t, p) && p[|p| - 1] == n
      && (forall i | 0 <= i < |p| :: IsCompleted(t, p[i]))
  {
    HistoryKeepsInvariant(defs, db, events);
    p := CompletedPath(defs[wid], Rows(After(defs, db, events), wid), n);
  }

  lemma SupportIsCompleted(w: Workflow, t: seq<Row>, p: seq<NodeId>)
    requires SupportPath(w, t, p)
    ensures forall i | 0 <= i < |p| - 1 :: IsCompleted(t, p[i])
  {
    forall i | 0 <= i < |p| - 1 ensures IsCompleted(t, p[i]) {
      assert Fired(w, t, p[i], p[i + 1]);
      var e :| e in w.edges && e.source == p[i] && e.target == p[i + 1] && IsSatisfied(e, t);
    }
  }

  /** A chain of edges from an entry point, whatever their conditions. */
  ghost predicate EdgePath(w: Workflow, p: seq<NodeId>) {
    && |p| > 0 && IsEntryPoint(w, p[0])
    && (forall i, j | 0 <= i < j < |p| && j == i + 1 :: HasEdge(w, p[i], p[j]))
  }

  ghost predicate HasEdge(w: Workflow, a: NodeId, b: NodeId) {
    exists e :: e in w.edges && e.source == a && e.target == b
  }

  ghost predicate Dominates(w: Workflow, d: NodeId, n: NodeId) {
    forall p | EdgePath(w, p) && p[|p| - 1] == n :: d in p
  }

  lemma SupportIsEdgePath(w: Workflow, t: seq<Row>, p: seq<NodeId>)
    requires SupportPath(w, t, p)
    ensures EdgePath(w, p)
  {
  }

  /** A node that may run, or has a row, is supported. */
  lemma StartedIsSupported(w: Workflow, t: seq<Row>, n: NodeId)
    requires TableInv(w, t)
    requires IsRunnable(w, n, t) || exists r :: r in t && r.node == n
    ensures Supported(w, t, n)
  {
    if IsRunnable(w, n, t) {
      RunnableIsSupported(w, t, n);
    } else {
      var r :| r in t && r.node == n;
      var k :| 0 <= k < |t| && t[k] == r;
      assert Supported(w, t, t[k].node);
    }
  }

  lemma OutputUnlessAnswered(w: Workflow, t: seq<Row>, n: NodeId)
    requires TableInv(w, t) && IsCompleted(t, n)
    ensures NodeOutput(t, n).Some? <==> FindCompleted(t, n).value.ms.Some?
  {
  }

  /** In a well-kept table every dominator of a node that may run, or has a row, has completed. */
  lemma DominatorsCompleted(w: Workflow, t: seq<Row>, d: NodeId, n: NodeId)
    requires TableInv(w, t) && Dominates(w, d, n) && d != n
    requires IsRunnable(w, n, t) || exists r :: r in t && r.node == n
    ensures IsCompleted(t, d)
  {
    StartedIsSupported(w, t, n);
    var p :| SupportPath(w, t, p) && p[|p| - 1] == n;
    SupportIsEdgePath(w, t, p);
    SupportIsCompleted(w, t, p);
    var i :| 0 <= i < |p| && p[i] == d;
  }

  // ------------------------------------------------------------------ exclusive arms

  /** Every way into `n` leaves the branch `b` by an arm labelled with one of `arms`. */
  ghost predicate OnlyThroughArms(w: Workflow, b: NodeId, arms: set<Cardinality>, n: NodeId) {
    forall p | EdgePath(w, p) && p[|p| - 1] == n ::
      exists i :: 0 <= i < |p| - 1 && p[i] == b && LabelledWith(w, b, arms, p[i + 1])
  }

  ghost predicate LabelledWith(w: Workflow, b: NodeId, arms: set<Cardinality>, m: NodeId) {
    forall e | e in w.edges && e.source == b && e.target == m ::
      e.condition.OnCardinality? && e.condition.expected in arms
  }

  lemma ArmWasTaken(w: Workflow, t: seq<Row>, b: NodeId, arms: set<Cardinality>, n: NodeId)
    requires TableInv(w, t) && OnlyThroughArms(w, b, arms, n)
    requires exists r :: r in t && r.node == n
    ensures CardinalityFor(t, b).Some? && CardinalityFor(t, b).value in arms
  {
    StartedIsSupported(w, t, n);
    var p :| SupportPath(w, t, p) && p[|p| - 1] == n;
    SupportIsEdgePath(w, t, p);
    var i :| 0 <= i < |p| - 1 && p[i] == b && LabelledWith(w, b, arms, p[i + 1]);
    assert Fired(w, t, p[i], p[i + 1]);
    FiredThroughArm(w, t, b, arms, p[i + 1]);
  }

  lemma FiredThroughArm(w: Workflow, t: seq<Row>, b: NodeId, arms: set<Cardinality>, m: NodeId)
    requires Fired(w, t, b, m) && LabelledWith(w, b, arms, m)
    ensures CardinalityFor(t, b).Some? && CardinalityFor(t, b).value in arms
  {
  }

  /**
   * Nodes that can only be reached through different arms of a branch are never both
   * started, in the same run or in different ones.
   */
  lemma ArmsAreExclusive(defs: Definitions, db: Db, events: seq<Event>, wid: WorkflowId, b: NodeId,
                         left: set<Cardinality>, m: NodeId, right: set<Cardinality>, n: NodeId)
    requires Coherent(defs) && Initial(db) && wid in defs
    requires OnlyThroughArms(defs[wid], b, left, m) && OnlyThroughArms(defs[wid], b, right, n) && left !! right
    ensures
      var t := Rows(After(defs, db, events), wid);
      !((exists r :: r in t && r.node == m) && (exists r :: r in t && r.node == n))
  {
    HistoryKeepsInvariant(defs, db, events);
    var w, t := defs[wid], Rows(After(defs, db, events), wid);
    if (exists r :: r in t && r.node == m) && (exists r :: r in t && r.node == n) {
      ArmWasTaken(w, t, b, left, m);
      ArmWasTaken(w, t, b, right, n);
      assert false;
    }
  }

  // ------------------------------------------------------------- answers and revisions

  lemma RevisionStep(defs: Definitions, db: Db, e: Event)
    ensures db.job.revision <= Apply(defs, db, e).job.revision
    ensures e.Answered? && Resume(db, e.request).1.Resumed? ==>
              e.request.revision == db.job.revision < Apply(defs, db, e).job.revision
    ensures e.Installed? && Install(db, e.job, e.user, e.workflow, e.version).Some? ==>
              db.job.revision < Apply(defs, db, e).job.revision
  {
    if e.Iterated? && e.workflow in defs {
      IterationRevision(db, defs[e.workflow], e.user, e.consumed, e.turns);
    }
  }

  lemma SettleRevision(db: Db, w: Workflow, user: nat, consumed: Totals, reports: seq<Report>)
    ensures
      var step := Settle(db, w, user, consumed, reports);
      step.db.job.revision == db.job.revision + if step.Stop? && step.outcome.WaitingFor? then 1 else 0
  {
  }

  /** A run raises the revision exactly when it pauses. */
  lemma IterationRevision(db: Db, w: Workflow, user: nat, consumed: Totals, turns: nat -> Turn)
    ensures
      var step := Iterate(db, w, user, consumed, turns);
      step.db.job.revision == db.job.revision + if step.Stop? && step.outcome.WaitingFor? then 1 else 0
  {
    var batch := SelectBatch(w, consumed, Rows(db, w.id));
    var (t, reports) := ExecuteBatch(w, batch, Rows(db, w.id), turns, |batch|);
    SettleRevision(WithRows(db, w.id, t), w, user, consumed, reports);
  }

  lemma {:induction false} RevisionsGrow(defs: Definitions, db: Db, events: seq<Event>, i: nat)
    requires i <= |events|
    ensures After(defs, db, events[..i]).job.revision <= After(defs, db, events).job.revision
  {
    if i == |events| {
      assert events[..i] == events;
    } else {
      var last := |events| - 1;
      RevisionsGrow(defs, db, events[..last], i);
      assert events[..last][..i] == events[..i];
      RevisionStep(defs, After(defs, db, events[..last]), events[last]);
    }
  }

  ghost predicate ResumesAt(defs: Definitions, db: Db, events: seq<Event>, i: nat) {
    && i < |events| && events[i].Answered?
    && Resume(After(defs, db, events[..i]), events[i].request).1.Resumed?
  }

  /**
   * An answer is consumed at most once over the whole history: of two accepted answers the
   * later one carries a strictly higher revision, so no revision is accepted twice.
   */
  lemma AnswerConsumedOnce(defs: Definitions, db: Db, events: seq<Event>, i: nat, j: nat)
    requires i < j && ResumesAt(defs, db, events, i) && ResumesAt(defs, db, events, j)
    ensures events[i].request.revision < events[j].request.revision
  {
    RevisionStep(defs, After(defs, db, events[..i]), events[i]);
    assert events[..i + 1][..i] == events[..i];
    RevisionsGrow(defs, db, events[..j], i + 1);
    assert events[..j][..i + 1] == events[..i + 1];
    RevisionStep(defs, After(defs, db, events[..j]), events[j]);
  }

  lemma NextState(defs: Definitions, db: Db, events: seq<Event>, i: nat)
    requires i < |events|
    ensures After(defs, db, events[..i + 1]) == Apply(defs, After(defs, db, events[..i]), events[i])
  {
    assert events[..i + 1][..i] == events[..i];
  }

  lemma ResumedRows(db: Db, request: ResumeRequest)
    requires Resume(db, request).1.Resumed?
    ensures Rows(Resume(db, request).0, request.workflow) ==
            SetStatus(Rows(db, request.workflow), request.node, Status.Waiting, Status.Completed)
    ensures db.job.workflow == Some(request.workflow) && db.job.currentNode == Some(request.node)
  {
  }

  /** An answered node has completed, and no later event starts it again. */
  lemma AnsweredNodeNeverRestarts(defs: Definitions, db: Db, events: seq<Event>, i: nat)
    requires Coherent(defs) && Initial(db) && ResumesAt(defs, db, events, i)
    ensures
      var wid, n := events[i].request.workflow, events[i].request.node;
      var a, b := Rows(After(defs, db, events[..i]), wid), Rows(After(defs, db, events), wid);
      IsCompleted(b, n) && forall k | |a| <= k < |b| :: b[k].node != n
  {
    var before, after, request := After(defs, db, events[..i]), After(defs, db, events), events[i].request;
    var wid := request.workflow;
    NextState(defs, db, events, i);
    ResumedRows(before, request);
    HistoryKeepsInvariant(defs, db, events[..i]);
    AnsweredWasStarted(before, request);
    HistoryKeepsInvariant(defs, db, events);
    HistoryOnlyAddsRows(defs, db, events, i + 1);
    EveryTableIsWellKept(defs, after, wid);
    assert Evolves(Rows(After(defs, db, events[..i + 1]), wid), Rows(after, wid));
    AnsweredStays(Rows(before, wid), Rows(after, wid), request.node);
  }

  lemma AnsweredWasStarted(db: Db, request: ResumeRequest)
    requires PointsAtStarted(db) && Resume(db, request).1.Resumed?
    ensures WaitsOrAnswered(Rows(db, request.workflow), request.node)
  {
  }

  lemma EveryTableIsWellKept(defs: Definitions, db: Db, wid: WorkflowId)
    requires Inv(defs, db)
    ensures WellKept(Rows(db, wid))
  {
  }

  lemma AnsweredStays(a: seq<Row>, b: seq<Row>, n: NodeId)
    requires Evolves(SetStatus(a, n, Status.Waiting, Status.Completed), b) && WellKept(b)
    requires WaitsOrAnswered(a, n)
    ensures IsCompleted(b, n) && forall k | |a| <= k < |b| :: b[k].node != n
  {
    var m := SetStatus(a, n, Status.Waiting, Status.Completed);
    var r :| r in a && r.node == n && (r.status.Waiting? || (r.status.Completed? && r.ms.None?));
    var k :| 0 <= k < |a| && a[k] == r;
    assert RowEvolves(m[k], b[k]) && b[k] in b;
  }

  // ------------------------------------------------------- rows that completed by an answer

  /** The event at `i` is an answer that was accepted for this node. */
  ghost predicate AnsweredAt(defs: Definitions, db: Db, events: seq<Event>, wid: WorkflowId, n: NodeId, i: nat) {
    ResumesAt(defs, db, events, i) && events[i].request.workflow == wid && events[i].request.node == n
  }

  ghost predicate WasAnswered(defs: Definitions, db: Db, events: seq<Event>, wid: WorkflowId, n: NodeId) {
    exists i :: AnsweredAt(defs, db, events, wid, n, i)
  }

  lemma AnsweredBefore(defs: Definitions, db: Db, events: seq<Event>, wid: WorkflowId, n: NodeId)
    requires events != [] && WasAnswered(defs, db, events[..|events| - 1], wid, n)
    ensures WasAnswered(defs, db, events, wid, n)
  {
    var init := events[..|events| - 1];
    var i: nat :| AnsweredAt(defs, db, init, wid, n, i);
    assert init[..i] == events[..i];
    assert AnsweredAt(defs, db, events, wid, n, i);
  }

  /** The row has completed and holds no duration. */
  predicate Untimed(r: Row) {
    r.status.Completed? && r.ms.None?
  }

  /** Old rows are as they were, and no new one is untimed. */
  ghost predicate AddsTimed(a: seq<Row>, b: seq<Row>) {
    a <= b && forall k | |a| <= k < |b| :: !Untimed(b[k])
  }

  lemma AppendedIsTimed(w: Workflow, a: seq<Row>, t: seq<Row>)
    requires Appended(w, a, t)
    ensures AddsTimed(a, t)
  {
    forall k | |a| <= k < |t| ensures !Untimed(t[k]) {
      assert Fresh(w, a, t[k]);
    }
  }

  lemma PauseIsTimed(w: Workflow, a: seq<Row>, t: seq<Row>, node: NodeId)
    requires AddsTimed(a, t) && IsRunnable(w, node, a)
    ensures AddsTimed(a, SetStatus(t, node, Status.Running, Status.Waiting))
  {
    forall k | 0 <= k < |a| ensures SetStatus(t, node, Status.Running, Status.Waiting)[k] == a[k] {
      assert a[k] in a && t[k] == a[k];
    }
  }

  /** No iteration completes a row without its duration. */
  lemma IterationAddsTimed(db: Db, w: Workflow, user: nat, consumed: Totals, turns: nat -> Turn)
    requires TableInv(w, Rows(db, w.id))
    ensures AddsTimed(Rows(db, w.id), Rows(Iterate(db, w, user, consumed, turns).db, w.id))
  {
    var a, batch := Rows(db, w.id), SelectBatch(w, consumed, Rows(db, w.id));
    if RunnableNodes(w, a) != [] && batch != [] {
      var (t, reports) := ExecuteBatch(w, batch, a, turns, |batch|);
      FirstOfBatchRunnable(w, consumed, a);
      BatchIsAppended(w, batch, a, turns, |batch|);
      AppendedIsTimed(w, a, t);
      SettledRows(WithRows(db, w.id, t), w, user, consumed, reports);
      if FirstPaused(reports).Some? {
        PausedInBatch(w, batch, a, turns, |batch|, FirstPaused(reports).value);
        PauseIsTimed(w, a, t, FirstPaused(reports).value.node);
      }
    }
  }

  lemma IterationTimesAll(defs: Definitions, db: Db, other: WorkflowId, user: nat, consumed: Totals,
                          turns: nat -> Turn, wid: WorkflowId)
    requires Coherent(defs) && Inv(defs, db) && other in defs
    ensures AddsTimed(Rows(db, wid), Rows(Iterate(db, defs[other], user, consumed, turns).db, wid))
  {
    if other == wid {
      IterationAddsTimed(db, defs[wid], user, consumed, turns);
    } else {
      IterationIsLocal(db, defs[other], user, consumed, turns, wid);
    }
  }

  /** A row that became untimed was waiting for exactly the answer that the event brought. */
  lemma UntimedByAnswer(defs: Definitions, db: Db, e: Event, wid: WorkflowId, k: nat)
    requires Coherent(defs) && Inv(defs, db)
    requires k < |Rows(Apply(defs, db, e), wid)| && Untimed(Rows(Apply(defs, db, e), wid)[k])
    requires k < |Rows(db, wid)| ==> !Untimed(Rows(db, wid)[k])
    ensures e.Answered? && Resume(db, e.request).1.Resumed? && e.request.workflow == wid
    ensures e.request.node == Rows(Apply(defs, db, e), wid)[k].node
  {
    match e
    case Iterated(other, user, consumed, turns) =>
      if other in defs { IterationTimesAll(defs, db, other, user, consumed, turns, wid); }
    case _ =>
  }

  lemma UntimedRowWasAnswered(defs: Definitions, db: Db, events: seq<Event>, wid: WorkflowId, k: nat)
    requires Coherent(defs) && Initial(db) && k < |Rows(After(defs, db, events), wid)|
    requires Untimed(Rows(After(defs, db, events), wid)[k])
    ensures WasAnswered(defs, db, events, wid, Rows(After(defs, db, events), wid)[k].node)
    decreases |events|
  {
    if events != [] {
      var last, init := |events| - 1, events[..|events| - 1];
      var a, n := Rows(After(defs, db, init), wid), Rows(After(defs, db, events), wid)[k].node;
      HistoryKeepsInvariant(defs, db, init);
      if k < |a| && Untimed(a[k]) {
        LastStep(defs, db, events);
        assert RowEvolves(a[k], Rows(After(defs, db, events), wid)[k]);
        UntimedRowWasAnswered(defs, db, init, wid, k);
        AnsweredBefore(defs, db, events, wid, n);
      } else {
        UntimedByAnswer(defs, After(defs, db, init), events[last], wid, k);
        assert AnsweredAt(defs, db, events, wid, n, last);
      }
    }
  }

  /** What an accepted answer leaves at its node stays without a duration. */
  lemma AnswerLeavesUntimed(a: seq<Row>, b: seq<Row>, n: NodeId)
    requires Evolves(SetStatus(a, n, Status.Waiting, Status.Completed), b) && WellKept(b)
    requires WaitsOrAnswered(a, n) && WaitingHasNone(a)
    ensures exists r :: r in b && r.node == n && Untimed(r)
  {
    var m := SetStatus(a, n, Status.Waiting, Status.Completed);
    var r :| r in a && r.node == n && (r.status.Waiting? || (r.status.Completed? && r.ms.None?));
    var k :| 0 <= k < |a| && a[k] == r;
    assert RowEvolves(m[k], b[k]) && b[k] in b;
  }

  lemma AnsweredIsUntimed(defs: Definitions, db: Db, events: seq<Event>, i: nat)
    requires Coherent(defs) && Initial(db) && ResumesAt(defs, db, events, i)
    ensures
      var wid, n := events[i].request.workflow, events[i].request.node;
      exists r :: r in Rows(After(defs, db, events), wid) && r.node == n && Untimed(r)
  {
    var before, request := After(defs, db, events[..i]), events[i].request;
    NextState(defs, db, events, i);
    ResumedRows(before, request);
    HistoryKeepsInvariant(defs, db, events[..i]);
    AnsweredWasStarted(before, request);
    if request.workflow in defs { TableWaitingHasNone(defs[request.workflow], Rows(before, request.workflow)); }
    HistoryKeepsInvariant(defs, db, events);
    HistoryOnlyAddsRows(defs, db, events, i + 1);
    EveryTableIsWellKept(defs, After(defs, db, events), request.workflow);
    AnswerLeavesUntimed(Rows(before, request.workflow), Rows(After(defs, db, events), request.workflow), request.node);
  }

  lemma FoundIsUntimed(t: seq<Row>, n: NodeId)
    requires WellKept(t)
    ensures (exists r :: r in t && r.node == n && Untimed(r)) <==>
            IsCompleted(t, n) && FindCompleted(t, n).value.ms.None?
  {
    if r :| r in t && r.node == n && Untimed(r) {
      WellKeptCompletedOnce(t);
      assert FindCompleted(t, n).value == r;
    }
    if IsCompleted(t, n) { assert FindCompleted(t, n).value in t; }
  }

  lemma UntimedIffAnswered(defs: Definitions, db: Db, events: seq<Event>, wid: WorkflowId, n: NodeId)
    requires Coherent(defs) && Initial(db)
    ensures (exists r :: r in Rows(After(defs, db, events), wid) && r.node == n && Untimed(r)) <==>
            WasAnswered(defs, db, events, wid, n)
  {
    var t := Rows(After(defs, db, events), wid);
    if i: nat :| AnsweredAt(defs, db, events, wid, n, i) { AnsweredIsUntimed(defs, db, events, i); }
    if r :| r in t && r.node == n && Untimed(r) {
      var k :| 0 <= k < |t| && t[k] == r;
      UntimedRowWasAnswered(defs, db, events, wid, k);
    }
  }

  /** A completed node has no output to read if and only if an answer was accepted for it. */
  lemma OutputMissingIffAnswered(defs: Definitions, db: Db, events: seq<Event>, wid: WorkflowId, n: NodeId)
    requires Coherent(defs) && Initial(db) && wid in defs
    requires IsCompleted(Rows(After(defs, db, events), wid), n)
    ensures NodeOutput(Rows(After(defs, db, events), wid), n).None? <==> WasAnswered(defs, db, events, wid, n)
  {
    HistoryKeepsInvariant(defs, db, events);
    UntimedIffAnswered(defs, db, events, wid, n);
    FoundIsUntimed(Rows(After(defs, db, events), wid), n);
    OutputUnlessAnswered(defs[wid], Rows(After(defs, db, events), wid), n);
  }

  /**
   * Every dominator of a node that may run, or was ever started, has completed; and its
   * output can be read unless an answer was accepted for it.
   */
  lemma DominatorsHaveCompleted(defs: Definitions, db: Db, events: seq<Event>, wid: WorkflowId, d: NodeId, n: NodeId)
    requires Coherent(defs) && Initial(db) && wid in defs
    requires Dominates(defs[wid], d, n) && d != n
    requires
      var t := Rows(After(defs, db, events), wid);
      IsRunnable(defs[wid], n, t) || exists r :: r in t && r.node == n
    ensures
      var t := Rows(After(defs, db, events), wid);
      IsCompleted(t, d) && (NodeOutput(t, d).None? <==> WasAnswered(defs, db, events, wid, d))
  {
    HistoryKeepsInvariant(defs, db, events);
    DominatorsCompleted(defs[wid], Rows(After(defs, db, events), wid), d, n);
    OutputMissingIffAnswered(defs, db, events, wid, d);
  }
}
