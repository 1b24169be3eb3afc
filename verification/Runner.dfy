/**
 * The workflow runner (run.rs). `RunLoop` is the run as a function of the durable state
 * alone; the method `WorkflowRunner.Run` keeps its own list of rows and its own ledger
 * and is proved to do exactly the same. The executor, the clock and every failure of the
 * outside world are one `Turn` per started node.
 */
module Runner {
  import opened Wrappers
  import opened Json
  import opened Contract
  import opened Scheduler
  import opened Ledger
  import opened Store

  /** What the executor answers: `Crash` is an error instead of an answer. */
  datatype Reply =
    | Produced(output: Json, rows: int)
    | Asked(clarification: nat)
    | Refused
    | Crash

  /**
   * What the world does to one node of a batch: whether the policy check passes, whether
   * the batch was cancelled before the node finished, how long it ran, what it answered,
   * and whether a write after its completion failed.
   */
  datatype Turn = Turn(authorized: bool, scope: Json, cancelled: bool, elapsed: nat, reply: Reply, lost: bool)

  datatype Report =
    | Done(row: Row, queryCost: nat)
    | Paused(node: NodeId, clarification: nat)
    | NodeFailed
    | NodeCancelled
    | Errored

  datatype RunOutcome = Completed | WaitingFor(node: NodeId) | Failed | Error

  // -------------------------------------------------------------------- one node

  predicate SourcesAvailable(w: Workflow, sources: seq<NodeId>, runs: seq<Row>) {
    forall s :: s in sources ==> s in Ids(w.nodes) && NodeOutput(runs, s).Some?
  }

  /**
   * Branches, completions and compositions are decided here; the rest asks the executor. An
   * error between the begin and the completion of any node, a failed write included, is `Crash`.
   */
  function ResolveExecution(w: Workflow, n: Node, runs: seq<Row>, turn: Turn): Reply {
    if turn.reply.Crash? then Crash
    else
      match n.kind
      case CardinalityBranch(source, _, _, _) =>
        (match CardinalityFor(runs, source)
         case None => Crash
         case Some(c) => Produced(Object(map["cardinality" := String(NameOf(c))]), 0))
      case Complete(_) => Produced(Object(map[]), 0)
      case ComposeResult(sources, _) =>
        if SourcesAvailable(w, sources, runs) && turn.reply.Produced? then Produced(turn.reply.output, 0) else Crash
      case _ => turn.reply
  }

  /** The rows after one node of a batch, started against the rows `runs` the batch began with. */
  function ExecuteNode(w: Workflow, n: Node, runs: seq<Row>, t: seq<Row>, turn: Turn): (seq<Row>, Report) {
    var attempt := NextAttempt(runs, n.id);
    if !turn.authorized || AttemptTaken(t, n.id, attempt) then (t, Errored)
    else
      var row := RunningRow(|t|, n.id, attempt);
      if BindingsFor(n.inputs, runs, turn.scope).None? then (t + [row], Errored)
      else if turn.cancelled then (t + [Failing(row, turn.elapsed)], NodeCancelled)
      else
        match ResolveExecution(w, n, runs, turn)
        case Produced(output, rows) =>
          var done := Completing(row, PersistedOutput(n.inputs, output), rows, turn.elapsed);
          (t + [done], if turn.lost then Errored else Done(done, n.budget.queryCost))
        case Asked(c) => (t + [row], Paused(n.id, c))
        case Refused => (t + [Failing(row, turn.elapsed)], NodeFailed)
        case Crash => (t + [row], Errored)
  }

  // ------------------------------------------------------------------- one batch

  /** Rows and reports after the first `i` nodes of a batch. */
  function ExecuteBatch(w: Workflow, batch: seq<Node>, runs: seq<Row>, turns: nat -> Turn, i: nat)
    : (r: (seq<Row>, seq<Report>))
    requires i <= |batch|
    ensures |r.1| == i
  {
    if i == 0 then (runs, [])
    else
      var (t, reports) := ExecuteBatch(w, batch, runs, turns, i - 1);
      var (t', report) := ExecuteNode(w, batch[i - 1], runs, t, turns(i - 1));
      (t', reports + [report])
  }

  lemma BatchStep(w: Workflow, batch: seq<Node>, runs: seq<Row>, turns: nat -> Turn, i: nat, t: seq<Row>,
                  reports: seq<Report>, t': seq<Row>, report: Report)
    requires 0 < i <= |batch| && ExecuteBatch(w, batch, runs, turns, i - 1) == (t, reports)
    requires ExecuteNode(w, batch[i - 1], runs, t, turns(i - 1)) == (t', report)
    ensures ExecuteBatch(w, batch, runs, turns, i) == (t', reports + [report])
  {
  }

  predicate AnyErrored(reports: seq<Report>) {
    exists r :: r in reports && r.Errored?
  }

  predicate AnyFailed(reports: seq<Report>) {
    exists r :: r in reports && (r.NodeFailed? || r.NodeCancelled?)
  }

  /** The first report of a pause: a later one never replaces it. */
  function FirstPaused(reports: seq<Report>): (found: Option<Report>)
    ensures found.Some? ==> found.value in reports && found.value.Paused?
    ensures found.None? ==> forall r :: r in reports ==> !r.Paused?
  {
    if reports == [] then None
    else
      var last, init := reports[|reports| - 1], reports[..|reports| - 1];
      assert reports == init + [last];
      if FirstPaused(init).Some? then FirstPaused(init)
      else if last.Paused? then Some(last) else None
  }

  function AddReports(consumed: Totals, reports: seq<Report>): Totals {
    if reports == [] then consumed
    else
      var before := AddReports(consumed, reports[..|reports| - 1]);
      var last := reports[|reports| - 1];
      if last.Done? then AddActual(before, last.queryCost, last.row) else before
  }

  /** The rows a batch completed, as the run appends them to its own list. */
  function CompletedRows(reports: seq<Report>): seq<Row> {
    if reports == [] then []
    else
      var before, last := CompletedRows(reports[..|reports| - 1]), reports[|reports| - 1];
      if last.Done? then before + [last.row] else before
  }

  // --------------------------------------------------------------- one iteration

  datatype Iteration = Next(db: Db, consumed: Totals) | Stop(db: Db, outcome: RunOutcome)

  predicate ReachedComplete(w: Workflow, runs: seq<Row>) {
    exists n :: n in w.nodes && n.kind.Complete? && IsCompleted(runs, n.id)
  }

  function Quiescent(w: Workflow, runs: seq<Row>): RunOutcome {
    if ReachedComplete(w, runs) then RunOutcome.Completed else RunOutcome.Failed
  }

  /** What an iteration does once its batch has settled in `db`. */
  function Settle(db: Db, w: Workflow, user: nat, consumed: Totals, reports: seq<Report>): Iteration {
    if AnyErrored(reports) then Stop(db, Error)
    else if AnyFailed(reports) then Stop(db, RunOutcome.Failed)
    else
      match FirstPaused(reports)
      case Some(p) =>
        (match Pause(db, db.job.id, user, w.id, p.node, p.clarification)
         case None => Stop(db, Error)
         case Some(paused) => Stop(paused, WaitingFor(p.node)))
      case None => Next(db, AddReports(consumed, reports))
  }

  function Iterate(db: Db, w: Workflow, user: nat, consumed: Totals, turns: nat -> Turn): Iteration {
    var runs := Rows(db, w.id);
    if RunnableNodes(w, runs) == [] then Stop(db, Quiescent(w, runs))
    else
      var batch := SelectBatch(w, consumed, runs);
      if batch == [] then Stop(db, RunOutcome.Failed)
      else
        var (t, reports) := ExecuteBatch(w, batch, runs, turns, |batch|);
        Settle(WithRows(db, w.id, t), w, user, consumed, reports)
  }

  // ------------------------------------------------------------- what can come of a step

  /** The row that a node of a batch leaves, if it is started at all. */
  ghost predicate LeavesRow(n: Node, runs: seq<Row>, t: seq<Row>, turn: Turn, reply: Reply, r: Row) {
    var bound := BindingsFor(n.inputs, runs, turn.scope).Some?;
    && r.id == |t| && r.node == n.id && r.attempt == NextAttempt(runs, n.id)
    && (r.status.Completed? <==> bound && !turn.cancelled && reply.Produced?)
    && (r.status.Failed? <==> bound && (turn.cancelled || reply.Refused?))
    && (r.status.Running? <==> !r.status.Completed? && !r.status.Failed?)
    && (r.status.Completed? ==>
          r.output == Some(PersistedOutput(n.inputs, reply.output)) && r.rows == reply.rows &&
              r.ms == Some(turn.elapsed))
    && (!r.status.Completed? ==> r.output.None? && r.rows == 0)
  }

  /**
   * A node is started if its policy check passes and its next attempt is free; it then leaves
   * one row and reports how it ended. A cancellation counts only once bindings exist, and a
   * completion whose write was lost is an error although its row is completed.
   */
  lemma NodeEnds(w: Workflow, n: Node, runs: seq<Row>, t: seq<Row>, turn: Turn)
    ensures
      var (after, report) := ExecuteNode(w, n, runs, t, turn);
      var started := turn.authorized && forall r | r in t && r.node == n.id :: r.attempt != NextAttempt(runs, n.id);
      var reply := ResolveExecution(w, n, runs, turn);
      if !started then after == t && report == Errored
      else
        && |after| == |t| + 1 && t <= after && LeavesRow(n, runs, t, turn, reply, after[|t|])
        && (report.Done? <==> after[|t|].status.Completed? && !turn.lost)
        && (report.Done? ==> report.row == after[|t|] && report.queryCost == n.budget.queryCost)
        && (report.NodeCancelled? <==> after[|t|].status.Failed? && turn.cancelled)
        && (report.NodeFailed? <==> after[|t|].status.Failed? && !turn.cancelled)
        && (report.Paused? <==> BindingsFor(n.inputs, runs, turn.scope).Some? && !turn.cancelled && reply.Asked?)
        && (report.Paused? ==> report == Paused(n.id, reply.clarification))
  {
  }

  lemma {:induction false} FirstPausedIsFirstOf(reports: seq<Report>)
    ensures FirstOf(reports, (r: Report) => r.Paused?, FirstPaused(reports))
  {
    if reports != [] {
      var init, last := reports[..|reports| - 1], reports[|reports| - 1];
      FirstPausedIsFirstOf(init);
      FirstOfMore(init, last, (r: Report) => r.Paused?, FirstPaused(init));
      assert init + [last] == reports;
    }
  }

  /**
   * How a batch settles: any error ends the run as one, else any failure or cancellation as a
   * failure, else the first pause is recorded and waited for, and only completions go on.
   */
  lemma SettlesIff(db: Db, w: Workflow, user: nat, consumed: Totals, reports: seq<Report>)
    ensures
      var s := Settle(db, w, user, consumed, reports);
      var failed := exists r :: r in reports && (r.NodeFailed? || r.NodeCancelled?);
      if Errored in reports then s == Stop(db, Error)
      else if failed then s == Stop(db, RunOutcome.Failed)
      else if exists r :: r in reports && r.Paused? then
        exists node, c ::
          && FirstOf(reports, (r: Report) => r.Paused?, Some(Paused(node, c)))
          && match Pause(db, db.job.id, user, w.id, node, c)
             case None => s == Stop(db, Error)
             case Some(paused) => s == Stop(paused, WaitingFor(node))
      else s == Next(db, AddReports(consumed, reports)) && forall r :: r in reports ==> r.Done?
  {
    FirstPausedIsFirstOf(reports);
    assert AnyErrored(reports) <==> Errored in reports;
    if FirstPaused(reports).Some? {
      var first := FirstPaused(reports).value;
      assert first == Paused(first.node, first.clarification);
    }
  }

  /**
   * An iteration that starts nothing ends the run: as completed if nothing may run and some
   * terminal has completed, and as failed otherwise, also if the first candidate does not fit.
   */
  lemma QuietIterationStops(db: Db, w: Workflow, user: nat, consumed: Totals, turns: nat -> Turn)
    ensures
      var runs := Rows(db, w.id);
      var finished := exists n :: n in w.nodes && n.kind.Complete? && IsCompleted(runs, n.id);
      && ((forall n | n in w.nodes :: !IsRunnable(w, n.id, runs)) ==>
            Iterate(db, w, user, consumed, turns) ==
            Stop(db, if finished then RunOutcome.Completed else RunOutcome.Failed))
      && ((exists n :: n in w.nodes && IsRunnable(w, n.id, runs))
          && WouldExceed(consumed, w.budgets, RunnableNodes(w, runs)[0].budget) ==>
            Iterate(db, w, user, consumed, turns) == Stop(db, RunOutcome.Failed))
  {
    var runs := Rows(db, w.id);
    if RunnableNodes(w, runs) != [] { assert RunnableNodes(w, runs)[0] in RunnableNodes(w, runs); }
  }

  // ------------------------------------------------------------------ termination

  /** How many listed nodes have not completed. */
  function Pending(nodes: seq<Node>, runs: seq<Row>): nat {
    if nodes == [] then 0
    else Pending(nodes[1..], runs) + if IsCompleted(runs, nodes[0].id) then 0 else 1
  }

  lemma {:induction false} PendingShrinks(nodes: seq<Node>, a: seq<Row>, b: seq<Row>, n: Node)
    requires forall m :: IsCompleted(a, m) ==> IsCompleted(b, m)
    ensures Pending(nodes, b) <= Pending(nodes, a) <= |nodes|
    ensures n in nodes && !IsCompleted(a, n.id) && IsCompleted(b, n.id) ==> Pending(nodes, b) < Pending(nodes, a)
  {
    if nodes != [] {
      PendingShrinks(nodes[1..], a, b, n);
    }
  }

  /** Executing a node appends at most one row, and a completion appends its own row. */
  lemma NodeAppends(w: Workflow, n: Node, runs: seq<Row>, t: seq<Row>, turn: Turn)
    ensures
      var (t', report) := ExecuteNode(w, n, runs, t, turn);
      && t <= t'
      && (report.Done? ==> t' == t + [report.row] && DoneBy(n, report))
  {
  }

  lemma {:induction false} BatchExtends(w: Workflow, batch: seq<Node>, runs: seq<Row>, turns: nat -> Turn, i: nat)
    requires i <= |batch|
    ensures runs <= ExecuteBatch(w, batch, runs, turns, i).0
  {
    if i > 0 {
      BatchExtends(w, batch, runs, turns, i - 1);
      NodeAppends(w, batch[i - 1], runs, ExecuteBatch(w, batch, runs, turns, i - 1).0, turns(i - 1));
    }
  }

  /** The report carries a completed row of the node, charged with its declared queries. */
  predicate DoneBy(n: Node, r: Report) {
    r.Done? && r.queryCost == n.budget.queryCost && r.row.node == n.id && r.row.status.Completed?
  }

  ghost predicate DoneInOrder(batch: seq<Node>, reports: seq<Report>) {
    |reports| <= |batch| && (forall k | 0 <= k < |reports| :: DoneBy(batch[k], reports[k]))
  }

  lemma OneMoreDone(batch: seq<Node>, runs: seq<Row>, t: seq<Row>, reports: seq<Report>, report: Report)
    requires DoneInOrder(batch, reports) && t == runs + CompletedRows(reports)
    requires |reports| < |batch| && DoneBy(batch[|reports|], report)
    ensures DoneInOrder(batch, reports + [report])
    ensures t + [report.row] == runs + CompletedRows(reports + [report])
  {
    var all := reports + [report];
    assert all[..|reports|] == reports;
    assert CompletedRows(all) == CompletedRows(reports) + [report.row];
  }

  /** A batch that reports nothing but completions appended exactly those rows. */
  lemma {:induction false} AllDone(w: Workflow, batch: seq<Node>, runs: seq<Row>, turns: nat -> Turn, i: nat)
    requires i <= |batch|
    requires forall r :: r in ExecuteBatch(w, batch, runs, turns, i).1 ==> r.Done?
    ensures DoneInOrder(batch, ExecuteBatch(w, batch, runs, turns, i).1)
    ensures ExecuteBatch(w, batch, runs, turns, i).0 == runs + CompletedRows(ExecuteBatch(w, batch, runs, turns, i).1)
  {
    if i > 0 {
      var before := ExecuteBatch(w, batch, runs, turns, i - 1);
      var step := ExecuteNode(w, batch[i - 1], runs, before.0, turns(i - 1));
      var after := ExecuteBatch(w, batch, runs, turns, i);
      assert after == (step.0, before.1 + [step.1]);
      assert after.1[i - 1] == step.1;
      forall r | r in before.1 ensures r.Done? {
        assert r in after.1;
      }
      AllDone(w, batch, runs, turns, i - 1);
      NodeAppends(w, batch[i - 1], runs, before.0, turns(i - 1));
      OneMoreDone(batch, runs, before.0, before.1, step.1);
    }
  }

  lemma {:induction false} CompletedRowsAt(batch: seq<Node>, reports: seq<Report>)
    requires DoneInOrder(batch, reports)
    ensures CompletedRows(reports) == seq(|reports|, k requires 0 <= k < |reports| => reports[k].row)
  {
    if reports != [] {
      CompletedRowsAt(batch, reports[..|reports| - 1]);
    }
  }

  lemma NextMeansAllDone(db: Db, w: Workflow, user: nat, consumed: Totals, reports: seq<Report>)
    requires Settle(db, w, user, consumed, reports).Next?
    ensures forall r :: r in reports ==> r.Done?
    ensures Settle(db, w, user, consumed, reports) == Next(db, AddReports(consumed, reports))
  {
  }

  /** What an iteration that does not end the run has done. */
  lemma NextIteration(db: Db, w: Workflow, user: nat, consumed: Totals, turns: nat -> Turn)
    requires Iterate(db, w, user, consumed, turns).Next?
    ensures
      var runs, batch := Rows(db, w.id), SelectBatch(w, consumed, Rows(db, w.id));
      var reports := ExecuteBatch(w, batch, runs, turns, |batch|).1;
      && batch != [] && DoneInOrder(batch, reports)
      && Iterate(db, w, user, consumed, turns) ==
         Next(WithRows(db, w.id, runs + CompletedRows(reports)), AddReports(consumed, reports))
  {
    var runs, batch := Rows(db, w.id), SelectBatch(w, consumed, Rows(db, w.id));
    var (t, reports) := ExecuteBatch(w, batch, runs, turns, |batch|);
    NextMeansAllDone(WithRows(db, w.id, t), w, user, consumed, reports);
    AllDone(w, batch, runs, turns, |batch|);
  }

  lemma FirstOfBatchRunnable(w: Workflow, consumed: Totals, runs: seq<Row>)
    ensures forall n :: n in SelectBatch(w, consumed, runs) ==> n in w.nodes && IsRunnable(w, n.id, runs)
  {
  }

  lemma CompletedGrows(a: seq<Row>, more: seq<Row>, n: NodeId)
    ensures IsCompleted(a, n) ==> IsCompleted(a + more, n)
    ensures IsCompleted(more, n) ==> IsCompleted(a + more, n)
  {
  }

  /** An iteration that does not end the run completes at least one more node. */
  lemma IterationProgresses(db: Db, w: Workflow, user: nat, consumed: Totals, turns: nat -> Turn)
    requires Iterate(db, w, user, consumed, turns).Next?
    ensures
      var after := Rows(Iterate(db, w, user, consumed, turns).db, w.id);
      Pending(w.nodes, after) < Pending(w.nodes, Rows(db, w.id))
  {
    var runs, batch := Rows(db, w.id), SelectBatch(w, consumed, Rows(db, w.id));
    var reports := ExecuteBatch(w, batch, runs, turns, |batch|).1;
    NextIteration(db, w, user, consumed, turns);
    FirstOfBatchRunnable(w, consumed, runs);
    CompletedRowsAt(batch, reports);
    var more := CompletedRows(reports);
    assert more[0] in more;
    forall m ensures IsCompleted(runs, m) ==> IsCompleted(runs + more, m) {
      CompletedGrows(runs, more, m);
    }
    CompletedGrows(runs, more, batch[0].id);
    PendingShrinks(w.nodes, runs, runs + more, batch[0]);
  }

  // -------------------------------------------------------- what a batch appends

  /** A row as this node can leave it: nothing but a completion has output, and that is clean. */
  ghost predicate RowFits(n: Node, r: Row) {
    && r.node == n.id
    && match r.status
       case Running => r.output.None? && r.ms.None? && r.rows == 0
       case Failed => r.output.None? && r.ms.Some? && r.rows == 0
       case Completed => r.output.Some? && r.ms.Some? && Clean(r.output.value, SensitiveFields(n.inputs))
       case _ => false
  }

  /** The row belongs to a node that was runnable when the batch began. */
  ghost predicate Fresh(w: Workflow, base: seq<Row>, r: Row) {
    && r.attempt == NextAttempt(base, r.node)
    && IsRunnable(w, r.node, base)
    && exists n :: n in w.nodes && RowFits(n, r)
  }

  /** `t` is `base` and then at most one fresh row per node. */
  ghost predicate Appended(w: Workflow, base: seq<Row>, t: seq<Row>) {
    && base <= t && IdsAreIndices(t)
    && (forall i | |base| <= i < |t| :: Fresh(w, base, t[i]))
    && (forall i, j | |base| <= i < j < |t| :: t[i].node != t[j].node)
  }

  lemma AppendOne(w: Workflow, base: seq<Row>, t: seq<Row>, r: Row)
    requires Appended(w, base, t) && Fresh(w, base, r) && r.id == |t|
    requires !AttemptTaken(t, r.node, r.attempt)
    ensures Appended(w, base, t + [r])
  {
    forall i | |base| <= i < |t| ensures t[i].node != r.node {
      assert Fresh(w, base, t[i]) && t[i] in t;
    }
  }

  /** A runnable node adds no row, or one that fits it and takes the next attempt. */
  lemma NodeAddsFresh(w: Workflow, n: Node, base: seq<Row>, t: seq<Row>, turn: Turn) returns (r: Row)
    requires n in w.nodes && IsRunnable(w, n.id, base) && IdsAreIndices(t)
    ensures
      var t' := ExecuteNode(w, n, base, t, turn).0;
      t' == t || (t' == t + [r] && Fresh(w, base, r) && r.id == |t| && !AttemptTaken(t, r.node, r.attempt))
  {
    var t' := ExecuteNode(w, n, base, t, turn).0;
    r := if |t'| > |t| then t'[|t|] else RunningRow(|t|, n.id, 0);
    var reply := ResolveExecution(w, n, base, turn);
    if reply.Produced? { PersistedIsClean(n.inputs, reply.output); }
    if t' != t { assert RowFits(n, r); }
  }

  lemma NodeKeepsAppended(w: Workflow, n: Node, base: seq<Row>, t: seq<Row>, turn: Turn)
    requires Appended(w, base, t) && n in w.nodes && IsRunnable(w, n.id, base)
    ensures Appended(w, base, ExecuteNode(w, n, base, t, turn).0)
  {
    var t' := ExecuteNode(w, n, base, t, turn).0;
    var r := NodeAddsFresh(w, n, base, t, turn);
    if t' != t { AppendOne(w, base, t, r); }
  }

  lemma {:induction false} BatchIsAppended(w: Workflow, batch: seq<Node>, base: seq<Row>, turns: nat -> Turn, i: nat)
    requires i <= |batch| && IdsAreIndices(base)
    requires forall n :: n in batch ==> n in w.nodes && IsRunnable(w, n.id, base)
    ensures Appended(w, base, ExecuteBatch(w, batch, base, turns, i).0)
  {
    if i > 0 {
      BatchIsAppended(w, batch, base, turns, i - 1);
      NodeKeepsAppended(w, batch[i - 1], base, ExecuteBatch(w, batch, base, turns, i - 1).0, turns(i - 1));
    }
  }

  lemma AppendedIsWellKept(w: Workflow, base: seq<Row>, t: seq<Row>)
    requires WellKept(base) && Appended(w, base, t)
    ensures WellKept(t)
  {
  }

  // -------------------------------------------------------------------- whole run

  datatype RunResult = RunResult(db: Db, outcome: RunOutcome, batches: nat)

  /** One call of `run` from its `k`-th iteration on. */
  function RunLoop(db: Db, w: Workflow, user: nat, consumed: Totals, turns: nat -> nat -> Turn, k: nat): (r: RunResult)
    ensures k <= r.batches <= k + Pending(w.nodes, Rows(db, w.id)) + 1
    decreases Pending(w.nodes, Rows(db, w.id))
  {
    match Iterate(db, w, user, consumed, turns(k))
    case Stop(after, outcome) => RunResult(after, outcome, k + 1)
    case Next(after, total) =>
      IterationProgresses(db, w, user, consumed, turns(k));
      RunLoop(after, w, user, total, turns, k + 1)
  }

  /** The same run with nothing carried over: each iteration reads the ledger off the rows. */
  function RunStateless(db: Db, w: Workflow, user: nat, turns: nat -> nat -> Turn, k: nat): RunResult
    decreases Pending(w.nodes, Rows(db, w.id))
  {
    var consumed := FromCompleted(w, Rows(db, w.id));
    match Iterate(db, w, user, consumed, turns(k))
    case Stop(after, outcome) => RunResult(after, outcome, k + 1)
    case Next(after, _) =>
      IterationProgresses(db, w, user, consumed, turns(k));
      RunStateless(after, w, user, turns, k + 1)
  }

  lemma ReportsLast(consumed: Totals, init: seq<Report>, last: Report)
    requires last.Done?
    ensures AddReports(consumed, init + [last]) == AddActual(AddReports(consumed, init), last.queryCost, last.row)
    ensures CompletedRows(init + [last]) == CompletedRows(init) + [last.row]
  {
    assert (init + [last])[..|init|] == init;
  }

  /** Adding what a batch used keeps the ledger equal to the one read off the rows. */
  lemma {:induction false} LedgerFollowsRows(w: Workflow, runs: seq<Row>, batch: seq<Node>, reports: seq<Report>)
    requires CostsAgree(w) && (forall n :: n in batch ==> n in w.nodes)
    requires DoneInOrder(batch, reports)
    ensures AddReports(FromCompleted(w, runs), reports) == FromCompleted(w, runs + CompletedRows(reports))
  {
    if reports == [] {
      assert runs + CompletedRows(reports) == runs;
    } else {
      var init, last := reports[..|reports| - 1], reports[|reports| - 1];
      assert reports == init + [last];
      LedgerFollowsRows(w, runs, batch, init);
      assert DoneBy(batch[|init|], last);
      assert batch[|init|] in w.nodes;
      ReportsLast(FromCompleted(w, runs), init, last);
      FromCompletedLast(w, runs + CompletedRows(init), last.row);
      assert runs + CompletedRows(reports) == (runs + CompletedRows(init)) + [last.row];
    }
  }

  lemma NextLedger(db: Db, w: Workflow, user: nat, consumed: Totals, turns: nat -> Turn)
    requires CostsAgree(w) && consumed == FromCompleted(w, Rows(db, w.id))
    requires Iterate(db, w, user, consumed, turns).Next?
    ensures
      var next := Iterate(db, w, user, consumed, turns);
      next.consumed == FromCompleted(w, Rows(next.db, w.id))
  {
    var runs, batch := Rows(db, w.id), SelectBatch(w, consumed, Rows(db, w.id));
    NextIteration(db, w, user, consumed, turns);
    FirstOfBatchRunnable(w, consumed, runs);
    LedgerFollowsRows(w, runs, batch, ExecuteBatch(w, batch, runs, turns, |batch|).1);
  }

  /**
   * The incremental ledger refines recomputation: at every loop head it is what a fresh
   * call would read from the durable rows, so a run may be cut between any two batches
   * and started again without changing its schedule, its ledger or its outcome.
   */
  lemma {:induction false} RunIsRestartable(db: Db, w: Workflow, user: nat, turns: nat -> nat -> Turn, k: nat)
    requires CostsAgree(w)
    ensures RunLoop(db, w, user, FromCompleted(w, Rows(db, w.id)), turns, k) == RunStateless(db, w, user, turns, k)
    decreases Pending(w.nodes, Rows(db, w.id))
  {
    var consumed := FromCompleted(w, Rows(db, w.id));
    var step := Iterate(db, w, user, consumed, turns(k));
    if step.Next? {
      IterationProgresses(db, w, user, consumed, turns(k));
      NextLedger(db, w, user, consumed, turns(k));
      RunIsRestartable(step.db, w, user, turns, k + 1);
    }
  }

  // ------------------------------------------------------------ the running object

  lemma {:induction false} SourcesSame(w: Workflow, sources: seq<NodeId>, a: seq<Row>, b: seq<Row>)
    requires SameRows(a, b) && CompletedOnce(a)
    ensures SourcesAvailable(w, sources, a) == SourcesAvailable(w, sources, b)
  {
    forall s | s in sources ensures NodeOutput(a, s) == NodeOutput(b, s) {
      FindCompletedSame(a, b, s);
    }
  }

  lemma ResolveSame(w: Workflow, n: Node, a: seq<Row>, b: seq<Row>, turn: Turn)
    requires SameRows(a, b) && CompletedOnce(a)
    ensures ResolveExecution(w, n, a, turn) == ResolveExecution(w, n, b, turn)
  {
    match n.kind
    case CardinalityBranch(source, _, _, _) => FindCompletedSame(a, b, source);
    case ComposeResult(sources, _) => SourcesSame(w, sources, a, b);
    case _ =>
  }

  class WorkflowRunner {
    const state: WorkflowStateRepository

    constructor (state: WorkflowStateRepository)
      ensures this.state == state
    {
      this.state := state;
    }

    /** One node's lifecycle: policy check, begin, bindings, execution, persistence. */
    method RunNode(w: Workflow, n: Node, runs: seq<Row>, ghost base: seq<Row>, turn: Turn) returns (report: Report)
      requires SameRows(base, runs) && CompletedOnce(base)
      requires IdsAreIndices(state.Table(w.id))
      modifies state
      ensures
        var spec := ExecuteNode(w, n, base, old(state.Table(w.id)), turn);
        report == spec.1 && state.View() == WithRows(old(state.View()), w.id, spec.0)
    {
      ghost var t := state.Table(w.id);
      ghost var db := state.View();
      WithRowsTwice(db, w.id, t, t);
      SameMembers(base, runs);
      AttemptSame(base, runs, n.id);
      if !turn.authorized {
        return Errored;
      }
      var attempt := NextAttempt(runs, n.id);
      var begun := state.BeginNode(w.id, n.id, attempt);
      if begun.None? {
        return Errored;
      }
      var row := begun.value;
      BindingsSame(n.inputs, base, runs, turn.scope);
      var bindings := BindingsFor(n.inputs, runs, turn.scope);
      if bindings.None? {
        return Errored;
      }
      if turn.cancelled {
        CompleteLast(t, row, Null, 0, turn.elapsed);
        WithRowsTwice(db, w.id, t + [row], t + [Failing(row, turn.elapsed)]);
        state.FailNode(w.id, row, turn.elapsed);
        return NodeCancelled;
      }
      ResolveSame(w, n, base, runs, turn);
      match ResolveExecution(w, n, runs, turn) {
        case Produced(output, rows) =>
          var persisted := PersistedOutput(n.inputs, output);
          CompleteLast(t, row, persisted, rows, turn.elapsed);
          assert row in state.Table(w.id) && RunningWithId(row, row.id);
          var done := Completing(row, persisted, rows, turn.elapsed);
          WithRowsTwice(db, w.id, t + [row], t + [done]);
          var ok := state.CompleteNode(w.id, row, persisted, rows, turn.elapsed);
          report := if turn.lost then Errored else Done(done, n.budget.queryCost);
        case Asked(c) =>
          report := Paused(n.id, c);
        case Refused =>
          CompleteLast(t, row, Null, 0, turn.elapsed);
          WithRowsTwice(db, w.id, t + [row], t + [Failing(row, turn.elapsed)]);
          state.FailNode(w.id, row, turn.elapsed);
          report := NodeFailed;
        case Crash =>
          report := Errored;
      }
    }

    /** Every node of a batch is driven to its end, whatever its siblings report. */
    method RunBatch(w: Workflow, batch: seq<Node>, runs: seq<Row>, turns: nat -> Turn) returns (reports: seq<Report>)
      requires SameRows(state.Table(w.id), runs) && WellKept(state.Table(w.id))
      requires forall n :: n in batch ==> n in w.nodes && IsRunnable(w, n.id, state.Table(w.id))
      modifies state
      ensures
        var spec := ExecuteBatch(w, batch, old(state.Table(w.id)), turns, |batch|);
        reports == spec.1 && state.View() == WithRows(old(state.View()), w.id, spec.0)
    {
      ghost var base := state.Table(w.id);
      ghost var db := state.View();
      WellKeptCompletedOnce(base);
      WithRowsTwice(db, w.id, base, base);
      reports := [];
      for i := 0 to |batch|
        invariant reports == ExecuteBatch(w, batch, base, turns, i).1
        invariant state.View() == WithRows(db, w.id, ExecuteBatch(w, batch, base, turns, i).0)
      {
        BatchIsAppended(w, batch, base, turns, i);
        BatchExtends(w, batch, base, turns, i + 1);
        ghost var t := ExecuteBatch(w, batch, base, turns, i).0;
        assert state.Table(w.id) == t;
        var report := RunNode(w, batch[i], runs, base, turns(i));
        NodeAppends(w, batch[i], base, t, turns(i));
        WithRowsTwice(db, w.id, t, ExecuteBatch(w, batch, base, turns, i + 1).0);
        reports := reports + [report];
      }
    }

    /** Candidates are projected onto the ledger at their declared worst case. */
    method AdmitBatch(w: Workflow, consumed: Totals, candidates: seq<Node>) returns (batch: seq<Node>)
      ensures batch == Admit(consumed, w.budgets, candidates)
    {
      batch := [];
      var projected := consumed;
      for i := 0 to |candidates|
        invariant batch == candidates[..i]
        invariant |Admit(consumed, w.budgets, candidates)| == i + |Admit(projected, w.budgets, candidates[i..])|
      {
        if WouldExceed(projected, w.budgets, candidates[i].budget) {
          return;
        }
        AdmitOneMore(projected, w.budgets, candidates, i);
        projected := AddDeclared(projected, candidates[i].budget);
        batch := batch + [candidates[i]];
      }
    }

    /** Walks the outcomes of a batch: charges completions, remembers failure and the first pause. */
    method Collect(reports: seq<Report>, consumed: Totals, runs: seq<Row>)
      returns (total: Totals, allRuns: seq<Row>, failed: bool, waiting: Option<Report>)
      ensures total == AddReports(consumed, reports)
      ensures allRuns == runs + CompletedRows(reports)
      ensures failed == AnyFailed(reports)
      ensures waiting == FirstPaused(reports)
    {
      total, allRuns, failed, waiting := consumed, runs, false, None;
      for i := 0 to |reports|
        invariant total == AddReports(consumed, reports[..i])
        invariant allRuns == runs + CompletedRows(reports[..i])
        invariant failed == AnyFailed(reports[..i])
        invariant waiting == FirstPaused(reports[..i])
      {
        assert reports[..i + 1][..i] == reports[..i];
        assert reports[..i + 1] == reports[..i] + [reports[i]];
        match reports[i] {
          case Done(row, cost) =>
            total := AddActual(total, cost, row);
            allRuns := allRuns + [row];
          case Paused(_, _) =>
            waiting := if waiting.Some? then waiting else Some(reports[i]);
          case Errored =>
          case _ =>
            failed := true;
        }
      }
      assert reports[..|reports|] == reports;
    }

    /** The end of an iteration: errors first, then failures, then at most one pause. */
    method SettleBatch(w: Workflow, user: nat, consumed: Totals, runs: seq<Row>, reports: seq<Report>)
      returns (verdict: Option<RunOutcome>, total: Totals, allRuns: seq<Row>)
      requires WellKept(state.Table(w.id))
      modifies state
      ensures
        var spec := Settle(old(state.View()), w, user, consumed, reports);
        && state.View() == spec.db
        && verdict == (if spec.Stop? then Some(spec.outcome) else None)
        && (spec.Next? ==> total == spec.consumed && allRuns == runs + CompletedRows(reports))
      ensures WellKept(state.Table(w.id))
    {
      total, allRuns := consumed, runs;
      if AnyErrored(reports) {
        return Some(Error), total, allRuns;
      }
      var failed, waiting;
      total, allRuns, failed, waiting := Collect(reports, consumed, runs);
      if failed {
        verdict := Some(RunOutcome.Failed);
      } else if waiting.Some? {
        var p := waiting.value;
        PauseKeepsWellKept(state.Table(w.id), p.node);
        var ok := state.MarkWorkflowPaused(state.job.id, user, w.id, p.node, p.clarification);
        verdict := Some(if ok then WaitingFor(p.node) else Error);
      } else {
        verdict := None;
      }
    }

    /** One iteration of the loop, on the rows and the ledger the run carries with it. */
    method RunIteration(w: Workflow, user: nat, consumed: Totals, runs: seq<Row>, turns: nat -> Turn)
      returns (verdict: Option<RunOutcome>, total: Totals, allRuns: seq<Row>)
      requires SameRows(state.Table(w.id), runs) && WellKept(state.Table(w.id))
      modifies state
      ensures
        var spec := Iterate(old(state.View()), w, user, consumed, turns);
        && state.View() == spec.db
        && verdict == (if spec.Stop? then Some(spec.outcome) else None)
        && (spec.Next? ==> total == spec.consumed && SameRows(state.Table(w.id), allRuns))
      ensures WellKept(state.Table(w.id))
    {
      ghost var db, table := state.View(), state.Table(w.id);
      total, allRuns := consumed, runs;
      WellKeptCompletedOnce(table);
      SameMembers(table, runs);
      RunnableNodesSame(w, w.nodes, table, runs);
      var ready := RunnableNodes(w, runs);
      if ready == [] {
        return Some(Quiescent(w, runs)), total, allRuns;
      }
      var limit := MaxParallel(w.budgets);
      var batch := AdmitBatch(w, consumed, if |ready| <= limit then ready else ready[..limit]);
      if batch == [] {
        return Some(RunOutcome.Failed), total, allRuns;
      }
      FirstOfBatchRunnable(w, consumed, table);
      BatchIsAppended(w, batch, table, turns, |batch|);
      AppendedIsWellKept(w, table, ExecuteBatch(w, batch, table, turns, |batch|).0);
      var reports := RunBatch(w, batch, runs, turns);
      verdict, total, allRuns := SettleBatch(w, user, consumed, runs, reports);
      if verdict.None? {
        NextIteration(db, w, user, consumed, turns);
        assert multiset(table + CompletedRows(reports)) == multiset(runs + CompletedRows(reports));
      }
    }

    /**
     * The whole run. `runs` and `consumed` are the caches of the source: what they hold is
     * never read back from the store, yet the outcome and the stored rows are those of a
     * run that reads nothing else.
     */
    method Run(w: Workflow, user: nat, turns: nat -> nat -> Turn) returns (outcome: RunOutcome, iterations: nat)
      requires WellKept(state.Table(w.id))
      modifies state
      ensures
        var before := old(state.View());
        RunResult(state.View(), outcome, iterations) ==
        RunLoop(before, w, user, FromCompleted(w, Rows(before, w.id)), turns, 0)
      ensures WellKept(state.Table(w.id))
    {
      var runs := state.NodeRuns(w.id);
      LedgerOrderIrrelevant(w, state.Table(w.id), runs);
      var consumed := FromCompleted(w, runs);
      ghost var spec := RunLoop(state.View(), w, user, consumed, turns, 0);
      iterations := 0;
      while true
        invariant SameRows(state.Table(w.id), runs) && WellKept(state.Table(w.id))
        invariant RunLoop(state.View(), w, user, consumed, turns, iterations) == spec
        decreases Pending(w.nodes, state.Table(w.id))
      {
        ghost var db := state.View();
        if Iterate(db, w, user, consumed, turns(iterations)).Next? {
          IterationProgresses(db, w, user, consumed, turns(iterations));
        }
        var verdict;
        verdict, consumed, runs := RunIteration(w, user, consumed, runs, turns(iterations));
        iterations := iterations + 1;
        if verdict.Some? {
          return verdict.value, iterations;
        }
      }
    }
  }

  lemma PauseKeepsWellKept(t: seq<Row>, node: NodeId)
    requires WellKept(t)
    ensures WellKept(SetStatus(t, node, Status.Running, Status.Waiting))
  {
  }
}
