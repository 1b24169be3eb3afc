/**
 * What a pause leaves behind (run.rs:149-189): which rows of the batch wait, which are left
 * running for ever, and what a call that begins while a node waits does to the query bound.
 */
module Pauses {
  import opened Wrappers
  import opened Json
  import opened Contract
  import opened Scheduler
  import opened Ledger
  import opened Store
  import opened Runner
  import opened History
  import opened BudgetSafety
  import opened Gaps

  // ------------------------------------------------------------------ any pausing batch

  /** The row this report left behind, before a pause is recorded. */
  ghost predicate LeftBy(n: Node, report: Report, r: Row) {
    && r.node == n.id
    && (report.Done? ==> r.status.Completed?)
    && (report.Paused? ==> r.status.Running? && report.node == n.id)
  }

  ghost predicate DoneOrPaused(reports: seq<Report>) {
    forall r :: r in reports ==> r.Done? || r.Paused?
  }

  lemma NodeLeaves(w: Workflow, n: Node, runs: seq<Row>, t: seq<Row>, turn: Turn)
    requires
      var report := ExecuteNode(w, n, runs, t, turn).1;
      report.Done? || report.Paused?
    ensures
      var (t', report) := ExecuteNode(w, n, runs, t, turn);
      |t'| == |t| + 1 && t <= t' && LeftBy(n, report, t'[|t|])
  {
  }

  /** `t` is `base` and then one row per report, each left by its node. */
  ghost predicate Leaves(batch: seq<Node>, reports: seq<Report>, base: seq<Row>, t: seq<Row>) {
    && base <= t && |t| == |base| + |reports| && |reports| <= |batch|
    && (forall k | 0 <= k < |reports| :: LeftBy(batch[k], reports[k], t[|base| + k]))
  }

  lemma OneMoreLeft(batch: seq<Node>, reports: seq<Report>, report: Report, base: seq<Row>, t: seq<Row>, t': seq<Row>)
    requires Leaves(batch, reports, base, t) && |reports| < |batch|
    requires t <= t' && |t'| == |t| + 1 && LeftBy(batch[|reports|], report, t'[|t|])
    ensures Leaves(batch, reports + [report], base, t')
  {
  }

  lemma DoneOrPausedSplit(init: seq<Report>, last: Report)
    requires DoneOrPaused(init + [last])
    ensures DoneOrPaused(init) && (last.Done? || last.Paused?)
  {
    var all := init + [last];
    assert all[|init|] == last;
    forall r | r in init ensures r in all { }
  }

  /** Without errors and failures a batch adds exactly one row per node, in batch order. */
  lemma {:induction false} BatchLeaves(w: Workflow, batch: seq<Node>, runs: seq<Row>, turns: nat -> Turn, i: nat)
    requires i <= |batch| && DoneOrPaused(ExecuteBatch(w, batch, runs, turns, i).1)
    ensures Leaves(batch, ExecuteBatch(w, batch, runs, turns, i).1, runs, ExecuteBatch(w, batch, runs, turns, i).0)
  {
    if i > 0 {
      var (t, reports) := ExecuteBatch(w, batch, runs, turns, i - 1);
      var (t', report) := ExecuteNode(w, batch[i - 1], runs, t, turns(i - 1));
      DoneOrPausedSplit(reports, report);
      BatchLeaves(w, batch, runs, turns, i - 1);
      NodeLeaves(w, batch[i - 1], runs, t, turns(i - 1));
      OneMoreLeft(batch, reports, report, runs, t, t');
    }
  }

  lemma WaitingSettles(db: Db, w: Workflow, user: nat, consumed: Totals, reports: seq<Report>)
    requires
      var step := Settle(db, w, user, consumed, reports);
      step.Stop? && step.outcome.WaitingFor?
    ensures DoneOrPaused(reports) && FirstPaused(reports).Some?
    ensures
      var step, p := Settle(db, w, user, consumed, reports), FirstPaused(reports).value.node;
      && step.outcome == WaitingFor(p)
      && Rows(step.db, w.id) == SetStatus(Rows(db, w.id), p, Status.Running, Status.Waiting)
  {
  }

  /** The batch an iteration starts and what its nodes report. */
  function Batch(db: Db, w: Workflow, consumed: Totals): seq<Node> {
    SelectBatch(w, consumed, Rows(db, w.id))
  }

  function Reports(db: Db, w: Workflow, consumed: Totals, turns: nat -> Turn): (r: seq<Report>)
    ensures |r| == |Batch(db, w, consumed)|
  {
    ExecuteBatch(w, Batch(db, w, consumed), Rows(db, w.id), turns, |Batch(db, w, consumed)|).1
  }

  /** The iteration ends the run with a recorded pause. */
  ghost predicate Pauses(db: Db, w: Workflow, user: nat, consumed: Totals, turns: nat -> Turn) {
    var step := Iterate(db, w, user, consumed, turns);
    step.Stop? && step.outcome.WaitingFor?
  }

  /** The row of a node once the pause of node `p` has been recorded. */
  ghost predicate RecordedBy(n: Node, report: Report, p: NodeId, r: Row) {
    && r.node == n.id
    && (r.status.Completed? <==> report.Done?)
    && (r.status.Waiting? <==> report.Paused? && n.id == p)
    && (r.status.Running? <==> report.Paused? && n.id != p)
  }

  /** The old rows as they were, and then one row per node of the batch. */
  ghost predicate RecordedAll(batch: seq<Node>, reports: seq<Report>, p: NodeId, a: seq<Row>, b: seq<Row>) {
    && |b| == |a| + |batch| && |reports| == |batch| && a <= b
    && (forall k | 0 <= k < |batch| :: RecordedBy(batch[k], reports[k], p, b[|a| + k]))
  }

  lemma RecordsAll(w: Workflow, batch: seq<Node>, reports: seq<Report>, p: NodeId, a: seq<Row>, t: seq<Row>)
    requires Leaves(batch, reports, a, t) && |reports| == |batch| && DoneOrPaused(reports) && IsRunnable(w, p, a)
    ensures RecordedAll(batch, reports, p, a, SetStatus(t, p, Status.Running, Status.Waiting))
  {
    var b := SetStatus(t, p, Status.Running, Status.Waiting);
    forall i | 0 <= i < |a| ensures b[i] == a[i] {
      assert a[i] in a && t[i] == a[i];
    }
    forall k | 0 <= k < |batch| ensures RecordedBy(batch[k], reports[k], p, b[|a| + k]) {
      assert reports[k] in reports && LeftBy(batch[k], reports[k], t[|a| + k]);
    }
  }

  /**
   * What a pause leaves, exactly: the old rows as they were and one row per node of the
   * batch. A node that answered is completed; of the nodes that asked, the recorded one
   * waits and every other is left running.
   */
  lemma PauseLeaves(db: Db, w: Workflow, user: nat, consumed: Totals, turns: nat -> Turn)
    requires Pauses(db, w, user, consumed, turns)
    ensures
      var step := Iterate(db, w, user, consumed, turns);
      && RecordedAll(Batch(db, w, consumed), Reports(db, w, consumed, turns), step.outcome.node,
                     Rows(db, w.id), Rows(step.db, w.id))
      && Some(Paused(step.outcome.node, FirstPaused(Reports(db, w, consumed, turns)).value.clarification)) ==
         FirstPaused(Reports(db, w, consumed, turns))
  {
    var a, batch, reports := Rows(db, w.id), Batch(db, w, consumed), Reports(db, w, consumed, turns);
    var t := ExecuteBatch(w, batch, a, turns, |batch|).0;
    WaitingSettles(WithRows(db, w.id, t), w, user, consumed, reports);
    var p := FirstPaused(reports).value;
    BatchLeaves(w, batch, a, turns, |batch|);
    FirstOfBatchRunnable(w, consumed, a);
    PausedInBatch(w, batch, a, turns, |batch|, p);
    RecordsAll(w, batch, reports, p.node, a, t);
  }

  /** The recorded pause is that of the first node in batch order that asked. */
  lemma {:induction false} FirstPausedIsFirst(reports: seq<Report>) returns (k: nat)
    requires FirstPaused(reports).Some?
    ensures k < |reports| && reports[k] == FirstPaused(reports).value
    ensures forall i | 0 <= i < k :: !reports[i].Paused?
  {
    var init := reports[..|reports| - 1];
    if FirstPaused(init).Some? {
      k := FirstPausedIsFirst(init);
    } else {
      k := |reports| - 1;
      forall i | 0 <= i < k ensures !reports[i].Paused? { assert reports[i] == init[i] && init[i] in init; }
    }
  }

  /** The event is an iteration that pauses, and the `k`-th node of its batch asked unrecorded. */
  ghost predicate AskedInVain(defs: Definitions, before: Db, e: Event, k: nat) {
    && e.Iterated? && e.workflow in defs
    && Pauses(before, defs[e.workflow], e.user, e.consumed, e.turns)
    && k < |Batch(before, defs[e.workflow], e.consumed)|
    && Reports(before, defs[e.workflow], e.consumed, e.turns)[k].Paused?
    && Batch(before, defs[e.workflow], e.consumed)[k].id !=
       Iterate(before, defs[e.workflow], e.user, e.consumed, e.turns).outcome.node
  }

  predicate RunsAt(t: seq<Row>, j: nat, n: NodeId) {
    j < |t| && t[j].status.Running? && t[j].node == n
  }

  lemma VainQuestionRuns(defs: Definitions, before: Db, e: Event, k: nat)
    requires Coherent(defs) && AskedInVain(defs, before, e, k)
    ensures
      RunsAt(Rows(Apply(defs, before, e), e.workflow), |Rows(before, e.workflow)| + k,
             Batch(before, defs[e.workflow], e.consumed)[k].id)
  {
    var w := defs[e.workflow];
    PauseLeaves(before, w, e.user, e.consumed, e.turns);
    var step := Iterate(before, w, e.user, e.consumed, e.turns);
    assert RecordedBy(Batch(before, w, e.consumed)[k], Reports(before, w, e.consumed, e.turns)[k], step.outcome.node,
                      Rows(step.db, w.id)[|Rows(before, w.id)| + k]);
  }

  /** The row at `j` is left running for ever: nothing of its node completed or came after it. */
  ghost predicate StrandedAt(t: seq<Row>, j: nat, n: NodeId) {
    && j < |t| && t[j].node == n && t[j].status.Running? && !IsCompleted(t, n)
    && (forall l | j < l < |t| :: t[l].node != n)
  }

  /** What became of the question of the `k`-th node of that batch. */
  ghost predicate IsLost(defs: Definitions, before: Db, e: Event, k: nat, last: Db)
    requires AskedInVain(defs, before, e, k)
  {
    StrandedAt(Rows(last, e.workflow), |Rows(before, e.workflow)| + k,
               Batch(before, defs[e.workflow], e.consumed)[k].id)
  }

  lemma StaysStranded(a: seq<Row>, b: seq<Row>, j: nat, n: NodeId)
    requires Evolves(a, b) && WellKept(b) && RunsAt(a, j, n)
    ensures StrandedAt(b, j, n)
  {
    RunningStays(a, b, j);
  }

  lemma StrandedAfter(before: Db, last: Db, wid: WorkflowId, j: nat, n: NodeId)
    requires TablesEvolve(before, last) && WellKept(Rows(last, wid)) && RunsAt(Rows(before, wid), j, n)
    ensures StrandedAt(Rows(last, wid), j, n)
  {
    StaysStranded(Rows(before, wid), Rows(last, wid), j, n);
  }

  lemma VainQuestionIsLost(defs: Definitions, before: Db, e: Event, k: nat, last: Db)
    requires Coherent(defs) && AskedInVain(defs, before, e, k)
    requires TablesEvolve(Apply(defs, before, e), last) && WellKept(Rows(last, e.workflow))
    ensures IsLost(defs, before, e, k, last)
  {
    VainQuestionRuns(defs, before, e, k);
    StrandedAfter(Apply(defs, before, e), last, e.workflow, |Rows(before, e.workflow)| + k,
                  Batch(before, defs[e.workflow], e.consumed)[k].id);
  }

  lemma LaterState(defs: Definitions, db: Db, events: seq<Event>, i: nat, wid: WorkflowId)
    requires Coherent(defs) && Initial(db) && i < |events|
    ensures TablesEvolve(Apply(defs, After(defs, db, events[..i]), events[i]), After(defs, db, events))
    ensures WellKept(Rows(After(defs, db, events), wid))
  {
    NextState(defs, db, events, i);
    HistoryOnlyAddsRows(defs, db, events, i + 1);
    HistoryKeepsInvariant(defs, db, events);
    EveryTableIsWellKept(defs, After(defs, db, events), wid);
  }

  /**
   * A question that was asked beside the recorded one is lost: the row of its node stays
   * running in every continuation and the node is never started again, whatever is answered.
   */
  lemma UnrecordedQuestionIsLost(defs: Definitions, db: Db, events: seq<Event>, i: nat, k: nat)
    requires Coherent(defs) && Initial(db) && i < |events|
    requires AskedInVain(defs, After(defs, db, events[..i]), events[i], k)
    ensures IsLost(defs, After(defs, db, events[..i]), events[i], k, After(defs, db, events))
  {
    LaterState(defs, db, events, i, events[i].workflow);
    VainQuestionIsLost(defs, After(defs, db, events[..i]), events[i], k, After(defs, db, events));
  }

  // -------------------------------------------------------------------------- witnesses

  /** A question and an unconnected node, in batches of `parallel` under a cap of `queries`. */
  function Pair(x: NodeId, n: Node, parallel: u8, queries: u8): Workflow {
    Workflow(3, [Question(x), n], [], Budgets(1000, 10, queries, parallel), FailFast,
             OutputContract(false, PublicBusiness))
  }

  function TwoQuestions(x: NodeId, y: NodeId): Workflow {
    Pair(x, Question(y), 2, 2)
  }

  function AskAndQuery(x: NodeId, y: NodeId): Workflow {
    Pair(x, Inquiry(y), 1, 1)
  }

  /** An interrupt that declares a query. */
  function Question(id: NodeId): Node {
    Node(id, ClarificationInterrupt("free_text", id, id), [], [], NodePolicy(None, PublicBusiness, false),
         NodeBudget(1, 0, 1), Replayable)
  }

  function Inquiry(id: NodeId): Node {
    Node(id, ExecuteQuery(Some("capability"), None, None, Some("query"), None), [], [],
         NodePolicy(None, PublicBusiness, false), NodeBudget(1, 1, 1), ExecuteOnce)
  }

  function Asks(clarification: nat): Turn {
    Turn(true, Null, false, 0, Asked(clarification), false)
  }

  function Answers(): Turn {
    Turn(true, Null, false, 0, Produced(Null, 0), false)
  }

  /** A node of the pair that was never started is runnable; one that waits or completed is not. */
  lemma PairReady(x: NodeId, n: Node, parallel: u8, queries: u8, runs: seq<Row>)
    requires forall r :: r in runs ==> r.status.Completed? || r.status.Waiting?
    ensures RunnableNodes(Pair(x, n, parallel, queries), runs) ==
            (if Untouched(runs, x) then [Question(x)] else []) + (if Untouched(runs, n.id) then [n] else [])
  {
    var w := Pair(x, n, parallel, queries);
    assert IsRunnable(w, x, runs) <==> Untouched(runs, x);
    assert IsRunnable(w, n.id, runs) <==> Untouched(runs, n.id);
    RunnableFirst(w, [], n, runs);
    RunnableFirst(w, [n], Question(x), runs);
    assert [n] + [] == [n] && [Question(x)] + [n] == w.nodes;
  }

  lemma QuestionAsks(w: Workflow, id: NodeId, runs: seq<Row>, t: seq<Row>, clarification: nat)
    requires Untouched(runs, id) && Untouched(t, id)
    ensures ExecuteNode(w, Question(id), runs, t, Asks(clarification)) ==
            (t + [RunningRow(|t|, id, 0)], Paused(id, clarification))
  {
    UntouchedAttempt(runs, id);
  }

  lemma BothAdmitted(x: NodeId, y: NodeId)
    requires x != y
    ensures SelectBatch(TwoQuestions(x, y), ZERO, []) == [Question(x), Question(y)]
  {
    var w := TwoQuestions(x, y);
    PairReady(x, Question(y), 2, 2, []);
    assert Candidates(w, []) == [Question(x), Question(y)];
    AdmitFirst(ZERO, w.budgets, Question(x), [Question(y)]);
    AdmitFirst(Totals(1, 0, 1), w.budgets, Question(y), []);
    assert [Question(y)] + [] == [Question(y)] && [Question(x)] + [Question(y)] == [Question(x), Question(y)];
  }

  lemma AdmitFirst(t: Totals, budgets: Budgets, n: Node, rest: seq<Node>)
    requires !WouldExceed(t, budgets, n.budget)
    ensures Admit(t, budgets, [n] + rest) == [n] + Admit(AddDeclared(t, n.budget), budgets, rest)
  {
    assert ([n] + rest)[1..] == rest;
  }

  lemma BothAsk(x: NodeId, y: NodeId, w: Workflow, turns: nat -> Turn, c: nat, d: nat)
    requires x != y && turns(0) == Asks(c) && turns(1) == Asks(d)
    ensures ExecuteBatch(w, [Question(x), Question(y)], [], turns, 2) ==
            ([RunningRow(0, x, 0), RunningRow(1, y, 0)], [Paused(x, c), Paused(y, d)])
  {
    var batch := [Question(x), Question(y)];
    QuestionAsks(w, x, [], [], c);
    QuestionAsks(w, y, [], [RunningRow(0, x, 0)], d);
    assert [] + [RunningRow(0, x, 0)] == [RunningRow(0, x, 0)] && [] + [Paused(x, c)] == [Paused(x, c)];
    BatchStep(w, batch, [], turns, 1, [], [], [RunningRow(0, x, 0)], Paused(x, c));
    BatchStep(w, batch, [], turns, 2, [RunningRow(0, x, 0)], [Paused(x, c)],
              [RunningRow(0, x, 0)] + [RunningRow(1, y, 0)], Paused(y, d));
    assert [RunningRow(0, x, 0)] + [RunningRow(1, y, 0)] == [RunningRow(0, x, 0), RunningRow(1, y, 0)];
    assert [Paused(x, c)] + [Paused(y, d)] == [Paused(x, c), Paused(y, d)];
  }

  lemma TwoPausesSettle(db: Db, w: Workflow, user: nat, x: NodeId, y: NodeId, c: nat, d: nat)
    requires x != y && w.id == 3 && db.job.user == user && db.job.workflow == Some(3)
    requires Rows(db, 3) == [RunningRow(0, x, 0), RunningRow(1, y, 0)]
    ensures
      var step := Settle(db, w, user, ZERO, [Paused(x, c), Paused(y, d)]);
      && step.Stop? && step.outcome == WaitingFor(x)
      && Rows(step.db, 3) == [RunningRow(0, x, 0).(status := Status.Waiting), RunningRow(1, y, 0)]
  {
    var reports := [Paused(x, c), Paused(y, d)];
    assert reports[..1] == [Paused(x, c)] && [Paused(x, c)][..0] == [];
    assert FirstPaused([Paused(x, c)]) == Some(Paused(x, c));
    assert FirstPaused(reports) == Some(Paused(x, c));
    var t := Rows(db, 3);
    assert t[..1] == [RunningRow(0, x, 0)] && t[..1][..0] == [];
    assert CountRunning(t[..1], x) == 1;
    assert CountRunning(t, x) == 1;
  }

  /**
   * Two entry nodes that both ask in one batch: the first waits, the second is left running,
   * which by `UnrecordedQuestionIsLost` it is for ever.
   */
  lemma SecondQuestionIsLost(x: NodeId, y: NodeId, db: Db, user: nat, turns: nat -> Turn, c: nat, d: nat)
    requires x != y && Rows(db, 3) == [] && db.job.user == user && db.job.workflow == Some(3)
    requires turns(0) == Asks(c) && turns(1) == Asks(d)
    ensures
      var step := Iterate(db, TwoQuestions(x, y), user, ZERO, turns);
      && step.Stop? && step.outcome == WaitingFor(x)
      && Rows(step.db, 3) == [RunningRow(0, x, 0).(status := Status.Waiting), RunningRow(1, y, 0)]
  {
    var w := TwoQuestions(x, y);
    PairReady(x, Question(y), 2, 2, []);
    BothAdmitted(x, y);
    BothAsk(x, y, w, turns, c, d);
    TwoPausesSettle(WithRows(db, 3, [RunningRow(0, x, 0), RunningRow(1, y, 0)]), w, user, x, y, c, d);
  }

  // ---------------------------------------------------- a call begins while a node waits

  function WaitingRow(x: NodeId): Row {
    RunningRow(0, x, 0).(status := Status.Waiting)
  }

  function AnsweredRow(y: NodeId): Row {
    Completing(RunningRow(1, y, 0), Null, 0, 0)
  }

  /** The job after it was paused at `x`. */
  function PausedAt(job: Job, x: NodeId, c: nat): Job {
    job.(status := WaitingForUserInput, currentNode := Some(x), revision := job.revision + 1, pending := Some(c))
  }

  lemma QuestionPauses(db: Db, w: Workflow, user: nat, x: NodeId, c: nat)
    requires w.id == 3 && Rows(db, 3) == [RunningRow(0, x, 0)]
    requires db.job.user == user && db.job.workflow == Some(3) && db.job.memory
    ensures
      var step := Settle(db, w, user, ZERO, [Paused(x, c)]);
      step.Stop? && Rows(step.db, 3) == [WaitingRow(x)] && step.db.job == PausedAt(db.job, x, c)
  {
    var t := Rows(db, 3);
    assert t[..0] == [] && [Paused(x, c)][..0] == [];
    assert FirstPaused([Paused(x, c)]) == Some(Paused(x, c));
    assert CountRunning(t, x) == 1;
    assert SetStatus(t, x, Status.Running, Status.Waiting) == [WaitingRow(x)];
  }

  lemma FirstAdmitted(x: NodeId, y: NodeId)
    requires x != y
    ensures SelectBatch(AskAndQuery(x, y), ZERO, []) == [Question(x)]
    ensures RunnableNodes(AskAndQuery(x, y), []) != []
  {
    PairReady(x, Inquiry(y), 1, 1, []);
    assert ([Question(x)] + [Inquiry(y)])[..1] == [Question(x)] + [];
    AdmitFirst(ZERO, AskAndQuery(x, y).budgets, Question(x), []);
  }

  lemma OneQuestionAsks(w: Workflow, x: NodeId, turns: nat -> Turn, c: nat)
    requires turns(0) == Asks(c)
    ensures ExecuteBatch(w, [Question(x)], [], turns, 1) == ([RunningRow(0, x, 0)], [Paused(x, c)])
  {
    QuestionAsks(w, x, [], [], c);
    OneNodeBatch(w, Question(x), [], turns);
    assert [] + [RunningRow(0, x, 0)] == [RunningRow(0, x, 0)];
  }

  /** The first call asks at `x` and stops. */
  lemma FirstCallAsks(x: NodeId, y: NodeId, db: Db, user: nat, turns: nat -> nat -> Turn, c: nat)
    requires x != y && Rows(db, 3) == [] && turns(0)(0) == Asks(c)
    requires db.job.user == user && db.job.workflow == Some(3) && db.job.memory
    ensures
      var after := RunStateless(db, AskAndQuery(x, y), user, turns, 0).db;
      Rows(after, 3) == [WaitingRow(x)] && after.job == PausedAt(db.job, x, c)
  {
    var w := AskAndQuery(x, y);
    FirstAdmitted(x, y);
    OneQuestionAsks(w, x, turns(0), c);
    QuestionPauses(WithRows(db, 3, [RunningRow(0, x, 0)]), w, user, x, c);
  }

  lemma InquiryAnswers(w: Workflow, y: NodeId, t: seq<Row>)
    requires |t| == 1 && Untouched(t, y)
    ensures ExecuteNode(w, Inquiry(y), t, t, Answers()) == (t + [AnsweredRow(y)], Done(AnsweredRow(y), 1))
  {
    UntouchedAttempt(t, y);
  }

  lemma SecondAdmitted(x: NodeId, y: NodeId)
    requires x != y
    ensures SelectBatch(AskAndQuery(x, y), ZERO, [WaitingRow(x)]) == [Inquiry(y)]
    ensures RunnableNodes(AskAndQuery(x, y), [WaitingRow(x)]) != []
  {
    var t := [WaitingRow(x)];
    assert t[0] in t;
    PairReady(x, Inquiry(y), 1, 1, t);
    assert [] + [Inquiry(y)] == [Inquiry(y)] + [];
    AdmitFirst(ZERO, AskAndQuery(x, y).budgets, Inquiry(y), []);
  }

  lemma NothingAfterSecond(x: NodeId, y: NodeId)
    requires x != y
    ensures RunnableNodes(AskAndQuery(x, y), [WaitingRow(x), AnsweredRow(y)]) == []
  {
    var t := [WaitingRow(x), AnsweredRow(y)];
    assert t[0] in t && t[1] in t;
    PairReady(x, Inquiry(y), 1, 1, t);
  }

  lemma OneInquiryAnswers(w: Workflow, x: NodeId, y: NodeId, turns: nat -> Turn)
    requires x != y && turns(0) == Answers()
    ensures ExecuteBatch(w, [Inquiry(y)], [WaitingRow(x)], turns, 1) ==
            ([WaitingRow(x), AnsweredRow(y)], [Done(AnsweredRow(y), 1)])
  {
    InquiryAnswers(w, y, [WaitingRow(x)]);
    OneNodeBatch(w, Inquiry(y), [WaitingRow(x)], turns);
    assert [WaitingRow(x)] + [AnsweredRow(y)] == [WaitingRow(x), AnsweredRow(y)];
  }

  /** A waiting row is not charged, so a second call finds the whole cap free for `y`. */
  lemma SecondCallGoesOn(x: NodeId, y: NodeId, db: Db, user: nat, turns: nat -> Turn)
    requires x != y && Rows(db, 3) == [WaitingRow(x)] && turns(0) == Answers()
    ensures
      var step := Iterate(db, AskAndQuery(x, y), user, ZERO, turns);
      step.Next? && Rows(step.db, 3) == [WaitingRow(x), AnsweredRow(y)] && step.db.job == db.job
  {
    var w := AskAndQuery(x, y);
    SecondAdmitted(x, y);
    OneInquiryAnswers(w, x, y, turns);
    OneDone(WithRows(db, 3, [WaitingRow(x), AnsweredRow(y)]), w, user, ZERO, Done(AnsweredRow(y), 1));
  }

  lemma SecondCallCompletes(x: NodeId, y: NodeId, db: Db, user: nat, turns: nat -> nat -> Turn)
    requires x != y && Rows(db, 3) == [WaitingRow(x)] && turns(0)(0) == Answers()
    ensures
      var after := RunStateless(db, AskAndQuery(x, y), user, turns, 0).db;
      Rows(after, 3) == [WaitingRow(x), AnsweredRow(y)] && after.job == db.job
  {
    var w := AskAndQuery(x, y);
    assert [WaitingRow(x)][..0] == [];
    assert FromCompleted(w, [WaitingRow(x)]) == ZERO;
    SecondCallGoesOn(x, y, db, user, turns(0));
    NothingAfterSecond(x, y);
    var next := Iterate(db, w, user, ZERO, turns(0)).db;
    assert Iterate(next, w, user, FromCompleted(w, Rows(next, 3)), turns(1)) == Stop(next, Quiescent(w, Rows(next, 3)));
    assert RunStateless(next, w, user, turns, 1).db == next;
  }

  lemma ThreeSteps(db: Db, w: Workflow, a: BudgetSafety.Step, b: BudgetSafety.Step, c: BudgetSafety.Step)
    ensures Life(db, w, [a, b, c]) == Live(Live(Live(db, w, a), w, b), w, c)
  {
    LifeLast(db, w, [], a);
    LifeLast(db, w, [a], b);
    LifeLast(db, w, [a, b], c);
    assert [] + [a] == [a] && [a] + [b] == [a, b] && [a, b] + [c] == [a, b, c];
  }

  lemma LifeLast(db: Db, w: Workflow, steps: seq<BudgetSafety.Step>, last: BudgetSafety.Step)
    ensures Life(db, w, steps + [last]) == Live(Life(db, w, steps), w, last)
  {
  }

  /** The answer that was pending all along completes the row that waited. */
  lemma LateAnswer(x: NodeId, y: NodeId, before: Db, request: ResumeRequest)
    requires Rows(before, 3) == [WaitingRow(x), AnsweredRow(y)] && request.workflow == 3 && request.node == x
    requires before.job.id == request.job && before.job.user == request.user
    requires before.job.status == WaitingForUserInput && IdentityMatches(before.job, request)
    ensures Rows(Resume(before, request).0, 3) ==
            SetStatus([WaitingRow(x), AnsweredRow(y)], x, Status.Waiting, Status.Completed)
  {
  }

  /**
   * That no call may begin while a node waits is needed: under a cap of one query, a question at
   * `x`, a call that queries at `y` while `x` waits, and the answer to `x` complete two queries.
   */
  lemma EarlyCallOverspends(x: NodeId, y: NodeId, db: Db, user: nat, asking: nat -> nat -> Turn,
                            answering: nat -> nat -> Turn, c: nat) returns (steps: seq<BudgetSafety.Step>)
    requires x != y && Rows(db, 3) == [] && asking(0)(0) == Asks(c) && answering(0)(0) == Answers()
    requires db.job.user == user && db.job.workflow == Some(3) && db.job.memory
    ensures
      var w := AskAndQuery(x, y);
      FromCompleted(w, Rows(Life(db, w, steps), w.id)).queries == 2 > w.budgets.maxQueryCount
  {
    var w := AskAndQuery(x, y);
    var request := ResumeRequest(db.job.id, user, 3, x, c, db.job.revision + 1);
    steps := [Called(user, asking), Called(user, answering), Replied(request)];
    ThreeSteps(db, w, Called(user, asking), Called(user, answering), Replied(request));
    var first := RunStateless(db, w, user, asking, 0).db;
    FirstCallAsks(x, y, db, user, asking, c);
    SecondCallCompletes(x, y, first, user, answering);
    LateAnswer(x, y, RunStateless(first, w, user, answering, 0).db, request);
    TwoQueriesCharged(x, y);
  }

  lemma TwoQueriesCharged(x: NodeId, y: NodeId)
    requires x != y
    ensures
      var t := SetStatus([WaitingRow(x), AnsweredRow(y)], x, Status.Waiting, Status.Completed);
      FromCompleted(AskAndQuery(x, y), t).queries == 2
  {
    var w := AskAndQuery(x, y);
    var t := SetStatus([WaitingRow(x), AnsweredRow(y)], x, Status.Waiting, Status.Completed);
    UniqueAgree(w);
    assert w.nodes[0] in w.nodes && w.nodes[1] in w.nodes;
    assert t == [t[0]] + [t[1]] && [t[0]] == [] + [t[0]];
    FromCompletedLast(w, [], t[0]);
    FromCompletedLast(w, [t[0]], t[1]);
  }
}
