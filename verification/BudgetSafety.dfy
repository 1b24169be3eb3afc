/** What the ledger guarantees over whole calls of `run` and over whole histories. */
module BudgetSafety {
  import opened Wrappers
  import opened Contract
  import opened Scheduler
  import opened Ledger
  import opened Store
  import opened Runner
  import opened History

  /** Declared queries of every row listed, whatever became of it. */
  function StartedQueries(w: Workflow, rows: seq<Row>): nat {
    if rows == [] then 0
    else StartedQueries(w, rows[..|rows| - 1]) + DeclaredCost(w, rows[|rows| - 1].node)
  }

  lemma StartedLast(w: Workflow, rows: seq<Row>, r: Row)
    ensures StartedQueries(w, rows + [r]) == StartedQueries(w, rows) + DeclaredCost(w, r.node)
  {
  }

  lemma {:induction false} StartedJoin(w: Workflow, a: seq<Row>, b: seq<Row>)
    ensures StartedQueries(w, a + b) == StartedQueries(w, a) + StartedQueries(w, b)
  {
    if b == [] {
      assert a + b == a;
    } else {
      var last, init := b[|b| - 1], b[..|b| - 1];
      StartedJoin(w, a, init);
      StartedLast(w, a + init, last);
      assert (a + init) + [last] == a + b;
    }
  }

  lemma {:induction false} StartedByNode(w: Workflow, a: seq<Row>, b: seq<Row>)
    requires |a| == |b| && forall i | 0 <= i < |a| :: a[i].node == b[i].node
    ensures StartedQueries(w, a) == StartedQueries(w, b)
  {
    if a != [] {
      StartedByNode(w, a[..|a| - 1], b[..|b| - 1]);
    }
  }

  /** A node of a batch adds at most one row, its own. */
  lemma NodeAddsItself(w: Workflow, n: Node, runs: seq<Row>, t: seq<Row>, turn: Turn)
    ensures
      var t' := ExecuteNode(w, n, runs, t, turn).0;
      t' == t || (|t'| == |t| + 1 && t' == t + [t'[|t|]] && t'[|t|].node == n.id)
  {
  }

  /** `t'` is `t` with at most one more row, and that one of the node. */
  ghost predicate AtMostOneMore(n: Node, t: seq<Row>, t': seq<Row>) {
    t' == t || (|t'| == |t| + 1 && t' == t + [t'[|t|]] && t'[|t|].node == n.id)
  }

  lemma BatchAddsNext(w: Workflow, batch: seq<Node>, base: seq<Row>, turns: nat -> Turn, i: nat)
    requires 0 < i <= |batch|
    ensures AtMostOneMore(batch[i - 1], ExecuteBatch(w, batch, base, turns, i - 1).0,
                          ExecuteBatch(w, batch, base, turns, i).0)
  {
    NodeAddsItself(w, batch[i - 1], base, ExecuteBatch(w, batch, base, turns, i - 1).0, turns(i - 1));
  }

  /** The rows added to `base` declare no more queries than this. */
  ghost predicate StartsWithin(w: Workflow, base: seq<Row>, t: seq<Row>, queries: nat) {
    |base| <= |t| && StartedQueries(w, t[|base|..]) <= queries
  }

  /** Starting at most one more row of the node adds at most its declared queries. */
  lemma StartStep(w: Workflow, n: Node, base: seq<Row>, t: seq<Row>, t': seq<Row>, queries: nat)
    requires CostsAgree(w) && n in w.nodes && StartsWithin(w, base, t, queries) && AtMostOneMore(n, t, t')
    ensures StartsWithin(w, base, t', queries + n.budget.queryCost)
  {
    if t' != t {
      StartedLast(w, t[|base|..], t'[|t|]);
      assert t'[|base|..] == t[|base|..] + [t'[|t|]];
    }
  }

  lemma DeclaredStep(batch: seq<Node>, i: nat)
    requires 0 < i <= |batch|
    ensures Declared(batch[..i]) == Plus(Declared(batch[..i - 1]), batch[i - 1].budget)
  {
    DeclaredLast(batch[..i - 1], batch[i - 1]);
    assert batch[..i] == batch[..i - 1] + [batch[i - 1]];
  }

  lemma NothingStarted(w: Workflow, base: seq<Row>)
    ensures StartsWithin(w, base, base, 0)
  {
    assert base[|base|..] == [];
  }

  lemma {:induction false} BatchStartsItsNodes(w: Workflow, batch: seq<Node>, base: seq<Row>, turns: nat -> Turn,
                                               i: nat)
    requires i <= |batch| && CostsAgree(w) && forall n :: n in batch ==> n in w.nodes
    ensures StartsWithin(w, base, ExecuteBatch(w, batch, base, turns, i).0, Declared(batch[..i]).queries)
  {
    if i == 0 {
      NothingStarted(w, base);
    } else {
      BatchStartsItsNodes(w, batch, base, turns, i - 1);
      BatchAddsNext(w, batch, base, turns, i);
      StartStep(w, batch[i - 1], base, ExecuteBatch(w, batch, base, turns, i - 1).0,
                ExecuteBatch(w, batch, base, turns, i).0, Declared(batch[..i - 1]).queries);
      DeclaredStep(batch, i);
    }
  }

  lemma SettledStarts(db: Db, w: Workflow, user: nat, consumed: Totals, reports: seq<Report>, from: nat)
    requires from <= |Rows(db, w.id)|
    ensures
      var t, b := Rows(db, w.id), Rows(Settle(db, w, user, consumed, reports).db, w.id);
      |b| == |t| && StartedQueries(w, b[from..]) == StartedQueries(w, t[from..])
  {
    SettledRows(db, w, user, consumed, reports);
    var t, b := Rows(db, w.id), Rows(Settle(db, w, user, consumed, reports).db, w.id);
    StartedByNode(w, t[from..], b[from..]);
  }

  /** The rows an iteration leaves start with the old ones and add rows of its batch. */
  lemma IterationStarts(db: Db, w: Workflow, user: nat, turns: nat -> Turn)
    requires CostsAgree(w)
    ensures
      var consumed := FromCompleted(w, Rows(db, w.id));
      var a, b := Rows(db, w.id), Rows(Iterate(db, w, user, consumed, turns).db, w.id);
      && |a| <= |b|
      && (b[|a|..] == [] || consumed.queries + StartedQueries(w, b[|a|..]) <= w.budgets.maxQueryCount)
  {
    var a := Rows(db, w.id);
    var consumed := FromCompleted(w, a);
    var batch := SelectBatch(w, consumed, a);
    if RunnableNodes(w, a) != [] && batch != [] {
      var (t, reports) := ExecuteBatch(w, batch, a, turns, |batch|);
      FirstOfBatchRunnable(w, consumed, a);
      BatchStartsItsNodes(w, batch, a, turns, |batch|);
      assert batch[..|batch|] == batch;
      AdmittedFits(consumed, w.budgets, Candidates(w, a));
      SettledStarts(WithRows(db, w.id, t), w, user, consumed, reports, |a|);
    }
  }

  lemma {:induction false} ChargedIsStarted(w: Workflow, a: seq<Row>, more: seq<Row>)
    requires forall r :: r in more ==> r.status.Completed?
    ensures FromCompleted(w, a + more).queries == FromCompleted(w, a).queries + StartedQueries(w, more)
  {
    if more == [] {
      assert a + more == a;
    } else {
      var last, init := more[|more| - 1], more[..|more| - 1];
      assert more == init + [last];
      ChargedIsStarted(w, a, init);
      FromCompletedLast(w, a + init, last);
      assert (a + init) + [last] == a + more;
    }
  }

  lemma NextChargesAll(db: Db, w: Workflow, user: nat, consumed: Totals, turns: nat -> Turn)
    requires Iterate(db, w, user, consumed, turns).Next?
    ensures
      var a, b := Rows(db, w.id), Rows(Iterate(db, w, user, consumed, turns).db, w.id);
      && a <= b
      && FromCompleted(w, b).queries == FromCompleted(w, a).queries + StartedQueries(w, b[|a|..])
  {
    var a, batch := Rows(db, w.id), SelectBatch(w, consumed, Rows(db, w.id));
    var reports := ExecuteBatch(w, batch, a, turns, |batch|).1;
    NextIteration(db, w, user, consumed, turns);
    CompletedRowsAt(batch, reports);
    forall k | 0 <= k < |reports| ensures CompletedRows(reports)[k].status.Completed? {
      assert DoneBy(batch[k], reports[k]);
    }
    ChargedIsStarted(w, a, CompletedRows(reports));
    assert (a + CompletedRows(reports))[|a|..] == CompletedRows(reports);
  }

  /**
   * In one call the queries of nodes completed before it and of every node it starts,
   * failed, cancelled and waiting ones included, never exceed max_query_count: true of
   * any workflow, verified or not, in which nodes that share an id declare the same queries.
   */
  lemma {:induction false} CallStaysWithinQueries(db: Db, w: Workflow, user: nat, turns: nat -> nat -> Turn, k: nat)
    requires CostsAgree(w)
    ensures
      var a, b := Rows(db, w.id), Rows(RunStateless(db, w, user, turns, k).db, w.id);
      && |a| <= |b|
      && (|b| > |a| ==>
            FromCompleted(w, a).queries + StartedQueries(w, b[|a|..]) <= w.budgets.maxQueryCount)
    decreases Pending(w.nodes, Rows(db, w.id))
  {
    var a := Rows(db, w.id);
    var consumed := FromCompleted(w, a);
    var step := Iterate(db, w, user, consumed, turns(k));
    IterationStarts(db, w, user, turns(k));
    if step.Next? {
      IterationProgresses(db, w, user, consumed, turns(k));
      CallStaysWithinQueries(step.db, w, user, turns, k + 1);
      NextChargesAll(db, w, user, consumed, turns(k));
      RunKeepsNodes(step.db, w, user, turns, k + 1);
      StartedInTwo(w, a, Rows(step.db, w.id), Rows(RunStateless(db, w, user, turns, k).db, w.id));
    }
  }

  /** Declared queries of every node that one call picks for a batch, counted node by node. */
  function Spent(db: Db, w: Workflow, user: nat, consumed: Totals, turns: nat -> nat -> Turn, k: nat): nat
    decreases Pending(w.nodes, Rows(db, w.id))
  {
    var batch := SelectBatch(w, consumed, Rows(db, w.id));
    if RunnableNodes(w, Rows(db, w.id)) == [] || batch == [] then 0
    else
      match Iterate(db, w, user, consumed, turns(k))
      case Stop(_, _) => Declared(batch).queries
      case Next(after, total) =>
        IterationProgresses(db, w, user, consumed, turns(k));
        Declared(batch).queries + Spent(after, w, user, total, turns, k + 1)
  }

  lemma {:induction false} ReportsCharge(batch: seq<Node>, consumed: Totals, reports: seq<Report>)
    requires DoneInOrder(batch, reports)
    ensures AddReports(consumed, reports).queries == consumed.queries + Declared(batch[..|reports|]).queries
  {
    if reports != [] {
      var init, last := reports[..|reports| - 1], reports[|reports| - 1];
      assert reports == init + [last] && DoneBy(batch[|init|], last);
      ReportsCharge(batch, consumed, init);
      ReportsLast(consumed, init, last);
      DeclaredStep(batch, |reports|);
    }
  }

  lemma NextSpends(db: Db, w: Workflow, user: nat, consumed: Totals, turns: nat -> Turn)
    requires Iterate(db, w, user, consumed, turns).Next?
    ensures Iterate(db, w, user, consumed, turns).consumed.queries ==
            consumed.queries + Declared(SelectBatch(w, consumed, Rows(db, w.id))).queries
  {
    var batch := SelectBatch(w, consumed, Rows(db, w.id));
    var reports := ExecuteBatch(w, batch, Rows(db, w.id), turns, |batch|).1;
    NextIteration(db, w, user, consumed, turns);
    ReportsCharge(batch, consumed, reports);
    assert batch[..|reports|] == batch;
  }

  /**
   * What one call spends on top of what its ledger began with stays within max_query_count,
   * for any workflow at all and any ledger, however ids repeat.
   */
  lemma {:induction false} CallSpendsWithin(db: Db, w: Workflow, user: nat, consumed: Totals,
                                            turns: nat -> nat -> Turn, k: nat)
    ensures
      var spent := Spent(db, w, user, consumed, turns, k);
      spent > 0 ==> consumed.queries + spent <= w.budgets.maxQueryCount
    decreases Pending(w.nodes, Rows(db, w.id))
  {
    var batch := SelectBatch(w, consumed, Rows(db, w.id));
    if RunnableNodes(w, Rows(db, w.id)) != [] && batch != [] {
      AdmittedFits(consumed, w.budgets, Candidates(w, Rows(db, w.id)));
      var step := Iterate(db, w, user, consumed, turns(k));
      if step.Next? {
        IterationProgresses(db, w, user, consumed, turns(k));
        NextSpends(db, w, user, consumed, turns(k));
        CallSpendsWithin(step.db, w, user, step.consumed, turns, k + 1);
      }
    }
  }

  /** What was started since `a` is what was started up to `m` and what was started after. */
  lemma StartedInTwo(w: Workflow, a: seq<Row>, m: seq<Row>, b: seq<Row>)
    requires |a| <= |m| && SameNodes(m, b)
    ensures StartedQueries(w, b[|a|..]) == StartedQueries(w, m[|a|..]) + StartedQueries(w, b[|m|..])
    ensures |b| == |m| ==> StartedQueries(w, b[|m|..]) == 0
    ensures |m| == |a| ==> m[|a|..] == []
  {
    StartedByNode(w, m[|a|..], b[|a|..|m|]);
    StartedJoin(w, b[|a|..|m|], b[|m|..]);
    assert b[|a|..] == b[|a|..|m|] + b[|m|..];
  }

  /** Nodes stay where they are, whatever happens to their rows. */
  ghost predicate SameNodes(a: seq<Row>, b: seq<Row>) {
    |a| <= |b| && forall i | 0 <= i < |a| :: a[i].node == b[i].node
  }

  lemma SettledNodes(db: Db, w: Workflow, user: nat, consumed: Totals, reports: seq<Report>, a: seq<Row>)
    requires a <= Rows(db, w.id)
    ensures SameNodes(a, Rows(Settle(db, w, user, consumed, reports).db, w.id))
  {
    SettledRows(db, w, user, consumed, reports);
  }

  lemma IterationKeepsNodes(db: Db, w: Workflow, user: nat, consumed: Totals, turns: nat -> Turn)
    ensures SameNodes(Rows(db, w.id), Rows(Iterate(db, w, user, consumed, turns).db, w.id))
  {
    var a, batch := Rows(db, w.id), SelectBatch(w, consumed, Rows(db, w.id));
    if RunnableNodes(w, a) != [] && batch != [] {
      var (t, reports) := ExecuteBatch(w, batch, a, turns, |batch|);
      BatchExtends(w, batch, a, turns, |batch|);
      SettledNodes(WithRows(db, w.id, t), w, user, consumed, reports, a);
    }
  }

  lemma {:induction false} RunKeepsNodes(db: Db, w: Workflow, user: nat, turns: nat -> nat -> Turn, k: nat)
    ensures SameNodes(Rows(db, w.id), Rows(RunStateless(db, w, user, turns, k).db, w.id))
    decreases Pending(w.nodes, Rows(db, w.id))
  {
    var consumed := FromCompleted(w, Rows(db, w.id));
    var step := Iterate(db, w, user, consumed, turns(k));
    IterationKeepsNodes(db, w, user, consumed, turns(k));
    if step.Next? {
      IterationProgresses(db, w, user, consumed, turns(k));
      RunKeepsNodes(step.db, w, user, turns, k + 1);
    }
  }

  // -------------------------------------------------------------------- starvation

  ghost predicate FitsCaps(w: Workflow) {
    UniqueIds(w.nodes) && Leq(Declared(w.nodes), Caps(w.budgets))
  }

  ghost predicate AllWithin(w: Workflow, t: seq<Row>) {
    forall r :: r in t ==> WithinDeclared(w, r)
  }

  lemma WellKeptCompletedLast(t: seq<Row>)
    requires WellKept(t)
    ensures CompletedNotAfter(t)
  {
  }

  /**
   * In every reachable state of a workflow whose declared totals fit its caps, as long as
   * executors kept within their declarations, the next batch is the whole candidate list:
   * min(max(1, max_parallel_queries), runnable count) nodes.
   */
  lemma ReachableNeverStarved(defs: Definitions, db: Db, events: seq<Event>, wid: WorkflowId)
    requires Coherent(defs) && Initial(db) && wid in defs && FitsCaps(defs[wid])
    requires AllWithin(defs[wid], Rows(After(defs, db, events), wid))
    ensures
      var w, t := defs[wid], Rows(After(defs, db, events), wid);
      var batch, ready := SelectBatch(w, FromCompleted(w, t), t), RunnableNodes(w, t);
      && batch <= ready
      && |batch| == if |ready| <= MaxParallel(w.budgets) then |ready| else MaxParallel(w.budgets)
  {
    HistoryKeepsInvariant(defs, db, events);
    var w, t := defs[wid], Rows(After(defs, db, events), wid);
    WellKeptCompletedLast(t);
    NeverStarved(w, t);
  }

  /** The node failed or was cancelled in a row added after the first `from` rows. */
  ghost predicate FailedSince(t: seq<Row>, from: nat) {
    exists i :: from <= i < |t| && t[i].status.Failed?
  }

  lemma FailedNodeLeavesRow(w: Workflow, n: Node, runs: seq<Row>, t: seq<Row>, turn: Turn)
    requires
      var report := ExecuteNode(w, n, runs, t, turn).1;
      report.NodeFailed? || report.NodeCancelled?
    ensures
      var t' := ExecuteNode(w, n, runs, t, turn).0;
      |t'| == |t| + 1 && t'[|t|].status.Failed?
  {
  }

  lemma AnyFailedSplit(init: seq<Report>, last: Report)
    ensures AnyFailed(init + [last]) <==> AnyFailed(init) || last.NodeFailed? || last.NodeCancelled?
  {
    assert forall r :: r in init + [last] <==> r in init || r == last;
  }

  lemma FailedSinceStays(t: seq<Row>, t': seq<Row>, from: nat)
    requires t <= t' && FailedSince(t, from)
    ensures FailedSince(t', from)
  {
    var j :| from <= j < |t| && t[j].status.Failed?;
    assert t'[j] == t[j];
  }

  lemma {:induction false} FailureLeavesRow(w: Workflow, batch: seq<Node>, base: seq<Row>, turns: nat -> Turn, i: nat)
    requires i <= |batch| && AnyFailed(ExecuteBatch(w, batch, base, turns, i).1)
    ensures FailedSince(ExecuteBatch(w, batch, base, turns, i).0, |base|)
  {
    var (t, reports) := ExecuteBatch(w, batch, base, turns, i - 1);
    var (t', report) := ExecuteNode(w, batch[i - 1], base, t, turns(i - 1));
    BatchExtends(w, batch, base, turns, i - 1);
    NodeAppends(w, batch[i - 1], base, t, turns(i - 1));
    AnyFailedSplit(reports, report);
    if AnyFailed(reports) {
      FailureLeavesRow(w, batch, base, turns, i - 1);
      FailedSinceStays(t, t', |base|);
    } else {
      FailedNodeLeavesRow(w, batch[i - 1], base, t, turns(i - 1));
    }
  }

  lemma IterationFailure(db: Db, w: Workflow, user: nat, turns: nat -> Turn)
    requires FitsCaps(w) && TableInv(w, Rows(db, w.id)) && AllWithin(w, Rows(db, w.id))
    requires
      var step := Iterate(db, w, user, FromCompleted(w, Rows(db, w.id)), turns);
      step.Stop? && step.outcome.Failed?
    ensures
      var b := Rows(Iterate(db, w, user, FromCompleted(w, Rows(db, w.id)), turns).db, w.id);
      FailedSince(b, |Rows(db, w.id)|) || (RunnableNodes(w, b) == [] && !ReachedComplete(w, b))
  {
    var a := Rows(db, w.id);
    var batch := SelectBatch(w, FromCompleted(w, a), a);
    WellKeptCompletedLast(a);
    NeverStarved(w, a);
    if RunnableNodes(w, a) != [] {
      FailureLeavesRow(w, batch, a, turns, |batch|);
    }
  }

  /**
   * Such a workflow never fails for want of budget: a call that ends in Failed either left
   * a failed row behind or stopped with nothing runnable and no terminal reached.
   */
  lemma {:induction false} FailureIsNeverStarvation(db: Db, w: Workflow, user: nat, turns: nat -> nat -> Turn, k: nat)
    requires FitsCaps(w) && TableInv(w, Rows(db, w.id))
    requires AllWithin(w, Rows(RunStateless(db, w, user, turns, k).db, w.id))
    requires RunStateless(db, w, user, turns, k).outcome.Failed?
    ensures
      var b := Rows(RunStateless(db, w, user, turns, k).db, w.id);
      FailedSince(b, |Rows(db, w.id)|) || (RunnableNodes(w, b) == [] && !ReachedComplete(w, b))
    decreases Pending(w.nodes, Rows(db, w.id))
  {
    var a := Rows(db, w.id);
    var consumed := FromCompleted(w, a);
    var step := Iterate(db, w, user, consumed, turns(k));
    RunEvolves(db, w, user, turns, k);
    WithinEarlier(w, a, Rows(RunStateless(db, w, user, turns, k).db, w.id));
    IterationKeeps(db, w, user, consumed, turns(k));
    if step.Next? {
      IterationProgresses(db, w, user, consumed, turns(k));
      FailureIsNeverStarvation(step.db, w, user, turns, k + 1);
      IterationKeepsNodes(db, w, user, consumed, turns(k));
    } else {
      IterationFailure(db, w, user, turns(k));
    }
  }

  lemma WithinEarlier(w: Workflow, a: seq<Row>, b: seq<Row>)
    requires Evolves(a, b) && AllWithin(w, b)
    ensures AllWithin(w, a)
  {
  }

  lemma {:induction false} RunEvolves(db: Db, w: Workflow, user: nat, turns: nat -> nat -> Turn, k: nat)
    requires TableInv(w, Rows(db, w.id))
    ensures
      var b := Rows(RunStateless(db, w, user, turns, k).db, w.id);
      TableInv(w, b) && Evolves(Rows(db, w.id), b)
    decreases Pending(w.nodes, Rows(db, w.id))
  {
    var consumed := FromCompleted(w, Rows(db, w.id));
    var step := Iterate(db, w, user, consumed, turns(k));
    IterationKeeps(db, w, user, consumed, turns(k));
    if step.Next? {
      IterationProgresses(db, w, user, consumed, turns(k));
      RunEvolves(step.db, w, user, turns, k + 1);
      EvolvesTransitive(Rows(db, w.id), Rows(step.db, w.id), Rows(RunStateless(db, w, user, turns, k).db, w.id));
    }
  }

  // ------------------------------------------------------------- actual usage of a job

  ghost predicate TimeoutsCannotWrap(w: Workflow) {
    Declared(w.nodes).ms + w.budgets.sharedTimeoutMs < U64_SPAN
  }

  /** Rows returned by completed runs, counted without the ledger; a negative count is none. */
  function UsedRows(t: seq<Row>): nat {
    if t == [] then 0
    else UsedRows(t[1..]) + if t[0].status.Completed? && t[0].rows > 0 then t[0].rows else 0
  }

  /** Milliseconds spent by completed runs, counted without the ledger. */
  function UsedMs(t: seq<Row>): nat {
    if t == [] then 0
    else UsedMs(t[1..]) + if t[0].status.Completed? && t[0].ms.Some? && t[0].ms.value > 0 then t[0].ms.value else 0
  }

  lemma {:induction false} UsedLast(t: seq<Row>, r: Row)
    ensures UsedRows(t + [r]) == UsedRows(t) + if r.status.Completed? && r.rows > 0 then r.rows else 0
    ensures UsedMs(t + [r]) == UsedMs(t) + if r.status.Completed? && r.ms.Some? && r.ms.value > 0 then r.ms.value else 0
  {
    if t == [] {
      assert t + [r] == [r] && [r][1..] == [];
    } else {
      assert (t + [r])[1..] == t[1..] + [r];
      UsedLast(t[1..], r);
    }
  }

  /** The ledger holds exactly the rows and the time that completed runs used. */
  lemma {:induction false} LedgerIsUsage(w: Workflow, t: seq<Row>)
    ensures FromCompleted(w, t).rows == UsedRows(t) && FromCompleted(w, t).ms == UsedMs(t)
  {
    if t != [] {
      LedgerIsUsage(w, t[..|t| - 1]);
      UsedLast(t[..|t| - 1], t[|t| - 1]);
      assert t[..|t| - 1] + [t[|t| - 1]] == t;
    }
  }

  ghost predicate UsageFits(w: Workflow, t: seq<Row>) {
    && FromCompleted(w, t).rows <= w.budgets.sharedRowCap
    && (TimeoutsCannotWrap(w) ==> FromCompleted(w, t).ms <= w.budgets.sharedTimeoutMs)
  }

  lemma UsedByNode(w: Workflow, n: Node, t: seq<Row>, r: Row)
    requires BudgetsAgree(w) && n in w.nodes && r.node == n.id && WithinDeclared(w, r)
    ensures FromCompleted(w, t + [r]).rows <= FromCompleted(w, t).rows + n.budget.rowCap
    ensures FromCompleted(w, t + [r]).ms <= FromCompleted(w, t).ms + n.budget.timeoutMs
  {
  }

  /** From `base` to `t` completed runs used no more than this. */
  ghost predicate UsesAtMost(w: Workflow, base: seq<Row>, t: seq<Row>, total: Totals) {
    && FromCompleted(w, t).rows <= FromCompleted(w, base).rows + total.rows
    && FromCompleted(w, t).ms <= FromCompleted(w, base).ms + total.ms
  }

  lemma WithinOneLess(w: Workflow, n: Node, t: seq<Row>, t': seq<Row>)
    requires AtMostOneMore(n, t, t') && AllWithin(w, t')
    ensures AllWithin(w, t)
  {
    assert forall r :: r in t ==> r in t';
  }

  /** At most one more row of the node uses no more than the node declares. */
  lemma UsageStep(w: Workflow, n: Node, base: seq<Row>, t: seq<Row>, t': seq<Row>, total: Totals)
    requires BudgetsAgree(w) && n in w.nodes && AtMostOneMore(n, t, t') && AllWithin(w, t')
    requires UsesAtMost(w, base, t, total)
    ensures UsesAtMost(w, base, t', Plus(total, n.budget))
  {
    if t' != t {
      assert t'[|t|] in t';
      UsedByNode(w, n, t, t'[|t|]);
    }
  }

  lemma UsageNext(w: Workflow, batch: seq<Node>, base: seq<Row>, i: nat, t: seq<Row>, t': seq<Row>)
    requires 0 < i <= |batch| && BudgetsAgree(w) && batch[i - 1] in w.nodes
    requires AtMostOneMore(batch[i - 1], t, t') && AllWithin(w, t')
    requires UsesAtMost(w, base, t, Declared(batch[..i - 1]))
    ensures UsesAtMost(w, base, t', Declared(batch[..i]))
  {
    DeclaredStep(batch, i);
    UsageStep(w, batch[i - 1], base, t, t', Declared(batch[..i - 1]));
  }

  /** A batch uses no more than its nodes declare. */
  lemma {:induction false} BatchUsage(w: Workflow, batch: seq<Node>, base: seq<Row>, turns: nat -> Turn, i: nat)
    requires i <= |batch| && BudgetsAgree(w) && forall n :: n in batch ==> n in w.nodes
    requires AllWithin(w, ExecuteBatch(w, batch, base, turns, i).0)
    ensures UsesAtMost(w, base, ExecuteBatch(w, batch, base, turns, i).0, Declared(batch[..i]))
  {
    if i > 0 {
      var t, t' := ExecuteBatch(w, batch, base, turns, i - 1).0, ExecuteBatch(w, batch, base, turns, i).0;
      BatchAddsNext(w, batch, base, turns, i);
      WithinOneLess(w, batch[i - 1], t, t');
      BatchUsage(w, batch, base, turns, i - 1);
      UsageNext(w, batch, base, i, t, t');
    }
  }

  lemma {:induction false} PauseKeepsLedger(w: Workflow, t: seq<Row>, node: NodeId)
    ensures FromCompleted(w, SetStatus(t, node, Status.Running, Status.Waiting)) == FromCompleted(w, t)
  {
    if t != [] {
      var init, b := t[..|t| - 1], SetStatus(t, node, Status.Running, Status.Waiting);
      PauseKeepsLedger(w, init, node);
      assert b[..|t| - 1] == SetStatus(init, node, Status.Running, Status.Waiting);
    }
  }

  lemma PauseKeepsWithin(w: Workflow, t: seq<Row>, node: NodeId)
    requires AllWithin(w, SetStatus(t, node, Status.Running, Status.Waiting))
    ensures AllWithin(w, t)
  {
    forall r | r in t ensures WithinDeclared(w, r) {
      var i :| 0 <= i < |t| && t[i] == r;
      assert SetStatus(t, node, Status.Running, Status.Waiting)[i]
             in SetStatus(t, node, Status.Running, Status.Waiting);
    }
  }

  lemma SettledUsage(db: Db, w: Workflow, user: nat, consumed: Totals, reports: seq<Report>)
    ensures
      var t, b := Rows(db, w.id), Rows(Settle(db, w, user, consumed, reports).db, w.id);
      FromCompleted(w, b) == FromCompleted(w, t) && (AllWithin(w, b) ==> AllWithin(w, t))
  {
    SettledRows(db, w, user, consumed, reports);
    var t, b := Rows(db, w.id), Rows(Settle(db, w, user, consumed, reports).db, w.id);
    if b != t {
      PauseKeepsLedger(w, t, FirstPaused(reports).value.node);
      if AllWithin(w, b) { PauseKeepsWithin(w, t, FirstPaused(reports).value.node); }
    }
  }

  lemma {:induction false} RunnableDeclaresLess(w: Workflow, nodes: seq<Node>, runs: seq<Row>)
    ensures Leq(Declared(RunnableAmong(w, nodes, runs)), Declared(nodes))
  {
    if nodes != [] {
      var rest := RunnableAmong(w, nodes[1..], runs);
      RunnableDeclaresLess(w, nodes[1..], runs);
      assert nodes == [nodes[0]] + nodes[1..];
      DeclaredJoin([nodes[0]], nodes[1..]);
      DeclaredJoin([nodes[0]], rest);
    }
  }

  lemma PrefixDeclaresLess(part: seq<Node>, all: seq<Node>)
    requires part <= all
    ensures Leq(Declared(part), Declared(all))
  {
    DeclaredJoin(part, all[|part|..]);
    assert all == part + all[|part|..];
  }

  lemma BatchDeclaresLess(w: Workflow, consumed: Totals, runs: seq<Row>)
    ensures Leq(Declared(SelectBatch(w, consumed, runs)), Declared(w.nodes))
  {
    PrefixDeclaresLess(SelectBatch(w, consumed, runs), RunnableNodes(w, runs));
    RunnableDeclaresLess(w, w.nodes, runs);
  }

  lemma AdmittedUsage(w: Workflow, runs: seq<Row>)
    requires BudgetsAgree(w) && UsageFits(w, runs) && SelectBatch(w, FromCompleted(w, runs), runs) != []
    ensures
      var total := Sum(FromCompleted(w, runs), Declared(SelectBatch(w, FromCompleted(w, runs), runs)));
      && total.rows <= w.budgets.sharedRowCap
      && (TimeoutsCannotWrap(w) ==> total.ms <= w.budgets.sharedTimeoutMs)
  {
    AdmittedFits(FromCompleted(w, runs), w.budgets, Candidates(w, runs));
    BatchDeclaresLess(w, FromCompleted(w, runs), runs);
  }

  lemma AdmittedBatchUsage(w: Workflow, a: seq<Row>, turns: nat -> Turn)
    requires BudgetsAgree(w) && UsageFits(w, a) && RunnableNodes(w, a) != []
    requires
      var batch := SelectBatch(w, FromCompleted(w, a), a);
      batch != [] && AllWithin(w, ExecuteBatch(w, batch, a, turns, |batch|).0)
    ensures
      var batch := SelectBatch(w, FromCompleted(w, a), a);
      UsageFits(w, ExecuteBatch(w, batch, a, turns, |batch|).0)
  {
    var batch := SelectBatch(w, FromCompleted(w, a), a);
    FirstOfBatchRunnable(w, FromCompleted(w, a), a);
    BatchUsage(w, batch, a, turns, |batch|);
    assert batch[..|batch|] == batch;
    AdmittedUsage(w, a);
  }

  lemma IterationUsage(db: Db, w: Workflow, user: nat, turns: nat -> Turn)
    requires BudgetsAgree(w) && UsageFits(w, Rows(db, w.id))
    requires AllWithin(w, Rows(Iterate(db, w, user, FromCompleted(w, Rows(db, w.id)), turns).db, w.id))
    ensures UsageFits(w, Rows(Iterate(db, w, user, FromCompleted(w, Rows(db, w.id)), turns).db, w.id))
  {
    var a := Rows(db, w.id);
    var consumed := FromCompleted(w, a);
    var batch := SelectBatch(w, consumed, a);
    if RunnableNodes(w, a) != [] && batch != [] {
      var (t, reports) := ExecuteBatch(w, batch, a, turns, |batch|);
      SettledUsage(WithRows(db, w.id, t), w, user, consumed, reports);
      AdmittedBatchUsage(w, a, turns);
    }
  }

  lemma {:induction false} CallUsage(db: Db, w: Workflow, user: nat, turns: nat -> nat -> Turn, k: nat)
    requires BudgetsAgree(w) && TableInv(w, Rows(db, w.id)) && UsageFits(w, Rows(db, w.id))
    requires AllWithin(w, Rows(RunStateless(db, w, user, turns, k).db, w.id))
    ensures UsageFits(w, Rows(RunStateless(db, w, user, turns, k).db, w.id))
    decreases Pending(w.nodes, Rows(db, w.id))
  {
    var consumed := FromCompleted(w, Rows(db, w.id));
    var step := Iterate(db, w, user, consumed, turns(k));
    IterationKeeps(db, w, user, consumed, turns(k));
    if step.Next? {
      IterationProgresses(db, w, user, consumed, turns(k));
      RunEvolves(step.db, w, user, turns, k + 1);
      WithinEarlier(w, Rows(step.db, w.id), Rows(RunStateless(db, w, user, turns, k).db, w.id));
      IterationUsage(db, w, user, turns(k));
      CallUsage(step.db, w, user, turns, k + 1);
    } else {
      IterationUsage(db, w, user, turns(k));
    }
  }

  lemma {:induction false} AnswerKeepsUsage(w: Workflow, t: seq<Row>, node: NodeId)
    requires forall i | 0 <= i < |t| && t[i].status.Waiting? :: Blank(t[i])
    ensures
      var b := SetStatus(t, node, Status.Waiting, Status.Completed);
      FromCompleted(w, b).rows == FromCompleted(w, t).rows && FromCompleted(w, b).ms == FromCompleted(w, t).ms
  {
    if t != [] {
      var init, b := t[..|t| - 1], SetStatus(t, node, Status.Waiting, Status.Completed);
      AnswerKeepsUsage(w, init, node);
      assert b[..|t| - 1] == SetStatus(init, node, Status.Waiting, Status.Completed);
    }
  }

  lemma WaitingIsBlank(w: Workflow, t: seq<Row>)
    requires TableInv(w, t)
    ensures forall i | 0 <= i < |t| && t[i].status.Waiting? :: Blank(t[i])
  {
  }

  /** The life of a job between installs: calls of `run` and answers, in any order. */
  datatype Step = Called(user: nat, turns: nat -> nat -> Turn) | Replied(request: ResumeRequest)

  function Live(db: Db, w: Workflow, step: Step): Db {
    match step
    case Called(user, turns) => RunStateless(db, w, user, turns, 0).db
    case Replied(request) => Resume(db, request).0
  }

  function Life(db: Db, w: Workflow, steps: seq<Step>): Db {
    if steps == [] then db else Live(Life(db, w, steps[..|steps| - 1]), w, steps[|steps| - 1])
  }

  lemma ReplyKeeps(w: Workflow, t: seq<Row>, b: seq<Row>, node: NodeId)
    requires TableInv(w, t) && (b == t || b == SetStatus(t, node, Status.Waiting, Status.Completed))
    ensures TableInv(w, b) && Evolves(t, b)
  {
    AnsweredTable(w, t, node);
  }

  lemma StepKeeps(db: Db, w: Workflow, step: Step)
    requires TableInv(w, Rows(db, w.id))
    ensures TableInv(w, Rows(Live(db, w, step), w.id)) && Evolves(Rows(db, w.id), Rows(Live(db, w, step), w.id))
  {
    match step
    case Called(user, turns) => RunEvolves(db, w, user, turns, 0);
    case Replied(request) =>
      ReplyRows(db, w.id, request);
      ReplyKeeps(w, Rows(db, w.id), Rows(Resume(db, request).0, w.id), request.node);
  }

  lemma ReplyUsage(w: Workflow, t: seq<Row>, b: seq<Row>, node: NodeId)
    requires TableInv(w, t) && UsageFits(w, t)
    requires b == t || b == SetStatus(t, node, Status.Waiting, Status.Completed)
    ensures UsageFits(w, b)
  {
    WaitingIsBlank(w, t);
    AnswerKeepsUsage(w, t, node);
  }

  lemma StepUsage(db: Db, w: Workflow, step: Step)
    requires BudgetsAgree(w) && TableInv(w, Rows(db, w.id)) && UsageFits(w, Rows(db, w.id))
    requires AllWithin(w, Rows(Live(db, w, step), w.id))
    ensures UsageFits(w, Rows(Live(db, w, step), w.id))
  {
    match step
    case Called(user, turns) => CallUsage(db, w, user, turns, 0);
    case Replied(request) =>
      ReplyRows(db, w.id, request);
      ReplyUsage(w, Rows(db, w.id), Rows(Resume(db, request).0, w.id), request.node);
  }

  /**
   * Over the whole life of a job, through failures, pauses, answers and restarts, the rows
   * and the time that completed nodes used stay within the shared caps, for any workflow
   * in which nodes that share an id declare the same budget, as long as no executor exceeds
   * what its node declares.
   */
  lemma JobStaysWithinCaps(db: Db, w: Workflow, steps: seq<Step>)
    requires BudgetsAgree(w) && Rows(db, w.id) == []
    requires AllWithin(w, Rows(Life(db, w, steps), w.id))
    ensures UsedRows(Rows(Life(db, w, steps), w.id)) <= w.budgets.sharedRowCap
    ensures TimeoutsCannotWrap(w) ==> UsedMs(Rows(Life(db, w, steps), w.id)) <= w.budgets.sharedTimeoutMs
  {
    LifeKeepsUsage(db, w, steps);
    LedgerIsUsage(w, Rows(Life(db, w, steps), w.id));
  }

  lemma {:induction false} LifeKeepsUsage(db: Db, w: Workflow, steps: seq<Step>)
    requires BudgetsAgree(w) && Rows(db, w.id) == []
    requires AllWithin(w, Rows(Life(db, w, steps), w.id))
    ensures UsageFits(w, Rows(Life(db, w, steps), w.id))
  {
    if steps != [] {
      var before, last := Life(db, w, steps[..|steps| - 1]), steps[|steps| - 1];
      LifeIsKept(db, w, steps[..|steps| - 1]);
      StepKeeps(before, w, last);
      WithinEarlier(w, Rows(before, w.id), Rows(Life(db, w, steps), w.id));
      LifeKeepsUsage(db, w, steps[..|steps| - 1]);
      StepUsage(before, w, last);
    }
  }

  lemma {:induction false} LifeIsKept(db: Db, w: Workflow, steps: seq<Step>)
    requires Rows(db, w.id) == []
    ensures TableInv(w, Rows(Life(db, w, steps), w.id))
  {
    if steps != [] {
      LifeIsKept(db, w, steps[..|steps| - 1]);
      StepKeeps(Life(db, w, steps[..|steps| - 1]), w, steps[|steps| - 1]);
    }
  }

  // ---------------------------------------------------------------- queries of a job

  /** Declared queries of the rows that have completed or wait for an answer. */
  function ChargedQueries(w: Workflow, t: seq<Row>): nat {
    if t == [] then 0
    else
      var last := t[|t| - 1];
      ChargedQueries(w, t[..|t| - 1])
      + if last.status.Completed? || last.status.Waiting? then DeclaredCost(w, last.node) else 0
  }

  ghost predicate NobodyWaits(t: seq<Row>) {
    forall r :: r in t ==> !r.status.Waiting?
  }

  lemma {:induction false} CompletedIsCharged(w: Workflow, t: seq<Row>)
    ensures FromCompleted(w, t).queries <= ChargedQueries(w, t)
    ensures NobodyWaits(t) ==> FromCompleted(w, t).queries == ChargedQueries(w, t)
  {
    if t != [] {
      var init, last := t[..|t| - 1], t[|t| - 1];
      assert t == init + [last];
      CompletedIsCharged(w, init);
      assert last in t;
    }
  }

  lemma {:induction false} ChargedWithStarted(w: Workflow, a: seq<Row>, more: seq<Row>)
    ensures ChargedQueries(w, a + more) <= ChargedQueries(w, a) + StartedQueries(w, more)
  {
    if more == [] {
      assert a + more == a;
    } else {
      var init := more[..|more| - 1];
      ChargedWithStarted(w, a, init);
      assert (a + more)[..|a + more| - 1] == a + init;
    }
  }

  lemma {:induction false} AnswerKeepsCharged(w: Workflow, t: seq<Row>, node: NodeId)
    ensures ChargedQueries(w, SetStatus(t, node, Status.Waiting, Status.Completed)) == ChargedQueries(w, t)
  {
    if t != [] {
      var init, b := t[..|t| - 1], SetStatus(t, node, Status.Waiting, Status.Completed);
      AnswerKeepsCharged(w, init, node);
      assert b[..|t| - 1] == SetStatus(init, node, Status.Waiting, Status.Completed);
    }
  }

  lemma SettledPrefix(a: seq<Row>, b: seq<Row>)
    requires Evolves(a, b) && NobodyWaits(a)
    ensures b == a + b[|a|..]
  {
    forall i | 0 <= i < |a| ensures b[i] == a[i] {
      assert RowEvolves(a[i], b[i]) && a[i] in a;
    }
  }

  /** A call that begins with nobody waiting charges, in all, no more than the cap. */
  lemma CallCharges(db: Db, w: Workflow, user: nat, turns: nat -> nat -> Turn)
    requires CostsAgree(w) && TableInv(w, Rows(db, w.id)) && NobodyWaits(Rows(db, w.id))
    requires ChargedQueries(w, Rows(db, w.id)) <= w.budgets.maxQueryCount
    ensures ChargedQueries(w, Rows(RunStateless(db, w, user, turns, 0).db, w.id)) <= w.budgets.maxQueryCount
  {
    var a, b := Rows(db, w.id), Rows(RunStateless(db, w, user, turns, 0).db, w.id);
    RunEvolves(db, w, user, turns, 0);
    SettledPrefix(a, b);
    CompletedIsCharged(w, a);
    CallStaysWithinQueries(db, w, user, turns, 0);
    ChargedWithStarted(w, a, b[|a|..]);
    if |b| == |a| { assert b[|a|..] == []; }
  }

  lemma ReplyCharges(w: Workflow, t: seq<Row>, b: seq<Row>, node: NodeId)
    requires b == t || b == SetStatus(t, node, Status.Waiting, Status.Completed)
    ensures ChargedQueries(w, b) == ChargedQueries(w, t)
  {
    AnswerKeepsCharged(w, t, node);
  }

  /** No call of `run` begins while a node of the workflow waits for an answer. */
  ghost predicate CallsAfterAnswers(db: Db, w: Workflow, steps: seq<Step>) {
    forall i | 0 <= i < |steps| && steps[i].Called? :: NobodyWaits(Rows(Life(db, w, steps[..i]), w.id))
  }

  lemma StepCharges(before: Db, w: Workflow, step: Step)
    requires CostsAgree(w) && TableInv(w, Rows(before, w.id))
    requires step.Called? ==> NobodyWaits(Rows(before, w.id))
    requires ChargedQueries(w, Rows(before, w.id)) <= w.budgets.maxQueryCount
    ensures ChargedQueries(w, Rows(Live(before, w, step), w.id)) <= w.budgets.maxQueryCount
  {
    match step
    case Called(user, turns) => CallCharges(before, w, user, turns);
    case Replied(request) =>
      ReplyRows(before, w.id, request);
      ReplyCharges(w, Rows(before, w.id), Rows(Resume(before, request).0, w.id), request.node);
  }

  lemma CallsBefore(db: Db, w: Workflow, steps: seq<Step>, n: nat)
    requires n <= |steps| && CallsAfterAnswers(db, w, steps)
    ensures CallsAfterAnswers(db, w, steps[..n])
  {
    assert forall i | 0 <= i < n :: steps[..n][i] == steps[i] && steps[..n][..i] == steps[..i];
  }

  lemma {:induction false} LifeCharges(db: Db, w: Workflow, steps: seq<Step>)
    requires CostsAgree(w) && Rows(db, w.id) == [] && CallsAfterAnswers(db, w, steps)
    ensures ChargedQueries(w, Rows(Life(db, w, steps), w.id)) <= w.budgets.maxQueryCount
  {
    if steps != [] {
      var n := |steps| - 1;
      CallsBefore(db, w, steps, n);
      LifeCharges(db, w, steps[..n]);
      LifeIsKept(db, w, steps[..n]);
      StepCharges(Life(db, w, steps[..n]), w, steps[n]);
    }
  }

  /**
   * Over the whole life of a job the declared queries of all completed nodes stay within
   * max_query_count, for any workflow in which nodes that share an id declare the same
   * queries, if no call begins while a node waits.
   */
  lemma JobStaysWithinQueries(db: Db, w: Workflow, steps: seq<Step>)
    requires CostsAgree(w) && Rows(db, w.id) == [] && CallsAfterAnswers(db, w, steps)
    ensures FromCompleted(w, Rows(Life(db, w, steps), w.id)).queries <= w.budgets.maxQueryCount
  {
    LifeCharges(db, w, steps);
    CompletedIsCharged(w, Rows(Life(db, w, steps), w.id));
  }

  lemma {:induction false} CompletedQueries(w: Workflow, runs: seq<Row>)
    ensures FromCompleted(w, runs).queries == Declared(CompletedNodes(w, runs)).queries
  {
    if runs != [] {
      var last, init := runs[|runs| - 1], runs[..|runs| - 1];
      CompletedQueries(w, init);
      if last.status.Completed? && FindNode(w.nodes, last.node).Some? {
        DeclaredLast(CompletedNodes(w, init), FindNode(w.nodes, last.node).value);
      }
    }
  }

  /**
   * A workflow whose declared queries fit the cap, as acceptance requires when no sum wraps,
   * needs no such care: whenever calls begin, completed nodes stay within the cap.
   */
  lemma DeclaredFitStaysWithinQueries(db: Db, w: Workflow, steps: seq<Step>)
    requires Rows(db, w.id) == [] && Declared(w.nodes).queries <= w.budgets.maxQueryCount
    ensures FromCompleted(w, Rows(Life(db, w, steps), w.id)).queries <= w.budgets.maxQueryCount
  {
    var t := Rows(Life(db, w, steps), w.id);
    LifeIsKept(db, w, steps);
    WellKeptCompletedLast(t);
    CompletedNodesDistinct(w, t);
    CompletedQueries(w, t);
    PartDeclaresLess(CompletedNodes(w, t), w.nodes);
  }
}
