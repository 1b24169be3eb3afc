/**
 * How a run ends (run.rs `run`): for any workflow and any answers, as long as nothing crashes
 * beneath it, the last batch decides between five endings, and what each needs is exact.
 */
module Endings {
  import opened Wrappers
  import opened Json
  import opened Contract
  import opened Scheduler
  import opened Ledger
  import opened Store
  import opened Runner
  import opened History
  import opened Branching
  import opened BudgetSafety

  predicate NothingOpen(t: seq<Row>) {
    forall r :: r in t ==> !IsOpen(r)
  }

  /** Nothing runs and nothing waits: every row has completed or failed. */
  ghost predicate Settled(w: Workflow, t: seq<Row>) {
    TableInv(w, t) && NothingOpen(t)
  }

  /** The job is the caller's and runs this workflow. */
  predicate Owned(db: Db, w: Workflow, user: nat) {
    db.job.user == user && db.job.workflow == Some(w.id)
  }

  predicate Asks(w: Workflow, id: NodeId) {
    exists n :: n in w.nodes && n.id == id && n.kind.ClarificationInterrupt?
  }

  // ---------------------------------------------------------------- what decides over a node

  /** A single composition has one source, any other some. */
  predicate Composes(n: Node) {
    match n.kind
    case ComposeResult(sources, mode) => if mode.Single? then |sources| == 1 else sources != []
    case _ => true
  }

  /** All values the node is to be given are there. */
  predicate HasBindings(n: Node, t: seq<Row>) {
    BindingsFor(n.inputs, t, Null).Some?
  }

  /** What a composition merges and what a branch decides by is there. */
  predicate Resolvable(w: Workflow, n: Node, t: seq<Row>) {
    match n.kind
    case ComposeResult(sources, _) => SourcesAvailable(w, sources, t) && Composes(n)
    case CardinalityBranch(source, _, _, _) => CardinalityFor(t, source).Some?
    case _ => true
  }

  lemma ScopeIsIrrelevant(n: Node, t: seq<Row>, scope: Json)
    ensures BindingsFor(n.inputs, t, scope).Some? <==> HasBindings(n, t)
  {
    BindingsExistIff(n.inputs, t, scope);
    BindingsExistIff(n.inputs, t, Null);
    assert forall source: BindingSource :: BindingValue(source, t, scope).Some? <==>
        BindingValue(source, t, Null).Some?;
  }

  /** A node that may be refused: the executor's guard answers for it. */
  predicate Guarded(n: Node) {
    n.kind.ResolveEntity? || n.kind.ExecuteQuery?
  }

  /**
   * Nothing crashes: the policy check passes and writes succeed, a question asks, a guarded
   * node produces or is refused, and a composition fails only by its mode.
   */
  predicate Obeys(n: Node, turn: Turn) {
    && turn.authorized && !turn.lost
    && (match n.kind
        case ClarificationInterrupt(_, _, _) => turn.reply.Asked?
        case ComposeResult(_, _) => turn.reply.Produced? <==> Composes(n)
        case CardinalityBranch(_, _, _, _) => !turn.reply.Crash?
        case Complete(_) => !turn.reply.Crash?
        case _ => turn.reply.Produced? || turn.reply.Refused?)
  }

  /** Left running without what it needs, failed, left asking, or completed. */
  datatype Fate = LeftBlind | CutShort | HasAsked | WasDone

  function FateOf(w: Workflow, n: Node, base: seq<Row>, turn: Turn): Fate {
    if !HasBindings(n, base) then LeftBlind
    else if turn.cancelled then CutShort
    else if !Resolvable(w, n, base) then LeftBlind
    else if n.kind.ClarificationInterrupt? then HasAsked
    else if Guarded(n) && turn.reply.Refused? then CutShort
    else WasDone
  }

  /** A node that met its fate, as the run sees it. */
  ghost predicate Met(w: Workflow, n: Node, base: seq<Row>, turn: Turn, report: Report, r: Row) {
    && r.node == n.id
    && (match FateOf(w, n, base, turn)
        case LeftBlind => report.Errored? && r.status.Running?
        case CutShort => (report.NodeFailed? || report.NodeCancelled?) && r.status.Failed?
        case HasAsked => report.Paused? && report.node == n.id && r.status.Running?
        case WasDone => report == Done(r, n.budget.queryCost) && r.status.Completed?)
  }

  /** All rows of the node are in `base`. */
  predicate NoneSince(base: seq<Row>, t: seq<Row>, id: NodeId) {
    forall r :: r in t && r.node == id ==> r in base
  }

  lemma AttemptIsFree(base: seq<Row>, t: seq<Row>, id: NodeId)
    requires NoneSince(base, t, id)
    ensures !AttemptTaken(t, id, NextAttempt(base, id))
  {
  }

  lemma NodeMeets(w: Workflow, n: Node, base: seq<Row>, t: seq<Row>, turn: Turn) returns (r: Row, report: Report)
    requires Obeys(n, turn) && NoneSince(base, t, n.id)
    ensures ExecuteNode(w, n, base, t, turn) == (t + [r], report) && Met(w, n, base, turn, report, r)
  {
    AttemptIsFree(base, t, n.id);
    ScopeIsIrrelevant(n, base, turn.scope);
    var (t', outcome) := ExecuteNode(w, n, base, t, turn);
    r, report := t'[|t|], outcome;
  }

  // ------------------------------------------------------------------------- one batch

  /** `t` is `base` and then one row per node of the batch so far. */
  ghost predicate AllMet(w: Workflow, batch: seq<Node>, base: seq<Row>, turns: nat -> Turn, t: seq<Row>,
                         reports: seq<Report>) {
    && base <= t && |t| == |base| + |reports| && |reports| <= |batch|
    && (forall k: nat :: k < |reports| ==> Met(w, batch[k], base, turns(k), reports[k], t[|base| + k]))
  }

  /** Different nodes that may run, and turns in which nothing crashes. */
  ghost predicate GoodBatch(w: Workflow, batch: seq<Node>, base: seq<Row>, turns: nat -> Turn) {
    && UniqueIds(batch)
    && (forall k: nat :: k < |batch| ==>
          batch[k] in w.nodes && IsRunnable(w, batch[k].id, base) && Obeys(batch[k], turns(k)))
  }

  lemma NextIsFree(w: Workflow, batch: seq<Node>, base: seq<Row>, turns: nat -> Turn, t: seq<Row>, reports: seq<Report>)
    requires GoodBatch(w, batch, base, turns) && AllMet(w, batch, base, turns, t, reports) && |reports| < |batch|
    ensures NoneSince(base, t, batch[|reports|].id)
  {
    var id := batch[|reports|].id;
    forall i | |base| <= i < |t| ensures t[i].node != id {
      assert Met(w, batch[i - |base|], base, turns(i - |base|), reports[i - |base|], t[|base| + (i - |base|)]);
    }
    forall r | r in t && r.node == id ensures r in base {
      var i :| 0 <= i < |t| && t[i] == r;
      assert r == base[i];
    }
  }

  lemma OneMoreMet(w: Workflow, batch: seq<Node>, base: seq<Row>, turns: nat -> Turn, t: seq<Row>, reports: seq<Report>,
                   r: Row, report: Report)
    requires AllMet(w, batch, base, turns, t, reports) && |reports| < |batch|
    requires Met(w, batch[|reports|], base, turns(|reports|), report, r)
    ensures AllMet(w, batch, base, turns, t + [r], reports + [report])
  {
    forall k: nat | k < |reports| + 1
      ensures Met(w, batch[k], base, turns(k), (reports + [report])[k], (t + [r])[|base| + k])
    {
      if k < |reports| {
        assert (t + [r])[|base| + k] == t[|base| + k] && (reports + [report])[k] == reports[k];
      }
    }
  }

  lemma NextMet(w: Workflow, batch: seq<Node>, base: seq<Row>, turns: nat -> Turn, t: seq<Row>, reports: seq<Report>)
      returns (r: Row, report: Report)
    requires GoodBatch(w, batch, base, turns) && AllMet(w, batch, base, turns, t, reports) && |reports| < |batch|
    ensures ExecuteNode(w, batch[|reports|], base, t, turns(|reports|)) == (t + [r], report)
    ensures AllMet(w, batch, base, turns, t + [r], reports + [report])
  {
    NextIsFree(w, batch, base, turns, t, reports);
    r, report := NodeMeets(w, batch[|reports|], base, t, turns(|reports|));
    OneMoreMet(w, batch, base, turns, t, reports, r, report);
  }

  lemma MetStep(w: Workflow, batch: seq<Node>, base: seq<Row>, turns: nat -> Turn, i: nat, t: seq<Row>,
                reports: seq<Report>)
    requires 0 < i <= |batch| && GoodBatch(w, batch, base, turns)
    requires ExecuteBatch(w, batch, base, turns, i - 1) == (t, reports)
    requires |reports| == i - 1 && AllMet(w, batch, base, turns, t, reports)
    ensures AllMet(w, batch, base, turns, ExecuteBatch(w, batch, base, turns, i).0,
                   ExecuteBatch(w, batch, base, turns, i).1)
  {
    var r, report := NextMet(w, batch, base, turns, t, reports);
    BatchStep(w, batch, base, turns, i, t, reports, t + [r], report);
  }

  lemma NothingMet(w: Workflow, batch: seq<Node>, base: seq<Row>, turns: nat -> Turn)
    ensures AllMet(w, batch, base, turns, ExecuteBatch(w, batch, base, turns, 0).0,
                   ExecuteBatch(w, batch, base, turns, 0).1)
  {
  }

  lemma {:induction false} BatchMet(w: Workflow, batch: seq<Node>, base: seq<Row>, turns: nat -> Turn, i: nat)
    requires i <= |batch| && GoodBatch(w, batch, base, turns)
    ensures AllMet(w, batch, base, turns, ExecuteBatch(w, batch, base, turns, i).0,
                   ExecuteBatch(w, batch, base, turns, i).1)
  {
    if i == 0 {
      NothingMet(w, batch, base, turns);
    } else {
      BatchMet(w, batch, base, turns, i - 1);
      var (t, reports) := ExecuteBatch(w, batch, base, turns, i - 1);
      MetStep(w, batch, base, turns, i, t, reports);
    }
  }

  // -------------------------------------------------------------------- what a batch leaves

  /** The row a node is left with; the recorded question waits, any other runs on. */
  ghost predicate RowLeft(w: Workflow, n: Node, base: seq<Row>, turn: Turn, r: Row) {
    && r.node == n.id
    && (match FateOf(w, n, base, turn)
        case LeftBlind => r.status.Running?
        case CutShort => r.status.Failed?
        case HasAsked => IsOpen(r)
        case WasDone => r.status.Completed?)
  }

  /** `t` is `base` and then the row each node of the batch is left with. */
  ghost predicate RowsLeft(w: Workflow, batch: seq<Node>, base: seq<Row>, turns: nat -> Turn, t: seq<Row>) {
    && base <= t && |t| == |base| + |batch|
    && (forall k: nat :: k < |batch| ==> RowLeft(w, batch[k], base, turns(k), t[|base| + k]))
  }

  ghost predicate BatchLeft(w: Workflow, batch: seq<Node>, base: seq<Row>, turns: nat -> Turn, t: seq<Row>) {
    TableInv(w, t) && RowsLeft(w, batch, base, turns, t)
  }

  ghost predicate SomeFate(w: Workflow, batch: seq<Node>, base: seq<Row>, turns: nat -> Turn, fate: Fate) {
    exists k: nat :: k < |batch| && FateOf(w, batch[k], base, turns(k)) == fate
  }

  lemma FateSeen(w: Workflow, batch: seq<Node>, base: seq<Row>, turns: nat -> Turn, t: seq<Row>, reports: seq<Report>,
                 k: nat)
    requires AllMet(w, batch, base, turns, t, reports) && |reports| == |batch| && k < |batch|
    ensures reports[k] in reports && Met(w, batch[k], base, turns(k), reports[k], t[|base| + k])
  {
  }

  lemma ReportsTellBlind(w: Workflow, batch: seq<Node>, base: seq<Row>, turns: nat -> Turn, t: seq<Row>,
                         reports: seq<Report>)
    requires AllMet(w, batch, base, turns, t, reports) && |reports| == |batch|
    ensures AnyErrored(reports) <==> SomeFate(w, batch, base, turns, LeftBlind)
  {
    if r :| r in reports && r.Errored? {
      var k: nat :| k < |reports| && reports[k] == r;
      FateSeen(w, batch, base, turns, t, reports, k);
    }
    if k: nat :| k < |batch| && FateOf(w, batch[k], base, turns(k)) == LeftBlind {
      FateSeen(w, batch, base, turns, t, reports, k);
    }
  }

  lemma ReportsTellShort(w: Workflow, batch: seq<Node>, base: seq<Row>, turns: nat -> Turn, t: seq<Row>,
                         reports: seq<Report>)
    requires AllMet(w, batch, base, turns, t, reports) && |reports| == |batch|
    ensures AnyFailed(reports) <==> SomeFate(w, batch, base, turns, CutShort)
  {
    if r :| r in reports && (r.NodeFailed? || r.NodeCancelled?) {
      var k: nat :| k < |reports| && reports[k] == r;
      FateSeen(w, batch, base, turns, t, reports, k);
    }
    if k: nat :| k < |batch| && FateOf(w, batch[k], base, turns(k)) == CutShort {
      FateSeen(w, batch, base, turns, t, reports, k);
    }
  }

  /** The first report of a pause is that of a node that asked. */
  lemma ReportsTellAsked(w: Workflow, batch: seq<Node>, base: seq<Row>, turns: nat -> Turn, t: seq<Row>,
                         reports: seq<Report>) returns (k: nat)
    requires AllMet(w, batch, base, turns, t, reports) && |reports| == |batch|
    ensures FirstPaused(reports).Some? <==> SomeFate(w, batch, base, turns, HasAsked)
    ensures FirstPaused(reports).Some? ==>
              k < |batch| && FateOf(w, batch[k], base, turns(k)) == HasAsked
              && FirstPaused(reports).value.node == batch[k].id && t[|base| + k].status.Running?
  {
    k := 0;
    if FirstPaused(reports).Some? {
      k :| k < |reports| && reports[k] == FirstPaused(reports).value;
      FateSeen(w, batch, base, turns, t, reports, k);
    } else if j: nat :| j < |batch| && FateOf(w, batch[j], base, turns(j)) == HasAsked {
      FateSeen(w, batch, base, turns, t, reports, j);
    }
  }

  lemma BatchTable(w: Workflow, batch: seq<Node>, base: seq<Row>, turns: nat -> Turn)
    requires TableInv(w, base) && GoodBatch(w, batch, base, turns)
    ensures TableInv(w, ExecuteBatch(w, batch, base, turns, |batch|).0)
  {
    forall n | n in batch ensures n in w.nodes && IsRunnable(w, n.id, base) {
      var k: nat :| k < |batch| && batch[k] == n;
    }
    BatchIsAppended(w, batch, base, turns, |batch|);
    AppendedTable(w, base, ExecuteBatch(w, batch, base, turns, |batch|).0);
  }

  lemma MetIsLeft(w: Workflow, batch: seq<Node>, base: seq<Row>, turns: nat -> Turn, t: seq<Row>, reports: seq<Report>)
    requires AllMet(w, batch, base, turns, t, reports) && |reports| == |batch| && TableInv(w, t)
    ensures BatchLeft(w, batch, base, turns, t)
  {
    forall k: nat | k < |batch| ensures RowLeft(w, batch[k], base, turns(k), t[|base| + k]) {
      FateSeen(w, batch, base, turns, t, reports, k);
    }
  }

  /** If nobody asked, failed or was left blind, everything is settled again. */
  lemma AllDoneSettles(w: Workflow, batch: seq<Node>, base: seq<Row>, turns: nat -> Turn, t: seq<Row>)
    requires Settled(w, base) && BatchLeft(w, batch, base, turns, t)
    requires forall k: nat :: k < |batch| ==> FateOf(w, batch[k], base, turns(k)) == WasDone
    ensures Settled(w, t)
  {
    forall r | r in t ensures !IsOpen(r) {
      var i :| 0 <= i < |t| && t[i] == r;
      if i < |base| {
        assert r == base[i] && r in base;
      } else {
        assert RowLeft(w, batch[i - |base|], base, turns(i - |base|), t[|base| + (i - |base|)]);
      }
    }
  }

  lemma {:induction false} CountsNone(t: seq<Row>, p: NodeId)
    requires forall r :: r in t && r.node == p ==> !r.status.Running?
    ensures CountRunning(t, p) == 0
  {
    if t != [] {
      assert t[|t| - 1] in t;
      CountsNone(t[..|t| - 1], p);
    }
  }

  /** In a well-kept table a running row is the only one of its node that runs. */
  lemma {:induction false} CountsOne(t: seq<Row>, i: nat)
    requires WellKept(t) && i < |t| && t[i].status.Running?
    ensures CountRunning(t, t[i].node) == 1
  {
    var last, init := |t| - 1, t[..|t| - 1];
    assert WellKept(init);
    if i == last {
      forall r | r in init && r.node == t[i].node ensures !r.status.Running? {
        var k :| 0 <= k < |init| && init[k] == r;
        assert t[k].status.Failed?;
      }
      CountsNone(init, t[i].node);
    } else {
      CountsOne(init, i);
      assert t[last].node != t[i].node;
    }
  }

  lemma PausingKeepsSettled(base: seq<Row>, t: seq<Row>, p: NodeId)
    requires base <= t && NothingOpen(base)
    ensures base <= SetStatus(t, p, Status.Running, Status.Waiting)
  {
    var b := SetStatus(t, p, Status.Running, Status.Waiting);
    forall i | 0 <= i < |base| ensures b[i] == base[i] {
      assert t[i] == base[i] && base[i] in base;
    }
  }

  /** Pausing a node of the batch leaves the table as before, but for its row. */
  lemma PausedLeft(w: Workflow, batch: seq<Node>, base: seq<Row>, turns: nat -> Turn, t: seq<Row>, k: nat)
    requires UniqueIds(batch) && RowsLeft(w, batch, base, turns, t) && k < |batch|
    requires FateOf(w, batch[k], base, turns(k)) == HasAsked && NothingOpen(base)
    ensures RowsLeft(w, batch, base, turns, SetStatus(t, batch[k].id, Status.Running, Status.Waiting))
  {
    var b := SetStatus(t, batch[k].id, Status.Running, Status.Waiting);
    PausingKeepsSettled(base, t, batch[k].id);
    forall j: nat | j < |batch| ensures RowLeft(w, batch[j], base, turns(j), b[|base| + j]) {
      assert j != k ==> batch[j].id != batch[k].id;
      PausedRowLeft(w, batch[j], base, turns(j), t, |base| + j, batch[k].id);
    }
  }

  lemma PausedRowLeft(w: Workflow, n: Node, base: seq<Row>, turn: Turn, t: seq<Row>, i: nat, p: NodeId)
    requires i < |t| && RowLeft(w, n, base, turn, t[i]) && (n.id == p ==> FateOf(w, n, base, turn) == HasAsked)
    ensures RowLeft(w, n, base, turn, SetStatus(t, p, Status.Running, Status.Waiting)[i])
  {
    var r := SetStatus(t, p, Status.Running, Status.Waiting)[i];
    assert r == if t[i].node == p && t[i].status.Running? then t[i].(status := Status.Waiting) else t[i];
  }

  // ------------------------------------------------------------------------ one iteration

  /** The job after it stopped to wait at `p`. */
  predicate JobWaits(before: Job, after: Job, p: NodeId) {
    && after == before.(status := WaitingForUserInput, currentNode := Some(p), revision := before.revision + 1,
                        pending := after.pending)
    && (before.memory ==> after.pending.Some?)
  }

  ghost predicate AllObey(batch: seq<Node>, now: nat -> Turn) {
    forall j: nat :: j < |batch| ==> Obeys(batch[j], now(j))
  }

  /** The turns of an iteration on this table are of the kind in which nothing crashes. */
  ghost predicate ObeysNow(w: Workflow, t: seq<Row>, now: nat -> Turn) {
    AllObey(SelectBatch(w, FromCompleted(w, t), t), now)
  }

  /** Some node of the batch asked and is the one recorded. */
  ghost predicate WaitsAt(w: Workflow, batch: seq<Node>, base: seq<Row>, now: nat -> Turn, t: seq<Row>, p: NodeId) {
    exists k: nat :: k < |batch| && FateOf(w, batch[k], base, now(k)) == HasAsked && batch[k].id == p
                     && |base| + k < |t| && t[|base| + k].status.Waiting?
  }

  /**
   * What a run that stops in the iteration on `last` has come to: nothing was runnable, or
   * the first candidate was more than the budget had left, or the batch decides: an error if
   * any node was left blind, else a failure if any was cut short, else it waits.
   */
  ghost predicate RunStops(w: Workflow, last: Db, now: nat -> Turn, after: Db, outcome: RunOutcome) {
    var a, b := Rows(last, w.id), Rows(after, w.id);
    var batch := SelectBatch(w, FromCompleted(w, a), a);
    if RunnableNodes(w, a) == [] then after == last && outcome == Quiescent(w, a)
    else if batch == [] then after == last && outcome.Failed?
    else
      && BatchLeft(w, batch, a, now, b)
      && (if SomeFate(w, batch, a, now, LeftBlind) then outcome.Error? && after.job == last.job
          else if SomeFate(w, batch, a, now, CutShort) then outcome.Failed? && after.job == last.job
          else outcome.WaitingFor? && WaitsAt(w, batch, a, now, b, outcome.node)
               && JobWaits(last.job, after.job, outcome.node))
  }

  /** What a run that goes on has done: every node of its batch has completed. */
  ghost predicate GoesOn(w: Workflow, last: Db, now: nat -> Turn, after: Db) {
    var a, b := Rows(last, w.id), Rows(after, w.id);
    var batch := SelectBatch(w, FromCompleted(w, a), a);
    && BatchLeft(w, batch, a, now, b) && after.job == last.job && Settled(w, b)
    && (forall k: nat :: k < |batch| ==> FateOf(w, batch[k], a, now(k)) == WasDone)
  }

  lemma BatchIsGood(w: Workflow, t: seq<Row>, now: nat -> Turn)
    requires UniqueIds(w.nodes) && ObeysNow(w, t, now)
    ensures GoodBatch(w, SelectBatch(w, FromCompleted(w, t), t), t, now)
  {
    var batch, ready := SelectBatch(w, FromCompleted(w, t), t), RunnableNodes(w, t);
    RunnableDistinct(w, w.nodes, t);
    FirstOfBatchRunnable(w, FromCompleted(w, t), t);
    assert forall i | 0 <= i < |batch| :: batch[i] == ready[i];
    forall k: nat | k < |batch| ensures batch[k] in w.nodes && IsRunnable(w, batch[k].id, t) {
      assert batch[k] in batch;
    }
  }

  lemma PauseSucceeds(db: Db, w: Workflow, user: nat, consumed: Totals, reports: seq<Report>) returns (after: Db)
    requires Owned(db, w, user) && !AnyErrored(reports) && !AnyFailed(reports) && FirstPaused(reports).Some?
    requires CountRunning(Rows(db, w.id), FirstPaused(reports).value.node) == 1
    ensures
      var p := FirstPaused(reports).value.node;
      && Settle(db, w, user, consumed, reports) == Stop(after, WaitingFor(p)) && JobWaits(db.job, after.job, p)
      && Rows(after, w.id) == SetStatus(Rows(db, w.id), p, Status.Running, Status.Waiting)
  {
    after := Settle(db, w, user, consumed, reports).db;
  }

  lemma AskedRunsAlone(w: Workflow, n: Node, base: seq<Row>, turn: Turn, t: seq<Row>, i: nat)
    requires WellKept(t) && i < |t| && RowLeft(w, n, base, turn, t[i]) && t[i].status.Running?
    ensures CountRunning(t, n.id) == 1
    ensures SetStatus(t, n.id, Status.Running, Status.Waiting)[i].status.Waiting?
  {
    CountsOne(t, i);
  }

  /** Pausing the recorded question of a batch leaves it waiting. */
  lemma AskedLeft(w: Workflow, batch: seq<Node>, base: seq<Row>, now: nat -> Turn, t: seq<Row>, k: nat, b: seq<Row>)
    requires UniqueIds(batch) && TableInv(w, t) && NothingOpen(base) && k < |batch|
    requires RowsLeft(w, batch, base, now, t) && FateOf(w, batch[k], base, now(k)) == HasAsked
    requires b == SetStatus(t, batch[k].id, Status.Running, Status.Waiting) && b[|base| + k].status.Waiting?
    ensures BatchLeft(w, batch, base, now, b) && WaitsAt(w, batch, base, now, b, batch[k].id)
  {
    PausedLeft(w, batch, base, now, t, k);
    PausedTable(w, t, batch[k].id);
  }

  /** A batch in which somebody asked and nobody fared worse is paused at the recorded question. */
  lemma AskedBatchPauses(settled: Db, w: Workflow, user: nat, consumed: Totals, batch: seq<Node>, base: seq<Row>,
                         now: nat -> Turn, t: seq<Row>, reports: seq<Report>, k: nat) returns (after: Db)
    requires Owned(settled, w, user) && Rows(settled, w.id) == t && WellKept(t) && k < |batch|
    requires |base| + k < |t| && t[|base| + k].status.Running? && RowLeft(w, batch[k], base, now(k), t[|base| + k])
    requires !AnyErrored(reports) && !AnyFailed(reports) && FirstPaused(reports).Some?
    requires FirstPaused(reports).value.node == batch[k].id
    ensures Settle(settled, w, user, consumed, reports) == Stop(after, WaitingFor(batch[k].id))
    ensures JobWaits(settled.job, after.job, batch[k].id)
    ensures Rows(after, w.id) == SetStatus(t, batch[k].id, Status.Running, Status.Waiting)
    ensures Rows(after, w.id)[|base| + k].status.Waiting?
  {
    AskedRunsAlone(w, batch[k], base, now(k), t, |base| + k);
    after := PauseSucceeds(settled, w, user, consumed, reports);
  }

  /** What the paused batch has come to. */
  lemma AskedBatchStops(w: Workflow, last: Db, batch: seq<Node>, base: seq<Row>, now: nat -> Turn, t: seq<Row>, k: nat,
                        after: Db)
    requires UniqueIds(batch) && NothingOpen(base) && TableInv(w, t) && base == Rows(last, w.id)
    requires batch == SelectBatch(w, FromCompleted(w, base), base) && k < |batch|
    requires RunnableNodes(w, base) != [] && RowsLeft(w, batch, base, now, t)
    requires FateOf(w, batch[k], base, now(k)) == HasAsked
    requires !SomeFate(w, batch, base, now, LeftBlind) && !SomeFate(w, batch, base, now, CutShort)
    requires JobWaits(last.job, after.job, batch[k].id)
    requires Rows(after, w.id) == SetStatus(t, batch[k].id, Status.Running, Status.Waiting)
    requires Rows(after, w.id)[|base| + k].status.Waiting?
    ensures RunStops(w, last, now, after, WaitingFor(batch[k].id))
  {
    AskedLeft(w, batch, base, now, t, k, Rows(after, w.id));
  }

  /** A batch in which somebody asked and nobody fared worse. */
  lemma AskedBatchEnds(w: Workflow, last: Db, settled: Db, user: nat, consumed: Totals, batch: seq<Node>,
                       base: seq<Row>, now: nat -> Turn, t: seq<Row>, reports: seq<Report>)
    requires GoodBatch(w, batch, base, now) && NothingOpen(base) && TableInv(w, t) && base == Rows(last, w.id)
    requires batch == SelectBatch(w, FromCompleted(w, base), base) && RunnableNodes(w, base) != []
    requires AllMet(w, batch, base, now, t, reports) && |reports| == |batch| && FirstPaused(reports).Some?
    requires !AnyErrored(reports) && !AnyFailed(reports)
    requires Owned(settled, w, user) && Rows(settled, w.id) == t && settled.job == last.job
    ensures
      var step := Settle(settled, w, user, consumed, reports);
      step.Stop? && RunStops(w, last, now, step.db, step.outcome)
  {
    MetIsLeft(w, batch, base, now, t, reports);
    ReportsTellBlind(w, batch, base, now, t, reports);
    ReportsTellShort(w, batch, base, now, t, reports);
    var k := ReportsTellAsked(w, batch, base, now, t, reports);
    assert RowLeft(w, batch[k], base, now(k), t[|base| + k]);
    var after := AskedBatchPauses(settled, w, user, consumed, batch, base, now, t, reports, k);
    AskedBatchStops(w, last, batch, base, now, t, k, after);
  }

  /** A batch in which somebody was left blind or was cut short. */
  lemma BadBatchEnds(w: Workflow, last: Db, settled: Db, user: nat, consumed: Totals, batch: seq<Node>, base: seq<Row>,
                     now: nat -> Turn, t: seq<Row>, reports: seq<Report>)
    requires TableInv(w, t) && base == Rows(last, w.id) && batch != []
    requires batch == SelectBatch(w, FromCompleted(w, base), base) && RunnableNodes(w, base) != []
    requires AllMet(w, batch, base, now, t, reports) && |reports| == |batch|
    requires (AnyErrored(reports) || AnyFailed(reports)) && Rows(settled, w.id) == t && settled.job == last.job
    ensures
      var step := Settle(settled, w, user, consumed, reports);
      step.Stop? && RunStops(w, last, now, step.db, step.outcome)
  {
    MetIsLeft(w, batch, base, now, t, reports);
    ReportsTellBlind(w, batch, base, now, t, reports);
    ReportsTellShort(w, batch, base, now, t, reports);
  }

  /** A batch that went all through. */
  lemma GoodBatchGoesOn(w: Workflow, last: Db, settled: Db, user: nat, consumed: Totals, batch: seq<Node>,
                        base: seq<Row>, now: nat -> Turn, t: seq<Row>, reports: seq<Report>)
    requires Settled(w, base) && TableInv(w, t) && base == Rows(last, w.id)
    requires batch == SelectBatch(w, FromCompleted(w, base), base)
    requires AllMet(w, batch, base, now, t, reports) && |reports| == |batch| && FirstPaused(reports).None?
    requires !AnyErrored(reports) && !AnyFailed(reports) && Rows(settled, w.id) == t && settled.job == last.job
    ensures
      var step := Settle(settled, w, user, consumed, reports);
      step.Next? && GoesOn(w, last, now, step.db)
  {
    MetIsLeft(w, batch, base, now, t, reports);
    ReportsTellBlind(w, batch, base, now, t, reports);
    ReportsTellShort(w, batch, base, now, t, reports);
    var k := ReportsTellAsked(w, batch, base, now, t, reports);
    forall j: nat | j < |batch| ensures FateOf(w, batch[j], base, now(j)) == WasDone {
      FateIsNone(w, batch, base, now, j);
    }
    AllDoneSettles(w, batch, base, now, t);
  }

  lemma FateIsNone(w: Workflow, batch: seq<Node>, base: seq<Row>, now: nat -> Turn, j: nat)
    requires j < |batch| && !SomeFate(w, batch, base, now, LeftBlind)
    requires !SomeFate(w, batch, base, now, CutShort) && !SomeFate(w, batch, base, now, HasAsked)
    ensures FateOf(w, batch[j], base, now(j)) == WasDone
  {
  }

  /** One iteration on settled rows: it ends as said, or it goes on with everything settled. */
  lemma IterationEnds(db: Db, w: Workflow, user: nat, now: nat -> Turn)
    requires UniqueIds(w.nodes) && Settled(w, Rows(db, w.id)) && Owned(db, w, user)
    requires ObeysNow(w, Rows(db, w.id), now)
    ensures
      var step := Iterate(db, w, user, FromCompleted(w, Rows(db, w.id)), now);
      if step.Stop? then RunStops(w, db, now, step.db, step.outcome) else GoesOn(w, db, now, step.db)
  {
    var a := Rows(db, w.id);
    var consumed := FromCompleted(w, a);
    var batch := SelectBatch(w, consumed, a);
    if RunnableNodes(w, a) != [] && batch != [] {
      BatchIsGood(w, a, now);
      BatchMet(w, batch, a, now, |batch|);
      BatchTable(w, batch, a, now);
      var (t, reports) := ExecuteBatch(w, batch, a, now, |batch|);
      var settled := WithRows(db, w.id, t);
      if AnyErrored(reports) || AnyFailed(reports) {
        BadBatchEnds(w, db, settled, user, consumed, batch, a, now, t, reports);
      } else if FirstPaused(reports).Some? {
        AskedBatchEnds(w, db, settled, user, consumed, batch, a, now, t, reports);
      } else {
        GoodBatchGoesOn(w, db, settled, user, consumed, batch, a, now, t, reports);
      }
    }
  }

  // -------------------------------------------------------------------- what is stored

  /** The row a completed node leaves. */
  predicate DoneRow(w: Workflow, n: Node, base: seq<Row>, turn: Turn, r: Row) {
    var reply := ResolveExecution(w, n, base, turn);
    && r.status.Completed? && reply.Produced?
    && r.output == Some(PersistedOutput(n.inputs, reply.output)) && r.rows == reply.rows && r.ms == Some(turn.elapsed)
  }

  lemma NodeRecords(w: Workflow, n: Node, base: seq<Row>, t: seq<Row>, turn: Turn)
    ensures
      var report := ExecuteNode(w, n, base, t, turn).1;
      report.Done? ==> DoneRow(w, n, base, turn, report.row)
  {
  }

  ghost predicate AllRecorded(w: Workflow, batch: seq<Node>, base: seq<Row>, turns: nat -> Turn, reports: seq<Report>)
    requires |reports| <= |batch|
  {
    forall k: nat :: k < |reports| && reports[k].Done? ==> DoneRow(w, batch[k], base, turns(k), reports[k].row)
  }

  lemma {:induction false} BatchRecords(w: Workflow, batch: seq<Node>, base: seq<Row>, turns: nat -> Turn, i: nat)
    requires i <= |batch|
    ensures AllRecorded(w, batch, base, turns, ExecuteBatch(w, batch, base, turns, i).1)
  {
    if i > 0 {
      BatchRecords(w, batch, base, turns, i - 1);
      NodeRecords(w, batch[i - 1], base, ExecuteBatch(w, batch, base, turns, i - 1).0, turns(i - 1));
    }
  }

  /** `b` is `a` and then the row of each node of the batch, as it completed. */
  ghost predicate RowsRecorded(w: Workflow, batch: seq<Node>, a: seq<Row>, turns: nat -> Turn, b: seq<Row>) {
    && a <= b && |b| == |a| + |batch|
    && (forall k: nat :: k < |batch| ==>
          b[|a| + k].node == batch[k].id && DoneRow(w, batch[k], a, turns(k), b[|a| + k]))
  }

  lemma RecordedRows(w: Workflow, batch: seq<Node>, a: seq<Row>, turns: nat -> Turn, reports: seq<Report>, b: seq<Row>)
    requires DoneInOrder(batch, reports) && |reports| == |batch| && AllRecorded(w, batch, a, turns, reports)
    requires b == a + CompletedRows(reports)
    ensures RowsRecorded(w, batch, a, turns, b)
  {
    CompletedRowsAt(batch, reports);
    forall k: nat | k < |batch|
      ensures b[|a| + k].node == batch[k].id && DoneRow(w, batch[k], a, turns(k), b[|a| + k])
    {
      assert DoneBy(batch[k], reports[k]);
      assert b[|a| + k] == reports[k].row;
    }
  }

  /** The rows that an iteration adds to a run that goes on. */
  lemma NextRows(db: Db, w: Workflow, user: nat, consumed: Totals, turns: nat -> Turn) returns (b: seq<Row>)
    requires Iterate(db, w, user, consumed, turns).Next?
    ensures b == Rows(Iterate(db, w, user, consumed, turns).db, w.id)
    ensures RowsRecorded(w, SelectBatch(w, consumed, Rows(db, w.id)), Rows(db, w.id), turns, b)
  {
    var batch := SelectBatch(w, consumed, Rows(db, w.id));
    var reports := ExecuteBatch(w, batch, Rows(db, w.id), turns, |batch|).1;
    b := Rows(db, w.id) + CompletedRows(reports);
    NextIteration(db, w, user, consumed, turns);
    BatchRecords(w, batch, Rows(db, w.id), turns, |batch|);
    RecordedRows(w, batch, Rows(db, w.id), turns, reports, b);
  }

  // ----------------------------------------------------------------------------- whole runs

  /** Something said of the rows an iteration begins with and of its turns. */
  type Claim = (seq<Row>, nat -> Turn) -> bool

  /** The claim holds of every iteration of the run from the `k`-th on. */
  ghost predicate Throughout(db: Db, w: Workflow, user: nat, turns: nat -> nat -> Turn, k: nat, claim: Claim)
    decreases Pending(w.nodes, Rows(db, w.id))
  {
    var consumed := FromCompleted(w, Rows(db, w.id));
    && claim(Rows(db, w.id), turns(k))
    && match Iterate(db, w, user, consumed, turns(k))
       case Stop(_, _) => true
       case Next(after, _) =>
         IterationProgresses(db, w, user, consumed, turns(k));
         Throughout(after, w, user, turns, k + 1, claim)
  }

  ghost function Obeying(w: Workflow): Claim {
    (t, now) => ObeysNow(w, t, now)
  }

  /** In no turn of the run does anything crash. */
  ghost predicate Obedient(db: Db, w: Workflow, user: nat, turns: nat -> nat -> Turn, k: nat) {
    Throughout(db, w, user, turns, k, Obeying(w))
  }

  /** The state and the number of the iteration in which the run stops. */
  function LastState(db: Db, w: Workflow, user: nat, turns: nat -> nat -> Turn, k: nat): (Db, nat)
    decreases Pending(w.nodes, Rows(db, w.id))
  {
    var consumed := FromCompleted(w, Rows(db, w.id));
    match Iterate(db, w, user, consumed, turns(k))
    case Stop(_, _) => (db, k)
    case Next(after, _) =>
      IterationProgresses(db, w, user, consumed, turns(k));
      LastState(after, w, user, turns, k + 1)
  }

  /** The state before the last iteration of the run, which is settled and only has rows more. */
  ghost predicate LastIs(db: Db, w: Workflow, user: nat, now: nat -> Turn, last: Db, r: RunResult) {
    && Settled(w, Rows(last, w.id)) && Rows(db, w.id) <= Rows(last, w.id) && last.job == db.job
    && ObeysNow(w, Rows(last, w.id), now) && RunStops(w, last, now, r.db, r.outcome)
  }

  lemma LastIsEarlier(db: Db, next: Db, w: Workflow, user: nat, now: nat -> Turn, last: Db, r: RunResult)
    requires LastIs(next, w, user, now, last, r) && Rows(db, w.id) <= Rows(next, w.id) && next.job == db.job
    ensures LastIs(db, w, user, now, last, r)
  {
  }

  /**
   * Every run in which nothing crashes ends in one of five ways, decided by its last batch
   * alone: all is done, the budget starves it, a node is left blind, a node is cut short, or it
   * waits at a question.
   */
  lemma {:induction false} RunEnds(db: Db, w: Workflow, user: nat, turns: nat -> nat -> Turn, k: nat)
    requires UniqueIds(w.nodes) && Settled(w, Rows(db, w.id)) && Owned(db, w, user)
    requires Obedient(db, w, user, turns, k)
    ensures
      var (last, j) := LastState(db, w, user, turns, k);
      LastIs(db, w, user, turns(j), last, RunStateless(db, w, user, turns, k))
    decreases Pending(w.nodes, Rows(db, w.id))
  {
    var consumed := FromCompleted(w, Rows(db, w.id));
    var step := Iterate(db, w, user, consumed, turns(k));
    IterationEnds(db, w, user, turns(k));
    if step.Next? {
      IterationProgresses(db, w, user, consumed, turns(k));
      var after, next := step.db, k + 1;
      RunEnds(after, w, user, turns, next);
      var (last, j) := LastState(after, w, user, turns, next);
      LastIsEarlier(db, after, w, user, turns(j), last, RunStateless(after, w, user, turns, next));
    }
  }
}
