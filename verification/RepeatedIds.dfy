/**
 * Why the ledger of a run and the one read off its rows need nodes that share an id to
 * declare the same queries: rows name only the id, and the last node listed with it counts.
 */
module RepeatedIds {
  import opened Wrappers
  import opened Json
  import opened Contract
  import opened Scheduler
  import opened Ledger
  import opened Store
  import opened Runner
  import opened BudgetSafety
  import opened Gaps
  import opened Pauses

  function Task(id: NodeId, cost: u8): Node {
    Node(id, QUERY, [], [], NodePolicy(None, PublicBusiness, false), NodeBudget(1, 0, cost), Replayable)
  }

  /** The id `x` is listed twice, free at first and then for two queries; `y` costs one, of two. */
  function Twice(x: NodeId, y: NodeId): Workflow {
    Workflow(4, [Task(x, 0), Task(x, 2), Task(y, 1)], [], Budgets(1000, 10, 2, 1), FailFast,
             OutputContract(false, PublicBusiness))
  }

  function TaskRow(i: nat, id: NodeId): Row {
    Completing(RunningRow(i, id, 0), Null, 0, 0)
  }

  lemma TasksReady(x: NodeId, y: NodeId, runs: seq<Row>)
    requires forall r :: r in runs ==> r.status.Completed?
    ensures RunnableNodes(Twice(x, y), runs) ==
            (if Untouched(runs, x) then [Task(x, 0)] else []) + (if Untouched(runs, x) then [Task(x, 2)] else [])
            + (if Untouched(runs, y) then [Task(y, 1)] else [])
  {
    var w := Twice(x, y);
    assert IsRunnable(w, x, runs) <==> Untouched(runs, x);
    assert IsRunnable(w, y, runs) <==> Untouched(runs, y);
    RunnableOfThree(w, Task(x, 0), Task(x, 2), Task(y, 1), runs);
  }

  lemma TaskAnswers(w: Workflow, id: NodeId, cost: u8, t: seq<Row>)
    requires Untouched(t, id)
    ensures ExecuteNode(w, Task(id, cost), t, t, Answers()) == (t + [TaskRow(|t|, id)], Done(TaskRow(|t|, id), cost))
  {
    UntouchedAttempt(t, id);
  }

  lemma OneTaskBatch(w: Workflow, id: NodeId, cost: u8, t: seq<Row>, turns: nat -> Turn)
    requires Untouched(t, id) && turns(0) == Answers()
    ensures ExecuteBatch(w, [Task(id, cost)], t, turns, 1) == (t + [TaskRow(|t|, id)], [Done(TaskRow(|t|, id), cost)])
  {
    TaskAnswers(w, id, cost, t);
    OneNodeBatch(w, Task(id, cost), t, turns);
  }

  /** A task that is picked alone answers and its own cost is charged. */
  lemma TaskIteration(db: Db, w: Workflow, user: nat, consumed: Totals, turns: nat -> Turn, id: NodeId, cost: u8)
    requires RunnableNodes(w, Rows(db, w.id)) != [] && SelectBatch(w, consumed, Rows(db, w.id)) == [Task(id, cost)]
    requires Untouched(Rows(db, w.id), id) && turns(0) == Answers()
    ensures
      var t := Rows(db, w.id);
      var step := Iterate(db, w, user, consumed, turns);
      && step.Next? && step.consumed == AddActual(consumed, cost, TaskRow(|t|, id))
      && step.db == WithRows(db, w.id, t + [TaskRow(|t|, id)])
  {
    var t := Rows(db, w.id);
    OneTaskBatch(w, id, cost, t, turns);
    var report := Done(TaskRow(|t|, id), cost);
    OneDone(WithRows(db, w.id, t + [TaskRow(|t|, id)]), w, user, consumed, report);
    ReportsLast(consumed, [], report);
    assert [] + [report] == [report];
  }

  lemma FirstPick(x: NodeId, y: NodeId)
    requires x != y
    ensures RunnableNodes(Twice(x, y), []) != [] && SelectBatch(Twice(x, y), ZERO, []) == [Task(x, 0)]
  {
    TasksReady(x, y, []);
    assert ([Task(x, 0)] + [Task(x, 2)] + [Task(y, 1)])[..1] == [Task(x, 0)] + [];
    AdmitFirst(ZERO, Twice(x, y).budgets, Task(x, 0), []);
  }

  /** After `x`, what the ledger holds decides about `y`. */
  lemma SecondPick(x: NodeId, y: NodeId, consumed: Totals)
    requires x != y && consumed.rows == 0 && consumed.ms == 0
    ensures
      var w, t := Twice(x, y), [TaskRow(0, x)];
      && RunnableNodes(w, t) != []
      && (consumed.queries == 0 ==> SelectBatch(w, consumed, t) == [Task(y, 1)])
      && (consumed.queries == 2 ==> SelectBatch(w, consumed, t) == [])
  {
    var w, t := Twice(x, y), [TaskRow(0, x)];
    assert t[0] in t;
    TasksReady(x, y, t);
    assert Candidates(w, t) == [Task(y, 1)] + [];
    if consumed.queries == 0 { AdmitFirst(consumed, w.budgets, Task(y, 1), []); }
  }

  lemma LedgersDiffer(x: NodeId, y: NodeId)
    requires x != y
    ensures AddActual(ZERO, 0, TaskRow(0, x)) == ZERO
    ensures FromCompleted(Twice(x, y), [TaskRow(0, x)]) == Totals(2, 0, 0)
  {
    var w, t := Twice(x, y), [TaskRow(0, x)];
    assert t == [] + [t[0]];
    FromCompletedLast(w, [], t[0]);
    assert w.nodes[..2][1] == Task(x, 2);
    assert FindNode(w.nodes, x) == Some(Task(x, 2));
  }

  lemma AfterFirst(x: NodeId, y: NodeId, db: Db, user: nat, turns: nat -> Turn)
    requires x != y && Rows(db, 4) == [] && turns(0) == Answers()
    ensures
      var step := Iterate(db, Twice(x, y), user, ZERO, turns);
      step.Next? && step.consumed == ZERO && Rows(step.db, 4) == [TaskRow(0, x)]
  {
    FirstPick(x, y);
    TaskIteration(db, Twice(x, y), user, ZERO, turns, x, 0);
    LedgersDiffer(x, y);
  }

  lemma SecondRuns(x: NodeId, y: NodeId, db: Db, user: nat, turns: nat -> nat -> Turn)
    requires x != y && Rows(db, 4) == [TaskRow(0, x)] && turns(1)(0) == Answers()
    ensures |Rows(RunLoop(db, Twice(x, y), user, ZERO, turns, 1).db, 4)| >= 2
  {
    var w := Twice(x, y);
    SecondPick(x, y, ZERO);
    TaskIteration(db, w, user, ZERO, turns(1), y, 1);
    var last := Iterate(db, w, user, ZERO, turns(1));
    LoopKeeps(last.db, w, user, last.consumed, turns, 2);
  }

  /** The ledger carried along holds nothing, and `y` runs. */
  lemma CarriedRunsBoth(x: NodeId, y: NodeId, db: Db, user: nat, turns: nat -> nat -> Turn)
    requires x != y && Rows(db, 4) == [] && turns(0)(0) == Answers() && turns(1)(0) == Answers()
    ensures |Rows(RunLoop(db, Twice(x, y), user, ZERO, turns, 0).db, 4)| >= 2
  {
    AfterFirst(x, y, db, user, turns(0));
    SecondRuns(x, y, Iterate(db, Twice(x, y), user, ZERO, turns(0)).db, user, turns);
  }

  lemma {:induction false} LoopKeeps(db: Db, w: Workflow, user: nat, consumed: Totals, turns: nat -> nat -> Turn,
                                     k: nat)
    ensures |Rows(db, w.id)| <= |Rows(RunLoop(db, w, user, consumed, turns, k).db, w.id)|
    decreases Pending(w.nodes, Rows(db, w.id))
  {
    var step := Iterate(db, w, user, consumed, turns(k));
    IterationKeepsNodes(db, w, user, consumed, turns(k));
    if step.Next? {
      IterationProgresses(db, w, user, consumed, turns(k));
      LoopKeeps(step.db, w, user, step.consumed, turns, k + 1);
    }
  }

  /** The ledger read off the rows charges the second node listed, and `y` is refused. */
  lemma RereadRunsOne(x: NodeId, y: NodeId, db: Db, user: nat, turns: nat -> nat -> Turn)
    requires x != y && Rows(db, 4) == [] && turns(0)(0) == Answers()
    ensures Rows(RunStateless(db, Twice(x, y), user, turns, 0).db, 4) == [TaskRow(0, x)]
  {
    var w := Twice(x, y);
    AfterFirst(x, y, db, user, turns(0));
    LedgersDiffer(x, y);
    SecondPick(x, y, Totals(2, 0, 0));
    var next := Iterate(db, w, user, ZERO, turns(0)).db;
    assert RunStateless(next, w, user, turns, 1).db == next;
  }

  /** Restarting is not harmless when nodes that share an id differ in what they cost. */
  lemma RestartDiffers(x: NodeId, y: NodeId, db: Db, user: nat, turns: nat -> nat -> Turn)
    requires x != y && Rows(db, 4) == [] && turns(0)(0) == Answers() && turns(1)(0) == Answers()
    ensures
      var w := Twice(x, y);
      RunLoop(db, w, user, FromCompleted(w, Rows(db, w.id)), turns, 0) != RunStateless(db, w, user, turns, 0)
  {
    CarriedRunsBoth(x, y, db, user, turns);
    RereadRunsOne(x, y, db, user, turns);
  }
}
