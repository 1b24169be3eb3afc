/**
 * That runs end well (run.rs `run`): what is left when nothing is runnable, what keeps a run
 * from failing, and jobs that are asked, answered and run again until all is done.
 */
module Liveness {
  import opened Wrappers
  import opened Json
  import opened Contract
  import opened Graphs
  import opened Scheduler
  import opened Ledger
  import opened Store
  import opened Runner
  import opened History
  import opened Branching
  import opened BudgetSafety
  import opened Supply
  import opened Verifier
  import opened Endings

  // -------------------------------------------------------------------- nothing left to do

  lemma NoneRunnable(w: Workflow, t: seq<Row>, n: NodeId)
    requires RunnableNodes(w, t) == [] && n in Ids(w.nodes)
    ensures !IsRunnable(w, n, t)
  {
    var m :| m in w.nodes && m.id == n;
    assert m !in RunnableNodes(w, t);
  }

  /** When nothing is runnable, what a completed node allows has completed too. */
  lemma NothingLeftBehind(w: Workflow, t: seq<Row>, e: Edge)
    requires Settled(w, t) && RunnableNodes(w, t) == [] && e in w.edges && e.target in Ids(w.nodes)
    requires IsSatisfied(e, t)
    ensures IsCompleted(t, e.target)
  {
    if !IsCompleted(t, e.target) {
      NoneRunnable(w, t, e.target);
    }
  }

  lemma EntryCompleted(w: Workflow, t: seq<Row>, n: NodeId)
    requires Settled(w, t) && RunnableNodes(w, t) == [] && IsEntryPoint(w, n) && n in Ids(w.nodes)
    ensures IsCompleted(t, n)
  {
    if !IsCompleted(t, n) {
      NoneRunnable(w, t, n);
    }
  }

  ghost predicate Unconditional(w: Workflow) {
    forall e :: e in w.edges ==> !e.condition.OnCardinality?
  }

  lemma GraphPathInit(g: Graph, p: seq<NodeId>)
    requires IsPath(g, p) && |p| > 1
    ensures IsPath(g, p[..|p| - 1]) && (p[|p| - 2], p[|p| - 1]) in g.arcs
  {
    var q := p[..|p| - 1];
    forall i, j | 0 <= i < j < |q| && j == i + 1 ensures (q[i], q[j]) in g.arcs { assert (p[i], p[j]) in g.arcs; }
  }

  lemma ArcCompletes(w: Workflow, t: seq<Row>, a: NodeId, b: NodeId)
    requires Settled(w, t) && RunnableNodes(w, t) == [] && Unconditional(w) && EdgesKnown(w)
    requires (a, b) in GraphOf(w).arcs && IsCompleted(t, a)
    ensures IsCompleted(t, b)
  {
    var e :| e in w.edges && e.source == a && e.target == b;
    NothingLeftBehind(w, t, e);
  }

  lemma {:induction false} PathCompleted(w: Workflow, t: seq<Row>, p: seq<NodeId>)
    requires Settled(w, t) && RunnableNodes(w, t) == [] && Unconditional(w) && EdgesKnown(w)
    requires IsPath(GraphOf(w), p) && IsEntryPoint(w, p[0])
    ensures IsCompleted(t, p[|p| - 1])
  {
    if |p| == 1 {
      EntryCompleted(w, t, p[0]);
    } else {
      GraphPathInit(GraphOf(w), p);
      PathCompleted(w, t, p[..|p| - 1]);
      ArcCompletes(w, t, p[|p| - 2], p[|p| - 1]);
    }
  }

  lemma GraphEntryIsEntryPoint(w: Workflow, n: NodeId)
    requires EdgesKnown(w) && IsEntry(GraphOf(w), n)
    ensures IsEntryPoint(w, n)
  {
    forall e | e in w.edges ensures e.target != n {
      assert (e.source, e.target) in GraphOf(w).arcs;
    }
  }

  lemma PathFromEntry(w: Workflow, n: NodeId) returns (p: seq<NodeId>)
    requires UniqueIds(w.nodes) && EdgesKnown(w) && !Cyclic(GraphOf(w)) && n in Ids(w.nodes)
    ensures IsPath(GraphOf(w), p) && IsEntryPoint(w, p[0]) && p[|p| - 1] == n
  {
    GraphIsWellFormed(w);
    assert IsPath(GraphOf(w), [n]);
    var entry := EntryAbove(GraphOf(w), [n]);
    GraphEntryIsEntryPoint(w, entry);
    p :| PathBetween(GraphOf(w), entry, p, n);
  }

  lemma SomeTerminalCompleted(w: Workflow, t: seq<Row>)
    requires HasComplete(w) && forall n :: n in w.nodes ==> IsCompleted(t, n.id)
    ensures Quiescent(w, t) == RunOutcome.Completed
  {
  }

  lemma AllNodesCompleted(w: Workflow, t: seq<Row>)
    requires UniqueIds(w.nodes) && EdgesKnown(w) && !Cyclic(GraphOf(w)) && Unconditional(w)
    requires Settled(w, t) && RunnableNodes(w, t) == []
    ensures forall n :: n in w.nodes ==> IsCompleted(t, n.id)
  {
    forall n | n in w.nodes ensures IsCompleted(t, n.id) {
      var p := PathFromEntry(w, n.id);
      PathCompleted(w, t, p);
    }
  }

  /** In a well-shaped workflow without cardinality conditions nothing left to do is all done. */
  lemma QuietIsDone(w: Workflow, t: seq<Row>)
    requires WellShaped(w) && Unconditional(w) && Settled(w, t) && RunnableNodes(w, t) == []
    ensures Quiescent(w, t) == RunOutcome.Completed && forall n :: n in w.nodes ==> IsCompleted(t, n.id)
  {
    AllNodesCompleted(w, t);
    SomeTerminalCompleted(w, t);
  }

  // --------------------------------------------------------------- what keeps a run from failing

  /** Every node reads only from nodes that dominate it and can provide it. */
  ghost predicate AllFed(w: Workflow) {
    forall n :: n in w.nodes ==> Fed(w, n) && Composes(n)
  }

  lemma DeliveredBefore(w: Workflow, a: seq<Row>, b: seq<Row>)
    requires AllDelivered(w, b) && a <= b
    ensures AllDelivered(w, a)
  {
    forall r | r in a ensures RowDelivers(w, r) { assert r in b; }
  }

  /** A node that is fed is not left blind once its producers have delivered. */
  lemma FedIsNotBlind(w: Workflow, t: seq<Row>, n: Node, turn: Turn)
    requires AllFed(w) && TableInv(w, t) && AllDelivered(w, t) && n in w.nodes && IsRunnable(w, n.id, t)
    ensures FateOf(w, n, t, turn) != LeftBlind
  {
    FedIsReady(w, t, n, Null);
  }

  /** Nobody refuses and nothing is cancelled. */
  predicate Serves(turn: Turn) {
    !turn.cancelled && !turn.reply.Refused?
  }

  ghost function Serving(w: Workflow): Claim {
    (t, now) => ObeysNow(w, t, now) && ServesNow(w, t, now)
  }

  ghost predicate ServesNow(w: Workflow, t: seq<Row>, now: nat -> Turn) {
    var batch := SelectBatch(w, FromCompleted(w, t), t);
    forall j: nat :: j < |batch| ==> Serves(now(j))
  }

  lemma ServedIsNotShort(w: Workflow, t: seq<Row>, now: nat -> Turn)
    requires ServesNow(w, t, now)
    ensures !SomeFate(w, SelectBatch(w, FromCompleted(w, t), t), t, now, CutShort)
  {
  }

  /** While declared totals fit and completed rows kept within them, something is picked. */
  lemma FittingIsNotStarved(w: Workflow, t: seq<Row>)
    requires FitsCaps(w) && WellKept(t) && AllWithin(w, t) && RunnableNodes(w, t) != []
    ensures SelectBatch(w, FromCompleted(w, t), t) != []
  {
    WellKeptCompletedLast(t);
    NeverStarved(w, t);
  }

  // ----------------------------------------------------------------------------- whole runs

  /** The run did all there was to do: nothing is open and nothing can be started. */
  ghost predicate DidAll(w: Workflow, r: RunResult) {
    var t := Rows(r.db, w.id);
    RunnableNodes(w, t) == [] && Settled(w, t) && r.outcome == Quiescent(w, t)
  }

  /** The run waits at a question that was not answered before. */
  predicate WaitsUnasked(db: Db, w: Workflow, r: RunResult) {
    r.outcome.WaitingFor? && Asks(w, r.outcome.node) && !IsCompleted(Rows(db, w.id), r.outcome.node)
  }

  lemma StopKeepsRows(w: Workflow, last: Db, now: nat -> Turn, after: Db, outcome: RunOutcome)
    requires RunStops(w, last, now, after, outcome)
    ensures Rows(last, w.id) <= Rows(after, w.id)
  {
  }

  lemma AskedIsUnasked(w: Workflow, a: seq<Row>, base: seq<Row>, n: Node, turn: Turn)
    requires a <= base && n in w.nodes && IsRunnable(w, n.id, base) && FateOf(w, n, base, turn) == HasAsked
    ensures Asks(w, n.id) && !IsCompleted(a, n.id)
  {
    CompletedInPrefix(a, base, n.id);
  }

  lemma CompletedInPrefix(a: seq<Row>, b: seq<Row>, n: NodeId)
    requires a <= b
    ensures IsCompleted(a, n) ==> IsCompleted(b, n)
  {
    if r :| r in a && r.node == n && r.status.Completed? { assert r in b; }
  }

  lemma BatchMember(w: Workflow, t: seq<Row>, k: nat)
    requires k < |SelectBatch(w, FromCompleted(w, t), t)|
    ensures
      var n := SelectBatch(w, FromCompleted(w, t), t)[k];
      n in w.nodes && IsRunnable(w, n.id, t)
  {
    FirstOfBatchRunnable(w, FromCompleted(w, t), t);
    assert SelectBatch(w, FromCompleted(w, t), t)[k] in SelectBatch(w, FromCompleted(w, t), t);
  }

  lemma WaitsAtUnasked(w: Workflow, a: seq<Row>, base: seq<Row>, batch: seq<Node>, now: nat -> Turn, t: seq<Row>,
                       p: NodeId)
    requires a <= base && batch == SelectBatch(w, FromCompleted(w, base), base) && WaitsAt(w, batch, base, now, t, p)
    ensures Asks(w, p) && !IsCompleted(a, p)
  {
    var k: nat :| k < |batch| && FateOf(w, batch[k], base, now(k)) == HasAsked && batch[k].id == p;
    BatchMember(w, base, k);
    AskedIsUnasked(w, a, base, batch[k], now(k));
  }

  /** A run that waits does so at a question that was not answered before it. */
  lemma WaitingIsUnasked(db: Db, w: Workflow, user: nat, now: nat -> Turn, last: Db, r: RunResult)
    requires LastIs(db, w, user, now, last, r) && r.outcome.WaitingFor?
    ensures WaitsUnasked(db, w, r)
  {
    var base := Rows(last, w.id);
    WaitsAtUnasked(w, Rows(db, w.id), base, SelectBatch(w, FromCompleted(w, base), base), now, Rows(r.db, w.id),
                   r.outcome.node);
  }

  lemma NobodyBlind(w: Workflow, t: seq<Row>, now: nat -> Turn)
    requires AllFed(w) && TableInv(w, t) && AllDelivered(w, t)
    ensures !SomeFate(w, SelectBatch(w, FromCompleted(w, t), t), t, now, LeftBlind)
  {
    var batch := SelectBatch(w, FromCompleted(w, t), t);
    forall k: nat | k < |batch| ensures FateOf(w, batch[k], t, now(k)) != LeftBlind {
      BatchMember(w, t, k);
      FedIsNotBlind(w, t, batch[k], now(k));
    }
  }

  lemma {:induction false} ThroughoutLast(db: Db, w: Workflow, user: nat, turns: nat -> nat -> Turn, k: nat,
                                          claim: Claim)
    requires Throughout(db, w, user, turns, k, claim)
    ensures
      var (last, j) := LastState(db, w, user, turns, k);
      claim(Rows(last, w.id), turns(j))
    decreases Pending(w.nodes, Rows(db, w.id))
  {
    var consumed := FromCompleted(w, Rows(db, w.id));
    var step := Iterate(db, w, user, consumed, turns(k));
    if step.Next? {
      IterationProgresses(db, w, user, consumed, turns(k));
      var after, next := step.db, k + 1;
      ThroughoutLast(after, w, user, turns, next, claim);
    }
  }

  /** A claim of every iteration implies a weaker one. */
  lemma {:induction false} ThroughoutWeakens(db: Db, w: Workflow, user: nat, turns: nat -> nat -> Turn, k: nat,
                                             claim: Claim, weaker: Claim)
    requires Throughout(db, w, user, turns, k, claim) && forall t, now :: claim(t, now) ==> weaker(t, now)
    ensures Throughout(db, w, user, turns, k, weaker)
    decreases Pending(w.nodes, Rows(db, w.id))
  {
    var consumed := FromCompleted(w, Rows(db, w.id));
    var step := Iterate(db, w, user, consumed, turns(k));
    if step.Next? {
      IterationProgresses(db, w, user, consumed, turns(k));
      var after, next := step.db, k + 1;
      ThroughoutWeakens(after, w, user, turns, next, claim, weaker);
    }
  }

  /**
   * A run of a workflow that fits its caps and whose nodes are fed, in which nobody refuses,
   * answers keep to the declared limits, and the stored rows hold what others read, never fails
   * and never ends in an error: it does all there is to do, or it waits at a question.
   */
  lemma RunEndsWell(db: Db, w: Workflow, user: nat, turns: nat -> nat -> Turn)
    requires FitsCaps(w) && AllFed(w) && AllWithin(w, Rows(db, w.id))
    requires Settled(w, Rows(db, w.id)) && Owned(db, w, user)
    requires Throughout(db, w, user, turns, 0, Serving(w)) && Throughout(db, w, user, turns, 0, Keeping(w))
    requires AllDelivered(w, Rows(RunStateless(db, w, user, turns, 0).db, w.id))
    ensures
      var r := RunStateless(db, w, user, turns, 0);
      DidAll(w, r) || WaitsUnasked(db, w, r)
  {
    var r := RunStateless(db, w, user, turns, 0);
    ThroughoutWeakens(db, w, user, turns, 0, Serving(w), Obeying(w));
    RunEnds(db, w, user, turns, 0);
    ThroughoutLast(db, w, user, turns, 0, Serving(w));
    WithinOnTheWay(db, w, user, turns, 0);
    var (last, j) := LastState(db, w, user, turns, 0);
    StopKeepsRows(w, last, turns(j), r.db, r.outcome);
    ServedEndsWell(db, w, user, turns(j), last, r);
  }

  lemma ServedEndsWell(db: Db, w: Workflow, user: nat, now: nat -> Turn, last: Db, r: RunResult)
    requires LastIs(db, w, user, now, last, r) && FitsCaps(w) && AllFed(w)
    requires ServesNow(w, Rows(last, w.id), now) && Rows(last, w.id) <= Rows(r.db, w.id)
    requires AllWithin(w, Rows(last, w.id)) && AllDelivered(w, Rows(r.db, w.id))
    ensures DidAll(w, r) || WaitsUnasked(db, w, r)
  {
    var a := Rows(last, w.id);
    if RunnableNodes(w, a) != [] {
      FittingIsNotStarved(w, a);
      DeliveredBefore(w, a, Rows(r.db, w.id));
      NobodyBlind(w, a, now);
      ServedIsNotShort(w, a, now);
      WaitingIsUnasked(db, w, user, now, last, r);
    }
  }

  /** Why a run that is not crashed failed: its budget starved it, or a node was cut short. */
  ghost predicate FailedFor(w: Workflow, a: seq<Row>, now: nat -> Turn) {
    var batch := SelectBatch(w, FromCompleted(w, a), a);
    || (RunnableNodes(w, a) != [] && batch == [])
    || (SomeFate(w, batch, a, now, CutShort) && !SomeFate(w, batch, a, now, LeftBlind))
  }

  /** What the outcome of such a run tells of its rows and of its last batch. */
  ghost predicate Explained(db: Db, w: Workflow, last: Db, now: nat -> Turn, r: RunResult) {
    var a := Rows(last, w.id);
    match r.outcome
    case Completed => forall n :: n in w.nodes ==> IsCompleted(Rows(r.db, w.id), n.id)
    case WaitingFor(_) => WaitsUnasked(db, w, r)
    case Failed => FailedFor(w, a, now)
    case Error => SomeFate(w, SelectBatch(w, FromCompleted(w, a), a), a, now, LeftBlind)
  }

  lemma QuietRunCompletes(w: Workflow, last: Db, now: nat -> Turn, after: Db, outcome: RunOutcome)
    requires WellShaped(w) && Unconditional(w) && Settled(w, Rows(last, w.id))
    requires RunStops(w, last, now, after, outcome) && RunnableNodes(w, Rows(last, w.id)) == []
    ensures outcome.Completed? && forall n :: n in w.nodes ==> IsCompleted(Rows(after, w.id), n.id)
  {
    QuietIsDone(w, Rows(last, w.id));
  }

  lemma BatchExplains(w: Workflow, last: Db, now: nat -> Turn, after: Db, outcome: RunOutcome)
    requires RunStops(w, last, now, after, outcome) && RunnableNodes(w, Rows(last, w.id)) != []
    ensures !outcome.Completed? && (outcome.Failed? ==> FailedFor(w, Rows(last, w.id), now))
    ensures outcome.Error? ==>
              var a := Rows(last, w.id);
              SomeFate(w, SelectBatch(w, FromCompleted(w, a), a), a, now, LeftBlind)
  {
  }

  /**
   * A run of a well-shaped workflow without cardinality conditions: if it completes, every
   * node has; if not, it waits at a new question, or its last batch says why.
   */
  lemma RunCompletesAll(db: Db, w: Workflow, user: nat, turns: nat -> nat -> Turn)
    requires WellShaped(w) && Unconditional(w)
    requires Settled(w, Rows(db, w.id)) && Owned(db, w, user) && Obedient(db, w, user, turns, 0)
    ensures
      var (last, j) := LastState(db, w, user, turns, 0);
      Explained(db, w, last, turns(j), RunStateless(db, w, user, turns, 0))
  {
    RunEnds(db, w, user, turns, 0);
    var (last, j) := LastState(db, w, user, turns, 0);
    ExplainedByLast(db, w, user, turns(j), last, RunStateless(db, w, user, turns, 0));
  }

  lemma ExplainedByLast(db: Db, w: Workflow, user: nat, now: nat -> Turn, last: Db, r: RunResult)
    requires WellShaped(w) && Unconditional(w) && LastIs(db, w, user, now, last, r)
    ensures Explained(db, w, last, now, r)
  {
    if RunnableNodes(w, Rows(last, w.id)) == [] {
      QuietRunCompletes(w, last, now, r.db, r.outcome);
    } else {
      BatchExplains(w, last, now, r.db, r.outcome);
      if r.outcome.WaitingFor? { WaitingIsUnasked(db, w, user, now, last, r); }
    }
  }

  // -------------------------------------------------------------- what the last state knows

  lemma BoundGrows(n: Node, a: seq<Row>, b: seq<Row>)
    requires KeepsCompleted(a, b) && WellKept(b) && HasBindings(n, a)
    ensures HasBindings(n, b)
  {
    BindingsExistIff(n.inputs, a, Null);
    BindingsExistIff(n.inputs, b, Null);
    forall i | i in n.inputs && !i.source.ExactSensitiveInput? ensures BindingValue(i.source, b, Null).Some? {
      assert BindingValue(i.source, a, Null).Some?;
      if IsSlot(i.source) { FindStays(a, b, i.source.node); }
    }
  }

  lemma PrefixKeeps(a: seq<Row>, b: seq<Row>)
    requires a <= b
    ensures KeepsCompleted(a, b)
  {
    forall i | 0 <= i < |a| ensures b[i] == a[i] { }
  }

  lemma NewlyCompleted(a: seq<Row>, b: seq<Row>, n: NodeId) returns (k: nat)
    requires a <= b && IsCompleted(b, n) && !IsCompleted(a, n)
    ensures |a| + k < |b| && b[|a| + k].node == n && b[|a| + k].status.Completed?
  {
    var i :| 0 <= i < |b| && b[i].node == n && b[i].status.Completed?;
    assert forall j | 0 <= j < |a| :: b[j] == a[j] && a[j] in a;
    k := i - |a|;
  }

  lemma DoneWasBound(w: Workflow, m: Node, a: seq<Row>, turn: Turn)
    requires FateOf(w, m, a, turn) == WasDone
    ensures !m.kind.ClarificationInterrupt? && HasBindings(m, a)
  {
  }

  lemma CompletedInBatch(w: Workflow, a: seq<Row>, batch: seq<Node>, now: nat -> Turn, b: seq<Row>, n: Node)
    requires UniqueIds(w.nodes) && n in w.nodes && forall m :: m in batch ==> m in w.nodes
    requires RowsLeft(w, batch, a, now, b) && forall k: nat :: k < |batch| ==> FateOf(w, batch[k], a, now(k)) == WasDone
    requires IsCompleted(b, n.id) && !IsCompleted(a, n.id)
    ensures !n.kind.ClarificationInterrupt? && HasBindings(n, a)
  {
    var k := NewlyCompleted(a, b, n.id);
    assert RowLeft(w, batch[k], a, now(k), b[|a| + k]);
    SameIdIsSame(w.nodes, batch[k], n);
    DoneWasBound(w, n, a, now(k));
  }

  /** A node that completed in an iteration after which the run goes on was not asked, and bound. */
  lemma CompletedInStep(db: Db, w: Workflow, now: nat -> Turn, after: Db, n: Node)
    requires UniqueIds(w.nodes) && n in w.nodes && GoesOn(w, db, now, after)
    requires IsCompleted(Rows(after, w.id), n.id) && !IsCompleted(Rows(db, w.id), n.id)
    ensures !n.kind.ClarificationInterrupt? && HasBindings(n, Rows(db, w.id))
  {
    var a := Rows(db, w.id);
    FirstOfBatchRunnable(w, FromCompleted(w, a), a);
    CompletedInBatch(w, a, SelectBatch(w, FromCompleted(w, a), a), now, Rows(after, w.id), n);
  }

  lemma SameIdIsSame(nodes: seq<Node>, m: Node, n: Node)
    requires UniqueIds(nodes) && m in nodes && n in nodes && m.id == n.id
    ensures m == n
  {
  }

  lemma StepPrefix(db: Db, w: Workflow, now: nat -> Turn, after: Db)
    requires GoesOn(w, db, now, after)
    ensures Rows(db, w.id) <= Rows(after, w.id) && WellKept(Rows(after, w.id))
  {
  }

  /** What completed in the run was never a question, and had its bindings. */
  lemma {:induction false} CompletedOnTheWay(db: Db, w: Workflow, user: nat, turns: nat -> nat -> Turn, k: nat, n: Node)
    requires UniqueIds(w.nodes) && Settled(w, Rows(db, w.id)) && Owned(db, w, user)
    requires Obedient(db, w, user, turns, k) && n in w.nodes
    ensures
      var a := Rows(LastState(db, w, user, turns, k).0, w.id);
      IsCompleted(a, n.id) && !IsCompleted(Rows(db, w.id), n.id) ==>
          !n.kind.ClarificationInterrupt? && HasBindings(n, a)
    decreases Pending(w.nodes, Rows(db, w.id))
  {
    var consumed := FromCompleted(w, Rows(db, w.id));
    var step := Iterate(db, w, user, consumed, turns(k));
    IterationEnds(db, w, user, turns(k));
    if step.Next? {
      IterationProgresses(db, w, user, consumed, turns(k));
      var after, next := step.db, k + 1;
      CompletedOnTheWay(after, w, user, turns, next, n);
      RunEnds(after, w, user, turns, next);
      StepPrefix(db, w, turns(k), after);
      if IsCompleted(Rows(after, w.id), n.id) && !IsCompleted(Rows(db, w.id), n.id) {
        CompletedInStep(db, w, turns(k), after, n);
        CompletedAndBound(n, Rows(db, w.id), Rows(LastState(after, w, user, turns, next).0, w.id), Rows(after, w.id));
      }
    }
  }

  lemma CompletedAndBound(n: Node, a: seq<Row>, last: seq<Row>, after: seq<Row>)
    requires HasBindings(n, a) && a <= after <= last && WellKept(last)
    ensures HasBindings(n, last)
  {
    PrefixKeeps(a, last);
    BoundGrows(n, a, last);
  }

  /** Branches stay decided until the last iteration and through it. */
  lemma {:induction false} DecidedOnTheWay(db: Db, w: Workflow, user: nat, turns: nat -> nat -> Turn, k: nat)
    requires UniqueIds(w.nodes) && Settled(w, Rows(db, w.id)) && Owned(db, w, user)
    requires Obedient(db, w, user, turns, k) && Decided(w, Rows(db, w.id))
    ensures Decided(w, Rows(LastState(db, w, user, turns, k).0, w.id))
    ensures Decided(w, Rows(RunStateless(db, w, user, turns, k).db, w.id))
    decreases Pending(w.nodes, Rows(db, w.id))
  {
    var consumed := FromCompleted(w, Rows(db, w.id));
    var step := Iterate(db, w, user, consumed, turns(k));
    IterationEnds(db, w, user, turns(k));
    IterationDecides(db, w, user, consumed, turns(k));
    if step.Next? {
      IterationProgresses(db, w, user, consumed, turns(k));
      var after, next := step.db, k + 1;
      DecidedOnTheWay(after, w, user, turns, next);
    }
  }

  /** The node answers in its time and within its rows. */
  predicate KeepsLimits(n: Node, turn: Turn) {
    && turn.elapsed <= n.budget.timeoutMs
    && (turn.reply.Produced? && Guarded(n) ==> NonNegative(turn.reply.rows) <= n.budget.rowCap)
  }

  ghost predicate AllKeep(batch: seq<Node>, now: nat -> Turn) {
    forall j: nat :: j < |batch| ==> KeepsLimits(batch[j], now(j))
  }

  /** Every answer of the iteration keeps to the declared limits. */
  ghost predicate KeepsNow(w: Workflow, t: seq<Row>, now: nat -> Turn) {
    AllKeep(SelectBatch(w, FromCompleted(w, t), t), now)
  }

  ghost function Keeping(w: Workflow): Claim {
    (t, now) => KeepsNow(w, t, now)
  }

  lemma DoneIsWithin(w: Workflow, n: Node, base: seq<Row>, turn: Turn, r: Row)
    requires UniqueIds(w.nodes) && n in w.nodes && r.node == n.id && DoneRow(w, n, base, turn, r)
    requires Obeys(n, turn) && KeepsLimits(n, turn)
    ensures WithinDeclared(w, r)
  {
    var i :| 0 <= i < |w.nodes| && w.nodes[i] == n;
    FindNodeUnique(w.nodes, i);
  }

  /** A row of the batch is within, whatever became of its node. */
  lemma MetIsWithin(w: Workflow, n: Node, base: seq<Row>, turn: Turn, report: Report, r: Row)
    requires UniqueIds(w.nodes) && n in w.nodes && Obeys(n, turn) && KeepsLimits(n, turn)
    requires Met(w, n, base, turn, report, r) && (report.Done? ==> DoneRow(w, n, base, turn, report.row))
    ensures WithinDeclared(w, r)
  {
    if report.Done? { DoneIsWithin(w, n, base, turn, r); }
  }

  lemma OneMoreWithin(w: Workflow, b: seq<Row>, i: nat)
    requires i < |b| && AllWithin(w, b[..i]) && WithinDeclared(w, b[i])
    ensures AllWithin(w, b[..i + 1])
  {
    assert b[..i + 1] == b[..i] + [b[i]];
  }

  lemma {:induction false} MetAllWithin(w: Workflow, a: seq<Row>, batch: seq<Node>, now: nat -> Turn, b: seq<Row>,
                                        reports: seq<Report>, k: nat)
    requires UniqueIds(w.nodes) && k <= |batch| == |reports| && forall n :: n in batch ==> n in w.nodes
    requires AllObey(batch, now) && AllKeep(batch, now) && AllMet(w, batch, a, now, b, reports)
    requires AllRecorded(w, batch, a, now, reports) && AllWithin(w, a)
    ensures AllWithin(w, b[..|a| + k])
  {
    if k == 0 {
      assert b[..|a|] == a;
    } else {
      MetAllWithin(w, a, batch, now, b, reports, k - 1);
      FateSeen(w, batch, a, now, b, reports, k - 1);
      MetIsWithin(w, batch[k - 1], a, now(k - 1), reports[k - 1], b[|a| + k - 1]);
      OneMoreWithin(w, b, |a| + k - 1);
    }
  }

  lemma PausingKeepsWithin(w: Workflow, t: seq<Row>, p: NodeId)
    requires AllWithin(w, t)
    ensures AllWithin(w, SetStatus(t, p, Status.Running, Status.Waiting))
  {
    var b := SetStatus(t, p, Status.Running, Status.Waiting);
    forall r | r in b ensures WithinDeclared(w, r) {
      var i :| 0 <= i < |b| && b[i] == r;
      assert t[i] in t;
    }
  }

  lemma SettlingKeepsWithin(db: Db, w: Workflow, user: nat, consumed: Totals, reports: seq<Report>)
    requires AllWithin(w, Rows(db, w.id))
    ensures AllWithin(w, Rows(Settle(db, w, user, consumed, reports).db, w.id))
  {
    SettledRows(db, w, user, consumed, reports);
    if FirstPaused(reports).Some? { PausingKeepsWithin(w, Rows(db, w.id), FirstPaused(reports).value.node); }
  }

  lemma MetTableWithin(w: Workflow, a: seq<Row>, batch: seq<Node>, now: nat -> Turn, b: seq<Row>, reports: seq<Report>)
    requires UniqueIds(w.nodes) && |batch| == |reports| && forall n :: n in batch ==> n in w.nodes
    requires AllObey(batch, now) && AllKeep(batch, now) && AllMet(w, batch, a, now, b, reports)
    requires AllRecorded(w, batch, a, now, reports) && AllWithin(w, a)
    ensures AllWithin(w, b)
  {
    MetAllWithin(w, a, batch, now, b, reports, |batch|);
    assert b[..|b|] == b;
  }

  lemma BatchKeepsWithin(w: Workflow, a: seq<Row>, batch: seq<Node>, now: nat -> Turn)
    requires UniqueIds(w.nodes) && (forall n :: n in batch ==> n in w.nodes) && GoodBatch(w, batch, a, now)
    requires AllObey(batch, now) && AllKeep(batch, now) && AllWithin(w, a)
    ensures AllWithin(w, ExecuteBatch(w, batch, a, now, |batch|).0)
  {
    var (t, reports) := ExecuteBatch(w, batch, a, now, |batch|);
    BatchMet(w, batch, a, now, |batch|);
    BatchRecords(w, batch, a, now, |batch|);
    MetTableWithin(w, a, batch, now, t, reports);
  }

  /** While answers keep to declared limits, completed rows do, in the iteration that stops as well. */
  lemma IterationKeepsWithin(db: Db, w: Workflow, user: nat, now: nat -> Turn)
    requires UniqueIds(w.nodes) && ObeysNow(w, Rows(db, w.id), now) && KeepsNow(w, Rows(db, w.id), now)
    requires AllWithin(w, Rows(db, w.id))
    ensures AllWithin(w, Rows(Iterate(db, w, user, FromCompleted(w, Rows(db, w.id)), now).db, w.id))
  {
    var a := Rows(db, w.id);
    var batch := SelectBatch(w, FromCompleted(w, a), a);
    if RunnableNodes(w, a) != [] && batch != [] {
      BatchIsGood(w, a, now);
      FirstOfBatchRunnable(w, FromCompleted(w, a), a);
      BatchKeepsWithin(w, a, batch, now);
      var (t, reports) := ExecuteBatch(w, batch, a, now, |batch|);
      SettlingKeepsWithin(WithRows(db, w.id, t), w, user, FromCompleted(w, a), reports);
    }
  }

  lemma {:induction false} WithinOnTheWay(db: Db, w: Workflow, user: nat, turns: nat -> nat -> Turn, k: nat)
    requires UniqueIds(w.nodes) && AllWithin(w, Rows(db, w.id))
    requires Obedient(db, w, user, turns, k) && Throughout(db, w, user, turns, k, Keeping(w))
    ensures AllWithin(w, Rows(LastState(db, w, user, turns, k).0, w.id))
    ensures AllWithin(w, Rows(RunStateless(db, w, user, turns, k).db, w.id))
    decreases Pending(w.nodes, Rows(db, w.id))
  {
    var consumed := FromCompleted(w, Rows(db, w.id));
    var step := Iterate(db, w, user, consumed, turns(k));
    IterationKeepsWithin(db, w, user, turns(k));
    if step.Next? {
      IterationProgresses(db, w, user, consumed, turns(k));
      var after, next := step.db, k + 1;
      WithinOnTheWay(after, w, user, turns, next);
    }
  }

  /** A run that serves, keeps to the declared limits and fits its caps never fails for want of either. */
  lemma ServedRunDoesNotFail(db: Db, w: Workflow, user: nat, turns: nat -> nat -> Turn)
    requires FitsCaps(w) && Settled(w, Rows(db, w.id)) && Owned(db, w, user) && AllWithin(w, Rows(db, w.id))
    requires Throughout(db, w, user, turns, 0, Serving(w)) && Throughout(db, w, user, turns, 0, Keeping(w))
    ensures
      var (last, j) := LastState(db, w, user, turns, 0);
      !FailedFor(w, Rows(last, w.id), turns(j))
  {
    ThroughoutWeakens(db, w, user, turns, 0, Serving(w), Obeying(w));
    RunEnds(db, w, user, turns, 0);
    ThroughoutLast(db, w, user, turns, 0, Serving(w));
    WithinOnTheWay(db, w, user, turns, 0);
    var (last, j) := LastState(db, w, user, turns, 0);
    if RunnableNodes(w, Rows(last, w.id)) != [] { FittingIsNotStarved(w, Rows(last, w.id)); }
    ServedIsNotShort(w, Rows(last, w.id), turns(j));
  }
}
