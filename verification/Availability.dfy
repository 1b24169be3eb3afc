/**
 * Which bindings are sure to be there when a node is started (run.rs `bindings_for`): those
 * of producers that lie on every path to the node which some outcome of the data allows, and
 * no others.
 */
module Availability {
  import opened Wrappers
  import opened Json
  import opened Contract
  import opened Scheduler
  import opened Ledger
  import opened Store
  import opened Runner
  import opened History
  import opened Branching
  import opened BudgetSafety
  import opened Supply
  import opened Verifier

  /** Each completed run of the producer left the slot in its output. */
  ghost predicate LeavesSlot(t: seq<Row>, producer: NodeId, slot: string) {
    forall r :: r in t && r.node == producer && r.status.Completed? ==>
      r.output.Some? && Get(r.output.value, slot).Some?
  }

  /**
   * A node whose producers all dominate it is never started without its bindings, in any
   * history, provided completed producers leave the promised slot.
   */
  lemma DominatedBindingsAvailable(defs: Definitions, db: Db, events: seq<Event>, wid: WorkflowId, n: Node, scope: Json)
    requires Coherent(defs) && Initial(db) && wid in defs
    requires IsRunnable(defs[wid], n.id, Rows(After(defs, db, events), wid))
    requires forall input :: input in n.inputs && (input.source.PriorStep? || input.source.AuthorizedDataProbe?) ==>
               && input.source.node != n.id && Dominates(defs[wid], input.source.node, n.id)
               && LeavesSlot(Rows(After(defs, db, events), wid), input.source.node, input.source.slot)
    ensures BindingsFor(n.inputs, Rows(After(defs, db, events), wid), scope).Some?
  {
    var t := Rows(After(defs, db, events), wid);
    forall input | input in n.inputs ensures BindingValue(input.source, t, scope).Some? {
      if input.source.PriorStep? || input.source.AuthorizedDataProbe? {
        DominatorsHaveCompleted(defs, db, events, wid, input.source.node, n.id);
        assert FindCompleted(t, input.source.node).value in t;
      }
    }
    BindingsExistIff(n.inputs, t, scope);
  }

  // ---------------------------------------------------- how a run can be steered along a chain

  /** What decides where runs go: for each node the cardinality its completed run shows. */
  type Choice = NodeId -> Cardinality

  /** The nodes to be completed, and the cardinalities they are to show. */
  datatype Course = Course(steps: seq<NodeId>, choice: Choice)

  /** The edge lets its target run once its source has completed as chosen. */
  predicate Allows(choice: Choice, e: Edge) {
    e.condition.OnCardinality? ==> e.condition.expected == choice(e.source)
  }

  ghost predicate AllowedEdge(w: Workflow, choice: Choice, a: NodeId, b: NodeId) {
    exists e :: e in w.edges && e.source == a && e.target == b && Allows(choice, e)
  }

  /** The node finds what it needs, and shows the cardinality of its data where that matters. */
  ghost predicate Steerable(w: Workflow, m: Node) {
    && Fed(w, m)
    && (Conditional(w, m.id) ==> !m.kind.Complete? && "cardinality" !in SensitiveFields(m.inputs))
  }

  /** A branch shows what its source shows. */
  ghost predicate Follows(w: Workflow, choice: Choice, m: Node) {
    m.kind.CardinalityBranch? && Conditional(w, m.id) ==> choice(m.id) == choice(m.kind.source)
  }

  ghost predicate AllSteerable(w: Workflow, c: Course) {
    && (forall s | s in c.steps :: s in Ids(w.nodes))
    && (forall m | m in w.nodes && m.id in c.steps :: Steerable(w, m) && Follows(w, c.choice, m))
  }

  /** A chain of allowed edges from an entry point over the steps and then to `n`. */
  ghost predicate Chain(w: Workflow, c: Course, n: NodeId) {
    var p := c.steps + [n];
    && IsEntryPoint(w, p[0])
    && (forall i, j | 0 <= i < j < |p| && j == i + 1 :: AllowedEdge(w, c.choice, p[i], p[j]))
    && n in Ids(w.nodes) && AllSteerable(w, c)
  }

  function SlotNames(w: Workflow): set<string> {
    set n, i | n in w.nodes && i in n.inputs && IsSlot(i.source) :: i.source.slot
  }

  /** Output with every slot anybody reads, and with a cardinality. */
  function AnswerOf(w: Workflow, c: Cardinality): Json {
    Object(map k | k in SlotNames(w) + {"cardinality"} :: if k == "cardinality" then String(NameOf(c)) else Null)
  }

  lemma AnswerMember(w: Workflow, m: Node, c: Cardinality, key: string)
    ensures Get(PersistedOutput(m.inputs, AnswerOf(w, c)), key) ==
            if key in SensitiveFields(m.inputs) || key !in SlotNames(w) + {"cardinality"} then None
            else if key == "cardinality" then Some(String(NameOf(c))) else Some(Null)
  {
    PersistedIsClean(m.inputs, AnswerOf(w, c));
  }

  lemma AnswerShows(w: Workflow, m: Node, c: Cardinality, r: Row)
    requires r.output == Some(PersistedOutput(m.inputs, AnswerOf(w, c)))
    requires "cardinality" !in SensitiveFields(m.inputs)
    ensures CardinalityOf(r) == Some(c)
  {
    AnswerMember(w, m, c, "cardinality");
    NamesDiffer();
  }

  lemma AnswerHasSlots(w: Workflow, m: Node, c: Cardinality, slot: string)
    requires SlotIsRead(w, m.id, slot) && slot !in SensitiveFields(m.inputs)
    ensures Get(PersistedOutput(m.inputs, AnswerOf(w, c)), slot).Some?
  {
    AnswerMember(w, m, c, slot);
  }

  /** How a node is steered: one of the course answers at once, any other crashes. */
  function SteeringTurn(w: Workflow, c: Course, id: NodeId): Turn {
    Turn(true, Null, false, 0, if id in c.steps then Produced(AnswerOf(w, c.choice(id)), 0) else Crash, false)
  }

  function Steer(w: Workflow, batch: seq<Node>, c: Course): nat -> Turn {
    (k: nat) => if k < |batch| then SteeringTurn(w, c, batch[k].id) else Turn(false, Null, false, 0, Crash, false)
  }

  ghost predicate RowSteered(w: Workflow, c: Course, r: Row) {
    if r.node in c.steps then
      && r.status.Completed? && r.rows == 0 && r.ms == Some(0) && RowDelivers(w, r)
      && (Conditional(w, r.node) ==> CardinalityOf(r) == Some(c.choice(r.node)))
    else r.status.Running?
  }

  ghost predicate Steered(w: Workflow, c: Course, t: seq<Row>) {
    forall r :: r in t ==> RowSteered(w, c, r)
  }

  lemma SteeredDelivers(w: Workflow, c: Course, t: seq<Row>)
    requires Steered(w, c, t)
    ensures AllDelivered(w, t)
  {
    forall r | r in t ensures RowDelivers(w, r) { assert RowSteered(w, c, r); }
  }

  lemma SteeredShows(w: Workflow, c: Course, t: seq<Row>, id: NodeId)
    requires Steered(w, c, t) && IsCompleted(t, id)
    ensures id in c.steps && (Conditional(w, id) ==> CardinalityFor(t, id) == Some(c.choice(id)))
  {
    assert RowSteered(w, c, FindCompleted(t, id).value);
  }

  /** A completed row of the node, as the course wants it. */
  ghost predicate CompletedAs(w: Workflow, c: Course, n: Node, r: Row) {
    && r.node == n.id && r.status.Completed? && r.rows == 0 && r.ms == Some(0) && Delivers(w, n, r)
    && (Conditional(w, n.id) ==> CardinalityOf(r) == Some(c.choice(n.id)))
  }

  lemma SoleDelivers(w: Workflow, c: Course, n: Node, r: Row)
    requires UniqueIds(w.nodes) && n in w.nodes && n.id in c.steps && CompletedAs(w, c, n, r)
    ensures RowSteered(w, c, r)
  {
    forall m | m in w.nodes && m.id == r.node ensures m == n { SameIdSameNode(w.nodes, m, n); }
  }

  lemma SameIdSameNode(nodes: seq<Node>, m: Node, n: Node)
    requires UniqueIds(nodes) && m in nodes && n in nodes && m.id == n.id
    ensures m == n
  {
  }

  lemma AnsweredAs(w: Workflow, c: Course, n: Node, r: Row)
    requires Steerable(w, n) && r.output == Some(PersistedOutput(n.inputs, AnswerOf(w, c.choice(n.id))))
    requires r.node == n.id && r.status.Completed? && r.rows == 0 && r.ms == Some(0)
    ensures CompletedAs(w, c, n, r)
  {
    if Conditional(w, n.id) { AnswerShows(w, n, c.choice(n.id), r); }
    forall slot | SlotIsRead(w, n.id, slot) && slot !in SensitiveFields(n.inputs)
      ensures Get(r.output.value, slot).Some?
    {
      AnswerHasSlots(w, n, c.choice(n.id), slot);
    }
  }

  lemma DecidedAs(w: Workflow, c: Course, n: Node, r: Row)
    requires Steerable(w, n) && Follows(w, c.choice, n) && n.kind.CardinalityBranch?
    requires r.output == Some(Decision(n, c.choice(n.kind.source)))
    requires r.node == n.id && r.status.Completed? && r.rows == 0 && r.ms == Some(0)
    ensures CompletedAs(w, c, n, r)
  {
    if Conditional(w, n.id) { DecisionReadsBack(n, c.choice(n.kind.source), r); }
  }

  /** What a steered node produces. */
  function SteeredOutput(w: Workflow, c: Course, n: Node): Json {
    match n.kind
    case CardinalityBranch(source, _, _, _) => Object(map["cardinality" := String(NameOf(c.choice(source)))])
    case Complete(_) => Object(map[])
    case _ => AnswerOf(w, c.choice(n.id))
  }

  lemma SteeredResolves(w: Workflow, c: Course, n: Node, base: seq<Row>)
    requires TableInv(w, base) && Steered(w, c, base) && n in w.nodes && IsRunnable(w, n.id, base)
    requires Fed(w, n) && n.id in c.steps
    ensures BindingsFor(n.inputs, base, Null).Some?
    ensures ResolveExecution(w, n, base, SteeringTurn(w, c, n.id)) == Produced(SteeredOutput(w, c, n), 0)
  {
    SteeredDelivers(w, c, base);
    FedIsReady(w, base, n, Null);
    if n.kind.CardinalityBranch? {
      assert CardinalityIsRead(w, n.kind.source);
      SteeredShows(w, c, base, n.kind.source);
    }
  }

  lemma SteeredRowIs(w: Workflow, c: Course, n: Node, r: Row)
    requires Steerable(w, n) && Follows(w, c.choice, n)
    requires r.output == Some(PersistedOutput(n.inputs, SteeredOutput(w, c, n)))
    requires r.node == n.id && r.status.Completed? && r.rows == 0 && r.ms == Some(0)
    ensures CompletedAs(w, c, n, r)
  {
    if n.kind.CardinalityBranch? {
      DecidedAs(w, c, n, r);
    } else if !n.kind.Complete? {
      AnsweredAs(w, c, n, r);
    }
  }

  /** The row a steered node adds. */
  function CourseRow(w: Workflow, c: Course, n: Node, i: nat): Row {
    if n.id in c.steps
    then Completing(RunningRow(i, n.id, 0), PersistedOutput(n.inputs, SteeredOutput(w, c, n)), 0, 0)
    else RunningRow(i, n.id, 0)
  }

  lemma CourseNodeAnswers(w: Workflow, c: Course, n: Node, base: seq<Row>, t: seq<Row>)
    requires TableInv(w, base) && Steered(w, c, base) && n in w.nodes && IsRunnable(w, n.id, base)
    requires Untouched(base, n.id) && Untouched(t, n.id) && n.id in c.steps && Fed(w, n)
    ensures
      var r := CourseRow(w, c, n, |t|);
      ExecuteNode(w, n, base, t, SteeringTurn(w, c, n.id)) == (t + [r], Done(r, n.budget.queryCost))
  {
    UntouchedAttempt(base, n.id);
    SteeredResolves(w, c, n, base);
  }

  lemma OtherNodeCrashes(w: Workflow, c: Course, n: Node, base: seq<Row>, t: seq<Row>)
    requires Untouched(base, n.id) && Untouched(t, n.id) && n.id !in c.steps
    ensures ExecuteNode(w, n, base, t, SteeringTurn(w, c, n.id)) == (t + [CourseRow(w, c, n, |t|)], Errored)
  {
    UntouchedAttempt(base, n.id);
  }

  lemma NodeSteered(w: Workflow, c: Course, n: Node, base: seq<Row>, t: seq<Row>) returns (r: Row, report: Report)
    requires UniqueIds(w.nodes) && AllSteerable(w, c)
    requires TableInv(w, base) && Steered(w, c, base) && n in w.nodes && IsRunnable(w, n.id, base)
    requires Untouched(base, n.id) && Untouched(t, n.id)
    ensures ExecuteNode(w, n, base, t, SteeringTurn(w, c, n.id)) == (t + [r], report)
    ensures r.node == n.id && RowSteered(w, c, r) && !report.Paused?
  {
    r := CourseRow(w, c, n, |t|);
    if n.id in c.steps {
      CourseNodeAnswers(w, c, n, base, t);
      report := Done(r, n.budget.queryCost);
      SteeredRowIs(w, c, n, r);
      SoleDelivers(w, c, n, r);
    } else {
      OtherNodeCrashes(w, c, n, base, t);
      report := Errored;
    }
  }

  ghost predicate WentSteered(w: Workflow, c: Course, n: Node, r: Row) {
    r.node == n.id && RowSteered(w, c, r)
  }

  /** `t` is `base` and then one row of each of the first `i` nodes, as steered. */
  ghost predicate BatchSteered(w: Workflow, c: Course, batch: seq<Node>, base: seq<Row>, t: seq<Row>, i: nat)
    requires i <= |batch|
  {
    && base <= t && |t| == |base| + i
    && (forall k | 0 <= k < i :: WentSteered(w, c, batch[k], t[|base| + k]))
  }

  lemma OneMoreSteered(w: Workflow, c: Course, batch: seq<Node>, base: seq<Row>, t: seq<Row>, r: Row, i: nat)
    requires i < |batch| && BatchSteered(w, c, batch, base, t, i)
    requires WentSteered(w, c, batch[i], r)
    ensures BatchSteered(w, c, batch, base, t + [r], i + 1)
  {
    forall k | 0 <= k < i + 1
      ensures WentSteered(w, c, batch[k], (t + [r])[|base| + k])
    {
      assert (t + [r])[|base| + k] == if k < i then t[|base| + k] else r;
    }
  }

  /** The batch is made of different nodes that may run on these rows. */
  ghost predicate Ready(w: Workflow, batch: seq<Node>, base: seq<Row>) {
    && UniqueIds(batch)
    && (forall k | 0 <= k < |batch| ::
          batch[k] in w.nodes && IsRunnable(w, batch[k].id, base) && Untouched(base, batch[k].id))
  }

  lemma NextIsUntouched(w: Workflow, c: Course, batch: seq<Node>, base: seq<Row>, t: seq<Row>, i: nat)
    requires i < |batch| && Ready(w, batch, base) && BatchSteered(w, c, batch, base, t, i)
    ensures Untouched(t, batch[i].id)
  {
    forall r | r in t ensures r.node != batch[i].id {
      var j :| 0 <= j < |t| && t[j] == r;
      if j < |base| {
        assert r == base[j] && r in base;
      } else {
        assert WentSteered(w, c, batch[j - |base|], t[|base| + (j - |base|)]);
      }
    }
  }

  predicate NobodyAsked(reports: seq<Report>) {
    forall r :: r in reports ==> !r.Paused?
  }

  lemma NobodyElseAsked(reports: seq<Report>, report: Report)
    requires NobodyAsked(reports) && !report.Paused?
    ensures NobodyAsked(reports + [report])
  {
  }

  /** The first `i` nodes of the batch have gone as steered. */
  ghost predicate WentAsSteered(w: Workflow, c: Course, batch: seq<Node>, base: seq<Row>, done: (seq<Row>, seq<Report>),
                                i: nat)
    requires i <= |batch|
  {
    BatchSteered(w, c, batch, base, done.0, i) && NobodyAsked(done.1)
  }

  /** The batch may run on these rows, and the turns steer it. */
  ghost predicate Steering(w: Workflow, c: Course, batch: seq<Node>, base: seq<Row>, turns: nat -> Turn) {
    && UniqueIds(w.nodes) && AllSteerable(w, c)
    && TableInv(w, base) && Steered(w, c, base) && Ready(w, batch, base)
    && (forall k: nat :: k < |batch| ==> turns(k) == SteeringTurn(w, c, batch[k].id))
  }

  lemma NextSteered(w: Workflow, c: Course, batch: seq<Node>, base: seq<Row>, turns: nat -> Turn, i: nat, t: seq<Row>,
                    reports: seq<Report>) returns (r: Row, report: Report)
    requires i < |batch| && Steering(w, c, batch, base, turns)
    requires WentAsSteered(w, c, batch, base, (t, reports), i)
    ensures ExecuteNode(w, batch[i], base, t, turns(i)) == (t + [r], report)
    ensures WentAsSteered(w, c, batch, base, (t + [r], reports + [report]), i + 1)
  {
    NextIsUntouched(w, c, batch, base, t, i);
    r, report := NodeSteered(w, c, batch[i], base, t);
    OneMoreSteered(w, c, batch, base, t, r, i);
    NobodyElseAsked(reports, report);
  }

  lemma SteeredStep(w: Workflow, c: Course, batch: seq<Node>, base: seq<Row>, turns: nat -> Turn, i: nat, t: seq<Row>,
                    reports: seq<Report>)
    requires 0 < i <= |batch| && Steering(w, c, batch, base, turns)
    requires ExecuteBatch(w, batch, base, turns, i - 1) == (t, reports)
    requires WentAsSteered(w, c, batch, base, (t, reports), i - 1)
    ensures WentAsSteered(w, c, batch, base, ExecuteBatch(w, batch, base, turns, i), i)
  {
    var r, report := NextSteered(w, c, batch, base, turns, i - 1, t, reports);
    BatchStep(w, batch, base, turns, i, t, reports, t + [r], report);
  }

  lemma NothingSteered(w: Workflow, c: Course, batch: seq<Node>, base: seq<Row>, turns: nat -> Turn)
    ensures WentAsSteered(w, c, batch, base, ExecuteBatch(w, batch, base, turns, 0), 0)
  {
  }

  lemma {:induction false} SteerBatch(w: Workflow, c: Course, batch: seq<Node>, base: seq<Row>, turns: nat -> Turn,
                                      i: nat)
    requires i <= |batch| && Steering(w, c, batch, base, turns)
    ensures WentAsSteered(w, c, batch, base, ExecuteBatch(w, batch, base, turns, i), i)
  {
    if i == 0 {
      NothingSteered(w, c, batch, base, turns);
    } else {
      SteerBatch(w, c, batch, base, turns, i - 1);
      var (t, reports) := ExecuteBatch(w, batch, base, turns, i - 1);
      SteeredStep(w, c, batch, base, turns, i, t, reports);
    }
  }

  lemma SteeredRunnable(w: Workflow, c: Course, t: seq<Row>, n: NodeId)
    requires Steered(w, c, t) && IsRunnable(w, n, t)
    ensures Untouched(t, n)
  {
    forall r | r in t ensures r.node != n {
      assert RowSteered(w, c, r);
    }
  }

  lemma SteeredWithin(w: Workflow, c: Course, t: seq<Row>)
    requires AllSteerable(w, c) && Steered(w, c, t)
    ensures AllWithin(w, t)
  {
    forall r | r in t ensures WithinDeclared(w, r) { assert RowSteered(w, c, r); }
  }

  /** While anything is runnable, a batch of a workflow that fits its caps is not empty. */
  lemma SomethingStarts(w: Workflow, c: Course, t: seq<Row>)
    requires FitsCaps(w) && AllSteerable(w, c) && WellKept(t) && Steered(w, c, t) && RunnableNodes(w, t) != []
    ensures SelectBatch(w, FromCompleted(w, t), t) != [] && Ready(w, SelectBatch(w, FromCompleted(w, t), t), t)
  {
    SteeredWithin(w, c, t);
    WellKeptCompletedLast(t);
    NeverStarved(w, t);
    RunnableDistinct(w, w.nodes, t);
    FirstOfBatchRunnable(w, FromCompleted(w, t), t);
    var batch, ready := SelectBatch(w, FromCompleted(w, t), t), RunnableNodes(w, t);
    assert forall i | 0 <= i < |batch| :: batch[i] == ready[i];
    forall k | 0 <= k < |batch| ensures batch[k] in w.nodes && Untouched(t, batch[k].id) {
      assert batch[k] in batch;
      SteeredRunnable(w, c, t, batch[k].id);
    }
  }

  function SteeringTurns(w: Workflow, c: Course, t: seq<Row>): nat -> Turn {
    Steer(w, SelectBatch(w, FromCompleted(w, t), t), c)
  }

  /** After a steered batch: more rows, all as steered, and none for a node that was not runnable. */
  ghost predicate SteeredFurther(w: Workflow, c: Course, a: seq<Row>, b: seq<Row>, n: NodeId) {
    && Steered(w, c, b) && a <= b
    && (Untouched(a, n) && !IsRunnable(w, n, a) ==> Untouched(b, n))
    && (exists m :: m in w.nodes && Untouched(a, m.id) && !Untouched(b, m.id))
  }

  lemma NobodyPaused(reports: seq<Report>)
    requires NobodyAsked(reports)
    ensures FirstPaused(reports).None?
  {
  }

  lemma FurtherBatch(w: Workflow, c: Course, batch: seq<Node>, a: seq<Row>, b: seq<Row>, n: NodeId)
    requires Steered(w, c, a) && BatchSteered(w, c, batch, a, b, |batch|) && batch != [] && Ready(w, batch, a)
    ensures SteeredFurther(w, c, a, b, n)
  {
    assert WentSteered(w, c, batch[0], b[|a| + 0]) && b[|a|] in b;
    assert batch[0] in w.nodes && Untouched(a, batch[0].id) && !Untouched(b, batch[0].id);
    forall r | r in b ensures RowSteered(w, c, r) && (r in a || IsRunnable(w, r.node, a)) {
      var j :| 0 <= j < |b| && b[j] == r;
      if j < |a| {
        assert r == a[j];
      } else {
        assert WentSteered(w, c, batch[j - |a|], b[|a| + (j - |a|)]);
      }
    }
  }

  lemma SteeredBatch(w: Workflow, c: Course, t: seq<Row>, n: NodeId)
    requires FitsCaps(w) && AllSteerable(w, c) && TableInv(w, t) && Steered(w, c, t) && RunnableNodes(w, t) != []
    ensures
      var batch := SelectBatch(w, FromCompleted(w, t), t);
      var (b, reports) := ExecuteBatch(w, batch, t, SteeringTurns(w, c, t), |batch|);
      SteeredFurther(w, c, t, b, n) && FirstPaused(reports).None?
  {
    var batch := SelectBatch(w, FromCompleted(w, t), t);
    SomethingStarts(w, c, t);
    SteerBatch(w, c, batch, t, SteeringTurns(w, c, t), |batch|);
    var (b, reports) := ExecuteBatch(w, batch, t, SteeringTurns(w, c, t), |batch|);
    NobodyPaused(reports);
    FurtherBatch(w, c, batch, t, b, n);
  }

  lemma SteeredIteration(db: Db, w: Workflow, user: nat, c: Course, n: NodeId)
    requires FitsCaps(w) && AllSteerable(w, c)
    requires TableInv(w, Rows(db, w.id)) && Steered(w, c, Rows(db, w.id)) && RunnableNodes(w, Rows(db, w.id)) != []
    ensures
      var t := Rows(db, w.id);
      var step := Iterate(db, w, user, FromCompleted(w, t), SteeringTurns(w, c, t));
      SteeredFurther(w, c, t, Rows(step.db, w.id), n)
  {
    var t := Rows(db, w.id);
    var batch := SelectBatch(w, FromCompleted(w, t), t);
    SomethingStarts(w, c, t);
    SteeredBatch(w, c, t, n);
    var (b, reports) := ExecuteBatch(w, batch, t, SteeringTurns(w, c, t), |batch|);
    SettledRows(WithRows(db, w.id, b), w, user, FromCompleted(w, t), reports);
  }

  /** How many listed nodes were never started. */
  function Unseen(nodes: seq<Node>, t: seq<Row>): nat {
    if nodes == [] then 0 else Unseen(nodes[1..], t) + if Untouched(t, nodes[0].id) then 1 else 0
  }

  lemma {:induction false} UnseenShrinks(nodes: seq<Node>, a: seq<Row>, b: seq<Row>, m: Node)
    requires a <= b
    ensures Unseen(nodes, b) <= Unseen(nodes, a)
    ensures m in nodes && Untouched(a, m.id) && !Untouched(b, m.id) ==> Unseen(nodes, b) < Unseen(nodes, a)
  {
    if nodes != [] {
      UnseenShrinks(nodes[1..], a, b, m);
      assert Untouched(b, nodes[0].id) ==> Untouched(a, nodes[0].id);
    }
  }

  lemma StepCompleted(w: Workflow, c: Course, t: seq<Row>, id: NodeId)
    requires Steered(w, c, t) && id in c.steps && !Untouched(t, id)
    ensures IsCompleted(t, id)
  {
    var r :| r in t && r.node == id;
    assert RowSteered(w, c, r);
  }

  /** The first step of the chain that was not started is runnable. */
  lemma ChainGoesOn(w: Workflow, c: Course, n: NodeId, t: seq<Row>) returns (i: nat)
    requires Chain(w, c, n) && Steered(w, c, t) && Untouched(t, n)
    ensures i <= |c.steps| && IsRunnable(w, (c.steps + [n])[i], t)
  {
    var p := c.steps + [n];
    i := 0;
    while !Untouched(t, p[i])
      invariant i <= |c.steps|
      invariant forall k | 0 <= k < i :: !Untouched(t, p[k])
      decreases |c.steps| - i
    {
      i := i + 1;
    }
    if i > 0 {
      assert p[i - 1] in c.steps && AllowedEdge(w, c.choice, p[i - 1], p[i]);
      var e :| e in w.edges && e.source == p[i - 1] && e.target == p[i] && Allows(c.choice, e);
      StepCompleted(w, c, t, p[i - 1]);
      SteeredShows(w, c, t, p[i - 1]);
      assert IsSatisfied(e, t);
    }
  }

  lemma RunnableListed(w: Workflow, n: NodeId, t: seq<Row>)
    requires IsRunnable(w, n, t) && n in Ids(w.nodes)
    ensures RunnableNodes(w, t) != []
  {
    var m :| m in w.nodes && m.id == n;
    assert m in RunnableNodes(w, t);
  }

  /** One more steered iteration, while the end of the chain is not yet runnable. */
  lemma SteerOnce(defs: Definitions, now: Db, wid: WorkflowId, c: Course, n: NodeId) returns (e: Event)
    requires Coherent(defs) && wid in defs && FitsCaps(defs[wid]) && Chain(defs[wid], c, n)
    requires TableInv(defs[wid], Rows(now, wid)) && Steered(defs[wid], c, Rows(now, wid))
    requires Untouched(Rows(now, wid), n)
    ensures SteeredFurther(defs[wid], c, Rows(now, wid), Rows(Apply(defs, now, e), wid), n)
  {
    var w, t := defs[wid], Rows(now, wid);
    var i := ChainGoesOn(w, c, n, t);
    assert (c.steps + [n])[i] in Ids(w.nodes);
    RunnableListed(w, (c.steps + [n])[i], t);
    SteeredIteration(now, w, 0, c, n);
    e := Iterated(wid, 0, FromCompleted(w, t), SteeringTurns(w, c, t));
  }

  lemma FurtherIsLess(w: Workflow, c: Course, a: seq<Row>, b: seq<Row>, n: NodeId)
    requires SteeredFurther(w, c, a, b, n)
    ensures Unseen(w.nodes, b) < Unseen(w.nodes, a)
  {
    var m :| m in w.nodes && Untouched(a, m.id) && !Untouched(b, m.id);
    UnseenShrinks(w.nodes, a, b, m);
  }

  lemma AfterOneMore(defs: Definitions, db: Db, events: seq<Event>, e: Event)
    ensures After(defs, db, events + [e]) == Apply(defs, After(defs, db, events), e)
  {
    assert (events + [e])[..|events|] == events;
  }

  /**
   * If a chain of edges allowed by some choice of cardinalities leads to a node and the budget
   * admits it, some history makes the node runnable while nothing outside the chain has
   * completed.
   */
  lemma {:induction false} SteerTo(defs: Definitions, db: Db, events: seq<Event>, wid: WorkflowId, c: Course, n: NodeId)
      returns (all: seq<Event>)
    requires Coherent(defs) && Initial(db) && wid in defs && FitsCaps(defs[wid]) && Chain(defs[wid], c, n)
    requires Steered(defs[wid], c, Rows(After(defs, db, events), wid))
    requires Untouched(Rows(After(defs, db, events), wid), n)
    ensures IsRunnable(defs[wid], n, Rows(After(defs, db, all), wid))
    ensures Steered(defs[wid], c, Rows(After(defs, db, all), wid))
    decreases Unseen(defs[wid].nodes, Rows(After(defs, db, events), wid))
  {
    var now := After(defs, db, events);
    if IsRunnable(defs[wid], n, Rows(now, wid)) {
      all := events;
    } else {
      HistoryKeepsInvariant(defs, db, events);
      var e := SteerOnce(defs, now, wid, c, n);
      AfterOneMore(defs, db, events, e);
      FurtherIsLess(defs[wid], c, Rows(now, wid), Rows(Apply(defs, now, e), wid), n);
      all := SteerTo(defs, db, events + [e], wid, c, n);
    }
  }

  // ---------------------------------------------------------- both directions, by chosen paths

  /** The nodes some edge leaves. */
  function Sources(w: Workflow): set<NodeId> {
    set e | e in w.edges :: e.source
  }

  /**
   * The workflow fits its caps, and every node that something follows finds what it needs and
   * shows its cardinality where that matters; its last nodes may read what they like.
   */
  ghost predicate Tame(w: Workflow) {
    && FitsCaps(w) && EdgesKnown(w)
    && (forall m :: m in w.nodes && m.id in Sources(w) ==> Steerable(w, m))
  }

  /** A path from an entry point over edges the choice allows; branches on it follow their sources. */
  ghost predicate ChosenPath(w: Workflow, choice: Choice, p: seq<NodeId>) {
    && |p| > 0 && IsEntryPoint(w, p[0])
    && (forall i, j | 0 <= i < j < |p| && j == i + 1 :: AllowedEdge(w, choice, p[i], p[j]))
    && (forall m | m in w.nodes && m.id in p[..|p| - 1] :: Follows(w, choice, m))
  }

  /** `d` is on every path to `n` that some choice of cardinalities allows. */
  ghost predicate DominatesByChoice(w: Workflow, d: NodeId, n: NodeId) {
    forall choice: Choice, p | ChosenPath(w, choice, p) && p[|p| - 1] == n :: d in p
  }

  /** The part of a path before the first time it comes to `n`. */
  lemma BeforeFirst(w: Workflow, choice: Choice, p: seq<NodeId>, n: NodeId) returns (steps: seq<NodeId>)
    requires ChosenPath(w, choice, p) && p[|p| - 1] == n
    ensures ChosenPath(w, choice, steps + [n]) && n !in steps
    ensures forall m :: m in steps ==> m in p
  {
    var i := 0;
    while p[i] != n
      invariant i < |p|
      invariant forall k | 0 <= k < i :: p[k] != n
      decreases |p| - i
    {
      i := i + 1;
    }
    steps := p[..i];
    var q := steps + [n];
    assert q == p[..i + 1] && q[..|q| - 1] == steps;
    forall k, l | 0 <= k < l < |q| && l == k + 1 ensures AllowedEdge(w, choice, q[k], q[l]) {
      assert AllowedEdge(w, choice, p[k], p[l]);
    }
    forall m | m in w.nodes && m.id in steps ensures Follows(w, choice, m) {
      assert m.id in p[..|p| - 1];
    }
  }

  lemma PathIsChain(w: Workflow, choice: Choice, steps: seq<NodeId>, n: NodeId)
    requires Tame(w) && n in Ids(w.nodes) && ChosenPath(w, choice, steps + [n])
    ensures Chain(w, Course(steps, choice), n)
  {
    var p := steps + [n];
    assert p[..|p| - 1] == steps;
    forall s | s in steps ensures s in Sources(w) && s in Ids(w.nodes) {
      var i :| 0 <= i < |steps| && steps[i] == s;
      assert AllowedEdge(w, choice, p[i], p[i + 1]);
      var e :| e in w.edges && e.source == p[i] && e.target == p[i + 1];
    }
  }

  /** `d` has completed whenever `n` may run, in every history. */
  ghost predicate AlwaysAfter(defs: Definitions, db: Db, wid: WorkflowId, d: NodeId, n: NodeId)
    requires wid in defs
  {
    forall events: seq<Event> ::
      IsRunnable(defs[wid], n, Rows(After(defs, db, events), wid)) ==>
          IsCompleted(Rows(After(defs, db, events), wid), d)
  }

  lemma NotOnCourse(w: Workflow, c: Course, t: seq<Row>, d: NodeId)
    requires Steered(w, c, t) && d !in c.steps
    ensures !IsCompleted(t, d)
  {
    if IsCompleted(t, d) { SteeredShows(w, c, t, d); }
  }

  lemma AvoidingHistory(defs: Definitions, db: Db, wid: WorkflowId, choice: Choice, p: seq<NodeId>, d: NodeId,
                        n: NodeId)
      returns (events: seq<Event>)
    requires Coherent(defs) && Initial(db) && wid in defs && Tame(defs[wid]) && n in Ids(defs[wid].nodes)
    requires ChosenPath(defs[wid], choice, p) && p[|p| - 1] == n && d !in p
    ensures IsRunnable(defs[wid], n, Rows(After(defs, db, events), wid))
    ensures !IsCompleted(Rows(After(defs, db, events), wid), d)
  {
    var steps := BeforeFirst(defs[wid], choice, p, n);
    PathIsChain(defs[wid], choice, steps, n);
    assert Rows(After(defs, db, []), wid) == [];
    events := SteerTo(defs, db, [], wid, Course(steps, choice), n);
    NotOnCourse(defs[wid], Course(steps, choice), Rows(After(defs, db, events), wid), d);
  }

  /** The choice that completed rows have made. */
  function Made(t: seq<Row>): Choice {
    id => match CardinalityFor(t, id) case Some(c) => c case None => Zero
  }

  lemma FiredIsAllowed(w: Workflow, t: seq<Row>, a: NodeId, b: NodeId)
    requires Fired(w, t, a, b)
    ensures AllowedEdge(w, Made(t), a, b)
  {
    var e :| e in w.edges && e.source == a && e.target == b && IsSatisfied(e, t);
    assert Allows(Made(t), e);
  }

  lemma CompletedFollows(defs: Definitions, db: Db, events: seq<Event>, wid: WorkflowId, m: Node)
    requires Coherent(defs) && Initial(db) && wid in defs && UniqueIds(defs[wid].nodes)
    requires m in defs[wid].nodes && Steerable(defs[wid], m) && IsCompleted(Rows(After(defs, db, events), wid), m.id)
    ensures Follows(defs[wid], Made(Rows(After(defs, db, events), wid)), m)
  {
    if m.kind.CardinalityBranch? && Conditional(defs[wid], m.id) {
      forall o | o in defs[wid].nodes && o.id == m.id ensures o == m { SameIdSameNode(defs[wid].nodes, o, m); }
      BranchFollowsSource(defs, db, events, wid, m);
    }
  }

  /** What supports a node in a reachable state is a path that the stored runs have chosen. */
  lemma SupportIsChosen(defs: Definitions, db: Db, events: seq<Event>, wid: WorkflowId, p: seq<NodeId>)
    requires Coherent(defs) && Initial(db) && wid in defs && Tame(defs[wid])
    requires SupportPath(defs[wid], Rows(After(defs, db, events), wid), p)
    ensures ChosenPath(defs[wid], Made(Rows(After(defs, db, events), wid)), p)
  {
    var w, t := defs[wid], Rows(After(defs, db, events), wid);
    SupportIsCompleted(w, t, p);
    forall i, j | 0 <= i < j < |p| && j == i + 1 ensures AllowedEdge(w, Made(t), p[i], p[j]) {
      assert Fired(w, t, p[i], p[j]);
      FiredIsAllowed(w, t, p[i], p[j]);
    }
    forall m | m in w.nodes && m.id in p[..|p| - 1] ensures Follows(w, Made(t), m) {
      var i :| 0 <= i < |p| - 1 && p[i] == m.id;
      assert Fired(w, t, p[i], p[i + 1]);
      var e :| e in w.edges && e.source == p[i] && e.target == p[i + 1];
      CompletedFollows(defs, db, events, wid, m);
    }
  }

  lemma ChosenDominatorCompleted(defs: Definitions, db: Db, events: seq<Event>, wid: WorkflowId, d: NodeId, n: NodeId)
    requires Coherent(defs) && Initial(db) && wid in defs && Tame(defs[wid])
    requires DominatesByChoice(defs[wid], d, n) && d != n
    requires IsRunnable(defs[wid], n, Rows(After(defs, db, events), wid))
    ensures IsCompleted(Rows(After(defs, db, events), wid), d)
  {
    HistoryKeepsInvariant(defs, db, events);
    var w, t := defs[wid], Rows(After(defs, db, events), wid);
    StartedIsSupported(w, t, n);
    var p :| SupportPath(w, t, p) && p[|p| - 1] == n;
    SupportIsChosen(defs, db, events, wid, p);
    SupportIsCompleted(w, t, p);
    var i :| 0 <= i < |p| && p[i] == d;
  }

  /**
   * A node has always completed when another may run if and only if it is on every path there
   * that some choice of cardinalities allows, one per node and shared by all edges and branches.
   */
  lemma AlwaysAfterIff(defs: Definitions, db: Db, wid: WorkflowId, d: NodeId, n: NodeId)
    requires Coherent(defs) && Initial(db) && wid in defs && Tame(defs[wid]) && n in Ids(defs[wid].nodes) && d != n
    ensures AlwaysAfter(defs, db, wid, d, n) <==> DominatesByChoice(defs[wid], d, n)
  {
    var w := defs[wid];
    if DominatesByChoice(w, d, n) {
      forall events: seq<Event> | IsRunnable(w, n, Rows(After(defs, db, events), wid))
        ensures IsCompleted(Rows(After(defs, db, events), wid), d)
      {
        ChosenDominatorCompleted(defs, db, events, wid, d, n);
      }
    } else {
      var choice: Choice, p :| ChosenPath(w, choice, p) && p[|p| - 1] == n && d !in p;
      var events := AvoidingHistory(defs, db, wid, choice, p, d, n);
    }
  }

  lemma ChosenIsEdgePath(w: Workflow, choice: Choice, p: seq<NodeId>)
    requires ChosenPath(w, choice, p)
    ensures EdgePath(w, p)
  {
    forall i, j | 0 <= i < j < |p| && j == i + 1 ensures HasEdge(w, p[i], p[j]) {
      assert AllowedEdge(w, choice, p[i], p[j]);
    }
  }

  lemma FreeEdgePathIsChosen(w: Workflow, p: seq<NodeId>)
    requires (forall e :: e in w.edges ==> !e.condition.OnCardinality?) && EdgePath(w, p)
    ensures ChosenPath(w, id => Zero, p)
  {
    forall i, j | 0 <= i < j < |p| && j == i + 1 ensures AllowedEdge(w, id => Zero, p[i], p[j]) {
      assert HasEdge(w, p[i], p[j]);
      var e :| e in w.edges && e.source == p[i] && e.target == p[j];
      assert Allows(id => Zero, e);
    }
  }

  /** Choices only ever take paths away, and without cardinality conditions they take none. */
  lemma DominanceByChoice(w: Workflow, d: NodeId, n: NodeId)
    ensures Dominates(w, d, n) ==> DominatesByChoice(w, d, n)
    ensures (forall e :: e in w.edges ==> !e.condition.OnCardinality?) ==>
              (DominatesByChoice(w, d, n) <==> Dominates(w, d, n))
  {
    forall choice: Choice, p | ChosenPath(w, choice, p) && p[|p| - 1] == n ensures EdgePath(w, p) {
      ChosenIsEdgePath(w, choice, p);
    }
    if forall e :: e in w.edges ==> !e.condition.OnCardinality? {
      forall p | EdgePath(w, p) && p[|p| - 1] == n ensures ChosenPath(w, id => Zero, p) {
        FreeEdgePathIsChosen(w, p);
      }
    }
  }

  /** A consumer started in such a state has no bindings: the run ends in an error. */
  lemma UnsureProducerIsMissed(defs: Definitions, db: Db, wid: WorkflowId, input: NodeInput, n: Node, scope: Json)
      returns (events: seq<Event>)
    requires Coherent(defs) && Initial(db) && wid in defs && Tame(defs[wid]) && n in defs[wid].nodes
    requires input in n.inputs && IsSlot(input.source) && !DominatesByChoice(defs[wid], input.source.node, n.id)
    ensures IsRunnable(defs[wid], n.id, Rows(After(defs, db, events), wid))
    ensures BindingsFor(n.inputs, Rows(After(defs, db, events), wid), scope).None?
  {
    var choice: Choice, p :|
      ChosenPath(defs[wid], choice, p) && p[|p| - 1] == n.id && input.source.node !in p;
    events := AvoidingHistory(defs, db, wid, choice, p, input.source.node, n.id);
    BindingsExistIff(n.inputs, Rows(After(defs, db, events), wid), scope);
  }
}
