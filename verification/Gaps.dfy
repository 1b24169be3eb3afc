/**
 * Two workflows the verifier accepts although the runner cannot carry them out: the gap
 * between wrapping and exact sums, and the gap between AND-waves and OR-scheduling.
 */
module Gaps {
  import opened Wrappers
  import opened Json
  import opened Contract
  import opened Catalogs
  import opened Graphs
  import opened Waves
  import opened Scheduler
  import opened Ledger
  import opened Store
  import opened Runner
  import opened Verifier

  const NOBODY := Principal(false, {})
  const EMPTY := Catalog([], [], [], map[])

  function Bare(id: NodeId, kind: NodeKind, inputs: seq<NodeInput>, outputs: seq<OutputSlot>, timeoutMs: u64): Node {
    Node(id, kind, inputs, outputs, NodePolicy(None, PublicBusiness, false), NodeBudget(timeoutMs, 0, 0), Replayable)
  }

  const QUERY := ExecuteQuery(None, None, None, None, None)
  const DONE := Complete(Success)

  /** A node without resources, cost or policy passes unless its inputs do not. */
  lemma BareNodePasses(n: Node, w: Workflow, order: seq<NodeId>)
    requires n.kind == QUERY || n.kind == DONE
    requires n.policy == NodePolicy(None, PublicBusiness, false) && n.budget.queryCost == 0
    requires forall o :: o in n.outputs ==> o.sensitivity == PublicBusiness
    requires CheckInputs(n.inputs, n, w, order, EMPTY).None?
    ensures CheckNode(n, w, order, NOBODY, EMPTY).None?
  {
  }

  lemma {:induction false} AllPass(nodes: seq<Node>, w: Workflow, order: seq<NodeId>)
    requires forall n :: n in nodes ==> CheckNode(n, w, order, NOBODY, EMPTY).None?
    ensures CheckNodes(nodes, w, order, NOBODY, EMPTY).None?
  {
    if nodes != [] {
      assert nodes[0] in nodes;
      AllPass(nodes[1..], w, order);
    }
  }

  // ------------------------------------------------------------------ wrapping sums

  const HALF: u64 := 0x8000_0000_0000_0000

  /** Two nodes of 2^63 ms each under a shared cap of one second. */
  function WrappingFlow(a: NodeId, c: NodeId): Workflow {
    Workflow(1, [Bare(a, QUERY, [], [], HALF), Bare(c, DONE, [], [], HALF)], [Edge(a, c, Always)],
             Budgets(1000, 10, 5, 1), FailFast, OutputContract(false, PublicBusiness))
  }

  function Pair(a: NodeId, c: NodeId): Graph {
    Graph([a, c], [(a, c)])
  }

  lemma PairOrder(a: NodeId, c: NodeId)
    requires a != c
    ensures WellFormed(Pair(a, c)) && !Cyclic(Pair(a, c))
    ensures EntrySet(Pair(a, c)) == {a} && IsTopological(Pair(a, c), [a, c])
  {
    RankedIsAcyclic(Pair(a, c), n => if n == a then 0 else 1);
    assert (a, c) in Pair(a, c).arcs;
  }

  lemma PairWidth(a: NodeId, c: NodeId)
    requires a != c
    ensures WidthFrom(Pair(a, c), {}, 0) == 1
  {
    var g := Pair(a, c);
    assert (a, c) in g.arcs;
    ReadySingle(g.nodes, g.arcs, {}, a);
    ReadySingle(g.nodes, g.arcs, {a}, c);
    NothingReady(g.nodes, g.arcs, {a, c});
    assert {} + Elements([a]) == {a} && {a} + Elements([c]) == {a, c};
    assert WidthFrom(g, {a, c}, 1) == 1;
    assert WidthFrom(g, {a}, 1) == 1;
  }

  lemma WrappingGraph(a: NodeId, c: NodeId)
    requires a != c
    ensures GraphOf(WrappingFlow(a, c)) == Pair(a, c)
    ensures UniqueIds(WrappingFlow(a, c).nodes) && EdgesKnown(WrappingFlow(a, c))
  {
    var w := WrappingFlow(a, c);
    assert w.nodes[0] in w.nodes && w.nodes[1] in w.nodes;
    ArcsOfKnownEdges(w.edges, Ids(w.nodes));
  }

  lemma DeclaredPair(x: Node, y: Node)
    ensures Declared([x, y]) == Plus(Plus(ZERO, x.budget), y.budget)
  {
    DeclaredOne(x);
    DeclaredLast([x], y);
    assert [x] + [y] == [x, y];
  }

  lemma WrappingShape(a: NodeId, c: NodeId)
    requires a != c
    ensures WellShaped(WrappingFlow(a, c)) && IsTopological(GraphOf(WrappingFlow(a, c)), [a, c])
  {
    var w := WrappingFlow(a, c);
    WrappingGraph(a, c);
    PairOrder(a, c);
    PairWidth(a, c);
    ReachabilityTestIsRedundant(w);
    assert w.nodes[1] in w.nodes;
    DeclaredPair(w.nodes[0], w.nodes[1]);
  }

  lemma WrappingAccepted(a: NodeId, c: NodeId)
    requires a != c
    ensures Accepted(WrappingFlow(a, c), NOBODY, EMPTY, [a, c])
  {
    var w := WrappingFlow(a, c);
    WrappingShape(a, c);
    BareNodePasses(w.nodes[0], w, [a, c]);
    BareNodePasses(w.nodes[1], w, [a, c]);
    AllPass(w.nodes, w, [a, c]);
    ShapeAndChecksAccept(w, NOBODY, EMPTY, [a, c]);
  }

  lemma NothingAdmitted(a: NodeId, c: NodeId)
    requires a != c
    ensures RunnableNodes(WrappingFlow(a, c), []) != [] && SelectBatch(WrappingFlow(a, c), ZERO, []) == []
  {
    var w := WrappingFlow(a, c);
    assert w.edges[0] in w.edges;
    assert IsRunnable(w, a, []);
    assert RunnableNodes(w, [])[0] == w.nodes[0];
    assert Candidates(w, [])[0] == w.nodes[0];
    assert WouldExceed(ZERO, w.budgets, w.nodes[0].budget);
  }

  /**
   * Two timeouts of 2^63 ms add up to zero: the verifier accepts them under a cap of one
   * second, and the runner then refuses to start anything at all.
   */
  lemma AcceptedYetStarved(a: NodeId, c: NodeId, db: Db, user: nat, turns: nat -> nat -> Turn)
    requires a != c && Rows(db, WrappingFlow(a, c).id) == []
    ensures Accepted(WrappingFlow(a, c), NOBODY, EMPTY, [a, c])
    ensures RunStateless(db, WrappingFlow(a, c), user, turns, 0) == RunResult(db, RunOutcome.Failed, 1)
  {
    WrappingAccepted(a, c);
    NothingAdmitted(a, c);
  }

  // ------------------------------------------------- AND-waves against OR-scheduling

  /** The consumer `b` has an edge from its producer `a`, and another from the entry `e`. */
  function ShortcutFlow(e: NodeId, b: NodeId, a: NodeId): Workflow {
    Workflow(2, [Entry(e), Consumer(b, a), Producer(a)], ShortcutEdges(e, b, a),
             Budgets(1000, 10, 5, 1), FailFast, OutputContract(false, PublicBusiness))
  }

  function Entry(e: NodeId): Node {
    Bare(e, QUERY, [], [], 1)
  }

  function Consumer(b: NodeId, a: NodeId): Node {
    Bare(b, DONE, [NodeInput("p", IntegerType, PriorStep(a, "s"))], [], 1)
  }

  function Producer(a: NodeId): Node {
    Bare(a, QUERY, [], [OutputSlot("s", IntegerType, PublicBusiness)], 1)
  }

  function ShortcutEdges(e: NodeId, b: NodeId, a: NodeId): seq<Edge> {
    [Edge(e, a, Always), Edge(a, b, Always), Edge(e, b, Always)]
  }

  function Shortcut(e: NodeId, b: NodeId, a: NodeId): Graph {
    Graph([e, b, a], [(e, a), (a, b), (e, b)])
  }

  lemma ShortcutIds(e: NodeId, b: NodeId, a: NodeId)
    requires e != b && e != a && b != a
    ensures UniqueIds(ShortcutFlow(e, b, a).nodes) && NodeIds(ShortcutFlow(e, b, a).nodes) == [e, b, a]
    ensures Ids(ShortcutFlow(e, b, a).nodes) == {e, b, a}
  {
    var nodes := ShortcutFlow(e, b, a).nodes;
    assert nodes[0].id == e && nodes[1].id == b && nodes[2].id == a;
    assert NodeIds(nodes) == [e, b, a];
    assert forall n :: n in Ids(nodes) <==> n in NodeIds(nodes);
  }

  lemma ShortcutEdgeList(e: NodeId, b: NodeId, a: NodeId)
    ensures forall x :: x in ShortcutEdges(e, b, a) <==>
              x == Edge(e, a, Always) || x == Edge(a, b, Always) || x == Edge(e, b, Always)
  {
  }

  lemma ShortcutArcs(e: NodeId, b: NodeId, a: NodeId)
    ensures Arcs(ShortcutEdges(e, b, a), {e, b, a}) == [(e, a), (a, b), (e, b)]
  {
    ShortcutEdgeList(e, b, a);
    ArcsOfKnownEdges(ShortcutEdges(e, b, a), {e, b, a});
  }

  lemma ShortcutGraph(e: NodeId, b: NodeId, a: NodeId)
    requires e != b && e != a && b != a
    ensures GraphOf(ShortcutFlow(e, b, a)) == Shortcut(e, b, a)
  {
    ShortcutIds(e, b, a);
    ShortcutArcs(e, b, a);
    var w := ShortcutFlow(e, b, a);
    assert NodeIds(w.nodes) == [e, b, a] && Ids(w.nodes) == {e, b, a};
  }

  lemma ShortcutEdgesKnown(e: NodeId, b: NodeId, a: NodeId)
    requires e != b && e != a && b != a
    ensures EdgesKnown(ShortcutFlow(e, b, a))
  {
  }

  lemma ShortcutOrder(e: NodeId, b: NodeId, a: NodeId)
    requires e != b && e != a && b != a
    ensures WellFormed(Shortcut(e, b, a)) && !Cyclic(Shortcut(e, b, a))
    ensures EntrySet(Shortcut(e, b, a)) == {e} && IsTopological(Shortcut(e, b, a), [e, a, b])
  {
    var g := Shortcut(e, b, a);
    RankedIsAcyclic(g, n => if n == e then 0 else if n == a then 1 else 2);
    assert g.arcs[0] in g.arcs && g.arcs[1] in g.arcs;
  }

  lemma ShortcutReady(e: NodeId, b: NodeId, a: NodeId)
    requires e != b && e != a && b != a
    ensures Ready([e, b, a], Shortcut(e, b, a).arcs, {}) == [e]
    ensures Ready([e, b, a], Shortcut(e, b, a).arcs, {e}) == [a]
    ensures Ready([e, b, a], Shortcut(e, b, a).arcs, {e, a}) == [b]
  {
    var nodes, arcs := [e, b, a], Shortcut(e, b, a).arcs;
    assert arcs[0] in arcs && arcs[1] in arcs && arcs[2] in arcs;
    ReadySingle(nodes, arcs, {}, e);
    ReadySingle(nodes, arcs, {e}, a);
    ReadySingle(nodes, arcs, {e, a}, b);
  }

  lemma ShortcutWidth(e: NodeId, b: NodeId, a: NodeId)
    requires e != b && e != a && b != a
    ensures WidthFrom(Shortcut(e, b, a), {}, 0) == 1
  {
    ShortcutReady(e, b, a);
    var g := Shortcut(e, b, a);
    assert {} + Elements([e]) == {e} && {e} + Elements([a]) == {e, a} && {e, a} + Elements([b]) == {e, a, b};
    NothingReady(g.nodes, g.arcs, {e, a, b});
    assert WidthFrom(g, {e, a, b}, 1) == 1;
    assert WidthFrom(g, {e, a}, 1) == 1;
    assert WidthFrom(g, {e}, 1) == 1;
  }

  lemma ConsumerSourcePasses(w: Workflow, e: NodeId, b: NodeId, a: NodeId)
    requires e != b && e != a && b != a && FindNode(w.nodes, a) == Some(Producer(a))
    ensures CheckSource(Consumer(b, a).inputs[0], Consumer(b, a), w, [e, a, b]).None?
  {
    PositionIsIndex([e, a, b], 1);
    PositionIsIndex([e, a, b], 2);
  }

  lemma ConsumerInputPasses(w: Workflow, e: NodeId, b: NodeId, a: NodeId)
    requires e != b && e != a && b != a && FindNode(w.nodes, a) == Some(Producer(a))
    ensures CheckInputs(Consumer(b, a).inputs, Consumer(b, a), w, [e, a, b], EMPTY).None?
  {
    var n := Consumer(b, a);
    ConsumerSourcePasses(w, e, b, a);
    assert forall x :: x in n.inputs[0].parameter ==> x == 'p';
    assert n.inputs[1..] == [];
  }

  lemma ShortcutNodesPass(e: NodeId, b: NodeId, a: NodeId, w: Workflow)
    requires e != b && e != a && b != a && FindNode(w.nodes, a) == Some(Producer(a))
    ensures CheckNode(Entry(e), w, [e, a, b], NOBODY, EMPTY).None?
    ensures CheckNode(Consumer(b, a), w, [e, a, b], NOBODY, EMPTY).None?
    ensures CheckNode(Producer(a), w, [e, a, b], NOBODY, EMPTY).None?
  {
    ConsumerInputPasses(w, e, b, a);
    BareNodePasses(Entry(e), w, [e, a, b]);
    BareNodePasses(Consumer(b, a), w, [e, a, b]);
    BareNodePasses(Producer(a), w, [e, a, b]);
  }

  lemma ShortcutChecks(e: NodeId, b: NodeId, a: NodeId)
    requires e != b && e != a && b != a
    ensures CheckNodes(ShortcutFlow(e, b, a).nodes, ShortcutFlow(e, b, a), [e, a, b], NOBODY, EMPTY).None?
  {
    var w := ShortcutFlow(e, b, a);
    ShortcutIds(e, b, a);
    FindNodeUnique(w.nodes, 2);
    ShortcutNodesPass(e, b, a, w);
    AllPass(w.nodes, w, [e, a, b]);
  }

  lemma ShortcutBudget(e: NodeId, b: NodeId, a: NodeId)
    ensures Declared(ShortcutFlow(e, b, a).nodes) == Totals(0, 0, 3)
  {
    var x, y, z := Bare(e, QUERY, [], [], 1), Consumer(b, a), Producer(a);
    DeclaredPair(x, y);
    DeclaredLast([x, y], z);
    assert [x, y] + [z] == ShortcutFlow(e, b, a).nodes;
  }

  lemma ShortcutShape(e: NodeId, b: NodeId, a: NodeId)
    requires e != b && e != a && b != a
    ensures WellShaped(ShortcutFlow(e, b, a)) && IsTopological(GraphOf(ShortcutFlow(e, b, a)), [e, a, b])
  {
    var w := ShortcutFlow(e, b, a);
    ShortcutIds(e, b, a);
    ShortcutEdgesKnown(e, b, a);
    ShortcutGraph(e, b, a);
    ShortcutOrder(e, b, a);
    ShortcutWidth(e, b, a);
    ShortcutBudget(e, b, a);
    ReachabilityTestIsRedundant(w);
    assert w.nodes[1] in w.nodes;
  }

  lemma ShortcutAccepted(e: NodeId, b: NodeId, a: NodeId)
    requires e != b && e != a && b != a
    ensures Accepted(ShortcutFlow(e, b, a), NOBODY, EMPTY, [e, a, b])
  {
    ShortcutShape(e, b, a);
    ShortcutChecks(e, b, a);
    ShapeAndChecksAccept(ShortcutFlow(e, b, a), NOBODY, EMPTY, [e, a, b]);
  }

  /** The entry has completed and nothing else was started. */
  predicate OnlyEntryDone(t: seq<Row>, e: NodeId) {
    |t| == 1 && t[0].node == e && t[0].status.Completed? && t[0].rows == 0 && t[0].ms == Some(1)
  }

  lemma RunnableFirst(w: Workflow, rest: seq<Node>, n: Node, t: seq<Row>)
    ensures RunnableAmong(w, [n] + rest, t) ==
            if IsRunnable(w, n.id, t) then [n] + RunnableAmong(w, rest, t) else RunnableAmong(w, rest, t)
  {
  }

  function IfRunnable(w: Workflow, n: Node, t: seq<Row>): seq<Node> {
    if IsRunnable(w, n.id, t) then [n] else []
  }

  lemma RunnableOfThree(w: Workflow, x: Node, y: Node, z: Node, t: seq<Row>)
    requires w.nodes == [x, y, z]
    ensures RunnableNodes(w, t) == IfRunnable(w, x, t) + IfRunnable(w, y, t) + IfRunnable(w, z, t)
  {
    RunnableFirst(w, [], z, t);
    RunnableFirst(w, [z], y, t);
    RunnableFirst(w, [y, z], x, t);
    assert [z] + [] == [z] && [y] + [z] == [y, z] && [x] + [y, z] == w.nodes;
  }

  /** Once the entry has completed, the consumer and the producer may run, but not the entry. */
  lemma ShortcutOpen(e: NodeId, b: NodeId, a: NodeId, t: seq<Row>)
    requires e != b && e != a && b != a && OnlyEntryDone(t, e)
    ensures
      var w := ShortcutFlow(e, b, a);
      !IsRunnable(w, e, t) && IsRunnable(w, b, t) && IsRunnable(w, a, t)
  {
    ShortcutEdgeList(e, b, a);
    assert t[0] in t;
    assert IsSatisfied(Edge(e, a, Always), t) && IsSatisfied(Edge(e, b, Always), t);
  }

  /** Two nodes are runnable, and the consumer comes first in workflow order. */
  lemma ShortcutRunnable(e: NodeId, b: NodeId, a: NodeId, t: seq<Row>)
    requires e != b && e != a && b != a && OnlyEntryDone(t, e)
    ensures RunnableNodes(ShortcutFlow(e, b, a), t) == [Consumer(b, a), Producer(a)]
  {
    ShortcutOpen(e, b, a, t);
    RunnableOfThree(ShortcutFlow(e, b, a), Entry(e), Consumer(b, a), Producer(a), t);
  }

  lemma ShortcutBatch(e: NodeId, b: NodeId, a: NodeId, t: seq<Row>)
    requires e != b && e != a && b != a && OnlyEntryDone(t, e)
    ensures SelectBatch(ShortcutFlow(e, b, a), FromCompleted(ShortcutFlow(e, b, a), t), t) == [Consumer(b, a)]
  {
    var w, n := ShortcutFlow(e, b, a), Consumer(b, a);
    ShortcutRunnable(e, b, a, t);
    EntryLedger(e, b, a, t);
    assert [n, Producer(a)][..1] == [n] && [n][1..] == [];
    assert Candidates(w, t) == [n];
    assert Admit(Totals(0, 0, 1), w.budgets, [n]) == [n];
  }

  lemma EntryLedger(e: NodeId, b: NodeId, a: NodeId, t: seq<Row>)
    requires e != b && e != a && b != a && OnlyEntryDone(t, e)
    ensures FromCompleted(ShortcutFlow(e, b, a), t) == Totals(0, 0, 1)
  {
  }

  /** A consumer whose producer has not completed is begun and left running. */
  lemma ConsumerIsStranded(w: Workflow, b: NodeId, a: NodeId, t: seq<Row>, turn: Turn)
    requires |t| == 1 && t[0].node != a && t[0].node != b && turn.authorized
    ensures ExecuteNode(w, Consumer(b, a), t, t, turn) == (t + [RunningRow(1, b, 0)], Errored)
  {
  }

  /** The iteration that starts the consumer ends the run with an error. */
  lemma ConsumerIteration(e: NodeId, b: NodeId, a: NodeId, db: Db, user: nat, turns: nat -> Turn)
    requires e != b && e != a && b != a
    requires OnlyEntryDone(Rows(db, 2), e) && turns(0).authorized
    ensures
      var w, t := ShortcutFlow(e, b, a), Rows(db, 2);
      Iterate(db, w, user, FromCompleted(w, t), turns) == Stop(WithRows(db, 2, t + [RunningRow(1, b, 0)]), Error)
  {
    var w, n := ShortcutFlow(e, b, a), Consumer(b, a);
    var t := Rows(db, 2);
    ShortcutRunnable(e, b, a, t);
    ShortcutBatch(e, b, a, t);
    ConsumerIsStranded(w, b, a, t, turns(0));
    OneNodeBatch(w, n, t, turns);
    assert [Errored][0] in [Errored];
  }

  /** The entry answers with no rows in a millisecond. */
  function EntryTurn(output: Json): Turn {
    Turn(true, Null, false, 1, Produced(output, 0), false)
  }

  function EntryRow(e: NodeId, output: Json): Row {
    Completing(RunningRow(0, e, 0), output, 0, 1)
  }

  lemma OnlyEntryOpen(e: NodeId, b: NodeId, a: NodeId)
    requires e != b && e != a && b != a
    ensures
      var w := ShortcutFlow(e, b, a);
      IsRunnable(w, e, []) && !IsRunnable(w, b, []) && !IsRunnable(w, a, [])
  {
    ShortcutEdgeList(e, b, a);
    assert Edge(e, a, Always) in ShortcutEdges(e, b, a) && Edge(e, b, Always) in ShortcutEdges(e, b, a);
  }

  lemma EntryRunnable(e: NodeId, b: NodeId, a: NodeId)
    requires e != b && e != a && b != a
    ensures RunnableNodes(ShortcutFlow(e, b, a), []) == [Entry(e)]
  {
    OnlyEntryOpen(e, b, a);
    RunnableOfThree(ShortcutFlow(e, b, a), Entry(e), Consumer(b, a), Producer(a), []);
  }

  lemma EntryBatch(e: NodeId, b: NodeId, a: NodeId)
    requires e != b && e != a && b != a
    ensures SelectBatch(ShortcutFlow(e, b, a), ZERO, []) == [Entry(e)]
  {
    var w := ShortcutFlow(e, b, a);
    EntryRunnable(e, b, a);
    assert Candidates(w, []) == [Entry(e)] && [Entry(e)][1..] == [];
    assert Admit(ZERO, w.budgets, [Entry(e)]) == [Entry(e)];
  }

  lemma EntryExecutes(w: Workflow, e: NodeId, output: Json)
    ensures ExecuteNode(w, Entry(e), [], [], EntryTurn(output)) == ([EntryRow(e, output)], Done(EntryRow(e, output), 0))
  {
    assert [] + [EntryRow(e, output)] == [EntryRow(e, output)];
  }

  lemma OneDone(db: Db, w: Workflow, user: nat, consumed: Totals, report: Report)
    requires report.Done?
    ensures Settle(db, w, user, consumed, [report]).Next? && Settle(db, w, user, consumed, [report]).db == db
  {
    assert forall r :: r in [report] ==> r == report;
  }

  /** From an empty table the first iteration completes the entry and nothing else. */
  lemma EntryIteration(e: NodeId, b: NodeId, a: NodeId, db: Db, user: nat, turns: nat -> Turn, output: Json)
    requires e != b && e != a && b != a
    requires Rows(db, 2) == [] && turns(0) == EntryTurn(output)
    ensures
      var step := Iterate(db, ShortcutFlow(e, b, a), user, ZERO, turns);
      step.Next? && step.db == WithRows(db, 2, [EntryRow(e, output)])
  {
    var w := ShortcutFlow(e, b, a);
    EntryRunnable(e, b, a);
    EntryBatch(e, b, a);
    EntryExecutes(w, e, output);
    OneNodeBatch(w, Entry(e), [], turns);
    OneDone(WithRows(db, 2, [EntryRow(e, output)]), w, user, ZERO, Done(EntryRow(e, output), 0));
  }

  /**
   * Every wave of this accepted workflow has width one and its consumer comes after its
   * producer in every topological order. Yet as soon as the entry has completed, both are
   * runnable; the consumer is taken first, its binding is missing, the whole run ends in an
   * error and the consumer's row is left running, which by `RunningRowIsStranded` it will be
   * for ever. The producer is never started.
   */
  lemma AcceptedYetStranded(e: NodeId, b: NodeId, a: NodeId, db: Db, user: nat, turns: nat -> nat -> Turn, output: Json)
    requires e != b && e != a && b != a
    requires Rows(db, 2) == [] && turns(0)(0) == EntryTurn(output) && turns(1)(0).authorized
    ensures Accepted(ShortcutFlow(e, b, a), NOBODY, EMPTY, [e, a, b])
    ensures RunStateless(db, ShortcutFlow(e, b, a), user, turns, 0) ==
            RunResult(WithRows(db, 2, [EntryRow(e, output), RunningRow(1, b, 0)]), Error, 2)
  {
    ShortcutAccepted(e, b, a);
    var w := ShortcutFlow(e, b, a);
    EntryIteration(e, b, a, db, user, turns(0), output);
    var next := WithRows(db, 2, [EntryRow(e, output)]);
    ConsumerIteration(e, b, a, next, user, turns(1));
    StrandedRows(db, e, b, output);
    assert RunStateless(next, w, user, turns, 1) ==
           RunResult(WithRows(db, 2, [EntryRow(e, output), RunningRow(1, b, 0)]), Error, 2);
  }

  lemma StrandedRows(db: Db, e: NodeId, b: NodeId, output: Json)
    ensures
      var t := [EntryRow(e, output)];
      WithRows(WithRows(db, 2, t), 2, t + [RunningRow(1, b, 0)]) ==
      WithRows(db, 2, [EntryRow(e, output), RunningRow(1, b, 0)])
  {
    assert [EntryRow(e, output)] + [RunningRow(1, b, 0)] == [EntryRow(e, output), RunningRow(1, b, 0)];
  }

  lemma OneNodeBatch(w: Workflow, n: Node, t: seq<Row>, turns: nat -> Turn)
    ensures
      var step := ExecuteNode(w, n, t, t, turns(0));
      ExecuteBatch(w, [n], t, turns, 1) == (step.0, [step.1])
  {
    assert ExecuteBatch(w, [n], t, turns, 0) == (t, []);
    assert [] + [ExecuteNode(w, n, t, t, turns(0)).1] == [ExecuteNode(w, n, t, t, turns(0)).1];
  }
}
