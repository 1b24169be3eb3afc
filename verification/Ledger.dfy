/** The shared budget ledger of one run (run.rs `BudgetTotals`) and the batch it admits. */
module Ledger {
  import opened Wrappers
  import opened Contract
  import opened Scheduler

  datatype Totals = Totals(queries: nat, rows: nat, ms: nat)

  const ZERO := Totals(0, 0, 0)

  function NonNegative(x: int): nat {
    if x > 0 then x else 0
  }

  function Duration(r: Row): nat {
    match r.ms case None => 0 case Some(ms) => NonNegative(ms)
  }

  /** Looking an id up in a map collected from the node list: the last one listed wins. */
  function FindNode(nodes: seq<Node>, id: NodeId): (found: Option<Node>)
    ensures found.Some? ==> found.value in nodes && found.value.id == id
    ensures found.None? <==> id !in Ids(nodes)
  {
    if nodes == [] then None
    else
      var last, init := nodes[|nodes| - 1], nodes[..|nodes| - 1];
      assert nodes == init + [last];
      if last.id == id then Some(last) else FindNode(init, id)
  }

  /** Queries are charged as declared, rows and time as used. */
  function AddActual(t: Totals, queryCost: nat, r: Row): Totals {
    Totals(t.queries + queryCost, t.rows + NonNegative(r.rows), t.ms + Duration(r))
  }

  function DeclaredCost(w: Workflow, id: NodeId): nat {
    match FindNode(w.nodes, id) case None => 0 case Some(n) => n.budget.queryCost
  }

  function AddRow(w: Workflow, t: Totals, r: Row): Totals {
    if r.status.Completed? then AddActual(t, DeclaredCost(w, r.node), r) else t
  }

  function FromCompleted(w: Workflow, runs: seq<Row>): Totals {
    if runs == [] then ZERO
    else AddRow(w, FromCompleted(w, runs[..|runs| - 1]), runs[|runs| - 1])
  }

  lemma FromCompletedLast(w: Workflow, runs: seq<Row>, r: Row)
    ensures FromCompleted(w, runs + [r]) == AddRow(w, FromCompleted(w, runs), r)
  {
  }

  /** Declared timeouts are arbitrary u64 values, so adding one can wrap around. */
  function Wrap64(x: nat): nat {
    x % U64_SPAN
  }

  predicate WouldExceed(t: Totals, budgets: Budgets, b: NodeBudget) {
    || t.queries + b.queryCost > budgets.maxQueryCount
    || t.rows + b.rowCap > budgets.sharedRowCap
    || Wrap64(t.ms + b.timeoutMs) > budgets.sharedTimeoutMs
  }

  function AddDeclared(t: Totals, b: NodeBudget): Totals {
    Totals(t.queries + b.queryCost, t.rows + b.rowCap, Wrap64(t.ms + b.timeoutMs))
  }

  /** Candidates are admitted in order until the first that would exceed a budget. */
  function Admit(projected: Totals, budgets: Budgets, candidates: seq<Node>): (batch: seq<Node>)
    ensures batch <= candidates
    decreases |candidates|
  {
    if candidates == [] || WouldExceed(projected, budgets, candidates[0].budget) then []
    else [candidates[0]] + Admit(AddDeclared(projected, candidates[0].budget), budgets, candidates[1..])
  }

  lemma AdmitOneMore(projected: Totals, budgets: Budgets, candidates: seq<Node>, i: nat)
    requires i < |candidates| && !WouldExceed(projected, budgets, candidates[i].budget)
    ensures |Admit(projected, budgets, candidates[i..])| ==
            1 + |Admit(AddDeclared(projected, candidates[i].budget), budgets, candidates[i + 1..])|
  {
    assert candidates[i..][1..] == candidates[i + 1..];
  }

  function MaxParallel(budgets: Budgets): nat {
    if budgets.maxParallelQueries > 1 then budgets.maxParallelQueries else 1
  }

  function Candidates(w: Workflow, runs: seq<Row>): seq<Node> {
    var ready := RunnableNodes(w, runs);
    if |ready| <= MaxParallel(w.budgets) then ready else ready[..MaxParallel(w.budgets)]
  }

  function SelectBatch(w: Workflow, consumed: Totals, runs: seq<Row>): seq<Node> {
    Admit(consumed, w.budgets, Candidates(w, runs))
  }

  // ------------------------------------------------ what an admitted batch costs

  function Plus(t: Totals, b: NodeBudget): Totals {
    Totals(t.queries + b.queryCost, t.rows + b.rowCap, t.ms + b.timeoutMs)
  }

  /** Total declared budget of a list of nodes, without wrap-around. */
  function Declared(nodes: seq<Node>): Totals {
    if nodes == [] then ZERO else Plus(Declared(nodes[..|nodes| - 1]), nodes[|nodes| - 1].budget)
  }

  function Sum(a: Totals, b: Totals): Totals {
    Totals(a.queries + b.queries, a.rows + b.rows, a.ms + b.ms)
  }

  predicate Leq(a: Totals, b: Totals) {
    a.queries <= b.queries && a.rows <= b.rows && a.ms <= b.ms
  }

  function Caps(budgets: Budgets): Totals {
    Totals(budgets.maxQueryCount, budgets.sharedRowCap, budgets.sharedTimeoutMs)
  }

  lemma DeclaredLast(nodes: seq<Node>, last: Node)
    ensures Declared(nodes + [last]) == Plus(Declared(nodes), last.budget)
  {
  }

  lemma DeclaredOne(n: Node)
    ensures Declared([n]) == Plus(ZERO, n.budget)
  {
    DeclaredLast([], n);
    assert [] + [n] == [n];
  }

  lemma LastOfJoin<T>(a: seq<T>, b: seq<T>)
    requires b != []
    ensures (a + b[..|b| - 1]) + [b[|b| - 1]] == a + b && b[..|b| - 1] + [b[|b| - 1]] == b
  {
  }

  lemma {:induction false} DeclaredJoin(a: seq<Node>, b: seq<Node>)
    ensures Declared(a + b) == Sum(Declared(a), Declared(b))
  {
    if b == [] {
      assert a + b == a;
    } else {
      var last, init := b[|b| - 1], b[..|b| - 1];
      DeclaredJoin(a, init);
      DeclaredLast(a + init, last);
      DeclaredLast(init, last);
      LastOfJoin(a, b);
    }
  }

  /**
   * For any workflow, verified or not, an admitted batch declares no more queries and
   * rows than the caps leave, and no more time either unless a timeout sum wraps.
   */
  lemma {:induction false} AdmittedFits(t: Totals, budgets: Budgets, candidates: seq<Node>)
    requires Admit(t, budgets, candidates) != []
    ensures
      var total := Sum(t, Declared(Admit(t, budgets, candidates)));
      && total.queries <= budgets.maxQueryCount
      && total.rows <= budgets.sharedRowCap
      && (total.ms < U64_SPAN ==> total.ms <= budgets.sharedTimeoutMs)
    decreases |candidates|
  {
    var n := candidates[0];
    var rest := Admit(AddDeclared(t, n.budget), budgets, candidates[1..]);
    DeclaredJoin([n], rest);
    DeclaredOne(n);
    if rest == [] {
      AdmittedMore(t, n.budget, budgets, ZERO);
    } else {
      AdmittedFits(AddDeclared(t, n.budget), budgets, candidates[1..]);
      AdmittedMore(t, n.budget, budgets, Declared(rest));
    }
  }

  lemma AdmittedMore(t: Totals, b: NodeBudget, budgets: Budgets, more: Totals)
    requires !WouldExceed(t, budgets, b)
    ensures t.ms + b.timeoutMs + more.ms < U64_SPAN ==> AddDeclared(t, b) == Plus(t, b)
    ensures Leq(Plus(t, b), Totals(budgets.maxQueryCount, budgets.sharedRowCap, t.ms + b.timeoutMs))
    ensures t.ms + b.timeoutMs < U64_SPAN ==> t.ms + b.timeoutMs <= budgets.sharedTimeoutMs
  {
  }

  /** What is consumed and these nodes together exceed a cap, where the time wraps around. */
  ghost predicate Overflows(t: Totals, nodes: seq<Node>, budgets: Budgets) {
    || t.queries + Declared(nodes).queries > budgets.maxQueryCount
    || t.rows + Declared(nodes).rows > budgets.sharedRowCap
    || (t.ms + Declared(nodes).ms) % 0x1_0000_0000_0000_0000 > budgets.sharedTimeoutMs
  }

  lemma WrappedSum(a: nat, b: nat)
    ensures (a % U64_SPAN + b) % U64_SPAN == (a + b) % U64_SPAN
  {
  }

  lemma OverflowsOne(t: Totals, n: Node, budgets: Budgets)
    ensures Overflows(t, [n], budgets) <==> WouldExceed(t, budgets, n.budget)
  {
    DeclaredOne(n);
  }

  lemma OverflowsLater(t: Totals, n: Node, rest: seq<Node>, budgets: Budgets)
    ensures Overflows(t, [n] + rest, budgets) <==> Overflows(AddDeclared(t, n.budget), rest, budgets)
  {
    DeclaredJoin([n], rest);
    DeclaredOne(n);
    WrappedSum(t.ms + n.budget.timeoutMs, Declared(rest).ms);
  }

  lemma {:induction false} AdmitsWhileItFits(t: Totals, budgets: Budgets, candidates: seq<Node>, k: nat)
    requires k < |candidates|
    ensures k < |Admit(t, budgets, candidates)| ==> !Overflows(t, candidates[..k + 1], budgets)
    ensures k == |Admit(t, budgets, candidates)| ==> Overflows(t, candidates[..k + 1], budgets)
    decreases |candidates|
  {
    var n, rest := candidates[0], candidates[1..];
    OverflowsOne(t, n, budgets);
    if k == 0 {
      assert candidates[..1] == [n];
    } else if !WouldExceed(t, budgets, n.budget) {
      AdmitsWhileItFits(AddDeclared(t, n.budget), budgets, rest, k - 1);
      OverflowsLater(t, n, rest[..k], budgets);
      assert candidates[..k + 1] == [n] + rest[..k];
    }
  }

  /**
   * The batch is the longest start of the runnable nodes, in workflow order, that is no longer
   * than the parallelism (or one) and of which no part exceeds a cap beside what is consumed.
   */
  lemma BatchIsLongest(w: Workflow, consumed: Totals, runs: seq<Row>, k: nat)
    ensures
      var batch, ready := SelectBatch(w, consumed, runs), RunnableNodes(w, runs);
      var most := if w.budgets.maxParallelQueries == 0 then 1 else w.budgets.maxParallelQueries;
      && batch <= ready && |batch| <= most
      && (k < |batch| ==> !Overflows(consumed, ready[..k + 1], w.budgets))
      && (|batch| < |ready| && |batch| < most ==> Overflows(consumed, ready[..|batch| + 1], w.budgets))
  {
    var batch, ready, candidates := SelectBatch(w, consumed, runs), RunnableNodes(w, runs), Candidates(w, runs);
    if k < |batch| {
      AdmitsWhileItFits(consumed, w.budgets, candidates, k);
      assert candidates[..k + 1] == ready[..k + 1];
    }
    if |batch| < |candidates| {
      AdmitsWhileItFits(consumed, w.budgets, candidates, |batch|);
      assert candidates[..|batch| + 1] == ready[..|batch| + 1];
    }
  }

  // ---------------------------------------------------- permutations and lookups

  lemma FindNodeUnique(nodes: seq<Node>, i: nat)
    requires UniqueIds(nodes) && i < |nodes|
    ensures FindNode(nodes, nodes[i].id) == Some(nodes[i])
  {
  }

  /** Nodes that share an id declare the same queries. */
  ghost predicate CostsAgree(w: Workflow) {
    forall n :: n in w.nodes ==> DeclaredCost(w, n.id) == n.budget.queryCost
  }

  /** Nodes that share an id declare the same budget. */
  ghost predicate BudgetsAgree(w: Workflow) {
    forall n :: n in w.nodes ==> FindNode(w.nodes, n.id).Some? && FindNode(w.nodes, n.id).value.budget == n.budget
  }

  lemma UniqueAgree(w: Workflow)
    ensures UniqueIds(w.nodes) ==> BudgetsAgree(w)
    ensures BudgetsAgree(w) ==> CostsAgree(w)
  {
    if UniqueIds(w.nodes) {
      forall n | n in w.nodes ensures FindNode(w.nodes, n.id) == Some(n) {
        var i :| 0 <= i < |w.nodes| && w.nodes[i] == n;
        FindNodeUnique(w.nodes, i);
      }
    }
  }

  lemma WithoutOne<T>(s: seq<T>, i: nat)
    requires i + 1 < |s|
    ensures s[..i] + s[i + 1..] == (s[..|s| - 1][..i] + s[..|s| - 1][i + 1..]) + [s[|s| - 1]]
  {
  }

  lemma AddRowsInAnyOrder(w: Workflow, t: Totals, a: Row, b: Row)
    ensures AddRow(w, AddRow(w, t, a), b) == AddRow(w, AddRow(w, t, b), a)
  {
  }

  lemma {:induction false} TakeRowOut(w: Workflow, runs: seq<Row>, i: nat)
    requires i < |runs|
    ensures FromCompleted(w, runs) == AddRow(w, FromCompleted(w, runs[..i] + runs[i + 1..]), runs[i])
  {
    var last, init := |runs| - 1, runs[..|runs| - 1];
    if i == last {
      assert runs[..i] + runs[i + 1..] == init;
    } else {
      var rest := init[..i] + init[i + 1..];
      TakeRowOut(w, init, i);
      WithoutOne(runs, i);
      FromCompletedLast(w, rest, runs[last]);
      AddRowsInAnyOrder(w, FromCompleted(w, rest), runs[i], runs[last]);
    }
  }

  /** The ledger does not depend on the order in which rows were read. */
  lemma {:induction false} LedgerOrderIrrelevant(w: Workflow, a: seq<Row>, b: seq<Row>)
    requires SameRows(a, b)
    ensures FromCompleted(w, a) == FromCompleted(w, b)
  {
    if a == [] {
      assert |multiset(b)| == 0;
    } else {
      var last, init := a[|a| - 1], a[..|a| - 1];
      var i := IndexInOther(a, b);
      LedgerOrderIrrelevant(w, init, b[..i] + b[i + 1..]);
      TakeRowOut(w, b, i);
    }
  }

  lemma TakenOutCounts(s: seq<Row>, i: nat)
    requires i < |s|
    ensures multiset(s) == multiset(s[..i] + s[i + 1..]) + multiset{s[i]}
  {
    assert s == s[..i] + [s[i]] + s[i + 1..];
  }

  lemma IndexInOther(a: seq<Row>, b: seq<Row>) returns (i: nat)
    requires SameRows(a, b) && a != []
    ensures i < |b| && b[i] == a[|a| - 1] && SameRows(a[..|a| - 1], b[..i] + b[i + 1..])
  {
    var last := |a| - 1;
    TakenOutCounts(a, last);
    assert a[..last] + a[last + 1..] == a[..last];
    assert a[last] in multiset(b);
    i :| 0 <= i < |b| && b[i] == a[last];
    TakenOutCounts(b, i);
    SameWithout(multiset(a[..last]), multiset(b[..i] + b[i + 1..]), a[last]);
  }

  lemma SameWithout(a: multiset<Row>, b: multiset<Row>, r: Row)
    requires a + multiset{r} == b + multiset{r}
    ensures a == b
  {
    assert a == (a + multiset{r}) - multiset{r} && b == (b + multiset{r}) - multiset{r};
  }

  // ----------------------------------------------------------------- starvation

  ghost predicate DistinctIn(nodes: seq<Node>, all: seq<Node>) {
    UniqueIds(nodes) && forall n | n in nodes :: n in all
  }

  lemma {:induction false} TakeNodeOut(nodes: seq<Node>, i: nat)
    requires i < |nodes|
    ensures Declared(nodes) == Plus(Declared(nodes[..i] + nodes[i + 1..]), nodes[i].budget)
  {
    DeclaredJoin(nodes[..i], nodes[i + 1..]);
    DeclaredLast(nodes[..i], nodes[i]);
    DeclaredJoin(nodes[..i] + [nodes[i]], nodes[i + 1..]);
    assert nodes == nodes[..i] + [nodes[i]] + nodes[i + 1..];
  }

  /** Distinct nodes of a workflow declare together at most what the workflow declares. */
  lemma {:induction false} PartDeclaresLess(part: seq<Node>, all: seq<Node>)
    requires DistinctIn(part, all)
    ensures Leq(Declared(part), Declared(all))
  {
    if part != [] {
      var last, init := part[|part| - 1], part[..|part| - 1];
      assert last in part;
      var i :| 0 <= i < |all| && all[i] == last;
      var others := all[..i] + all[i + 1..];
      forall n | n in init ensures n in others {
        assert n in part;
        var k :| 0 <= k < |all| && all[k] == n;
        assert k != i;
        assert n == others[if k < i then k else k - 1];
      }
      PartDeclaresLess(init, others);
      TakeNodeOut(all, i);
    }
  }

  /** The executor kept a completed run within what its node declares. */
  predicate WithinDeclared(w: Workflow, r: Row) {
    r.status.Completed? ==>
      match FindNode(w.nodes, r.node)
      case None => false
      case Some(n) => NonNegative(r.rows) <= n.budget.rowCap && Duration(r) <= n.budget.timeoutMs
  }

  /** Once a node has completed it gets no further row. */
  ghost predicate CompletedNotAfter(runs: seq<Row>) {
    forall i, j | 0 <= i < j < |runs| && runs[i].status.Completed? :: runs[j].node != runs[i].node
  }

  /** The nodes of the completed rows, in row order. */
  function CompletedNodes(w: Workflow, runs: seq<Row>): seq<Node> {
    if runs == [] then []
    else
      var init, last := CompletedNodes(w, runs[..|runs| - 1]), runs[|runs| - 1];
      if last.status.Completed? && FindNode(w.nodes, last.node).Some?
      then init + [FindNode(w.nodes, last.node).value] else init
  }

  /** The completed nodes that are listed, each once. */
  lemma {:induction false} CompletedNodesDistinct(w: Workflow, runs: seq<Row>)
    requires CompletedNotAfter(runs)
    ensures DistinctIn(CompletedNodes(w, runs), w.nodes)
    ensures forall n :: n in CompletedNodes(w, runs) ==> IsCompleted(runs, n.id)
  {
    if runs != [] {
      var last, init := runs[|runs| - 1], runs[..|runs| - 1];
      assert runs == init + [last];
      CompletedNodesDistinct(w, init);
      forall n | IsCompleted(init, n) ensures IsCompleted(runs, n) {
        var r :| r in init && r.node == n && r.status.Completed?;
        assert r in runs;
      }
      assert last in runs;
      if last.status.Completed? && FindNode(w.nodes, last.node).Some? {
        forall m | m in CompletedNodes(w, init) ensures m.id != last.node { CompletedBefore(runs, m.id); }
      }
    }
  }

  lemma CompletedNodesFacts(w: Workflow, runs: seq<Row>)
    requires forall r :: r in runs ==> WithinDeclared(w, r)
    requires CompletedNotAfter(runs)
    ensures DistinctIn(CompletedNodes(w, runs), w.nodes)
    ensures forall n :: n in CompletedNodes(w, runs) ==> IsCompleted(runs, n.id)
    ensures Leq(FromCompleted(w, runs), Declared(CompletedNodes(w, runs)))
  {
    CompletedNodesDistinct(w, runs);
    DeclaredCoversUse(w, runs);
  }

  lemma {:induction false} DeclaredCoversUse(w: Workflow, runs: seq<Row>)
    requires forall r :: r in runs ==> WithinDeclared(w, r)
    ensures Leq(FromCompleted(w, runs), Declared(CompletedNodes(w, runs)))
  {
    if runs != [] {
      var last, init := runs[|runs| - 1], runs[..|runs| - 1];
      assert last in runs;
      DeclaredCoversUse(w, init);
      if last.status.Completed? { DeclaredLast(CompletedNodes(w, init), FindNode(w.nodes, last.node).value); }
    }
  }

  lemma CompletedBefore(runs: seq<Row>, id: NodeId)
    requires runs != [] && CompletedNotAfter(runs) && IsCompleted(runs[..|runs| - 1], id)
    ensures runs[|runs| - 1].node != id
  {
  }

  lemma PrefixDistinct(a: seq<Node>, b: seq<Node>, all: seq<Node>)
    requires DistinctIn(a + b, all)
    ensures DistinctIn(a, all)
  {
    assert forall i | 0 <= i < |a| :: a[i] == (a + b)[i];
  }

  lemma AdmitOne(projected: Totals, used: Totals, b: NodeBudget, budgets: Budgets)
    requires Leq(projected, used) && Leq(Plus(used, b), Caps(budgets))
    ensures !WouldExceed(projected, budgets, b)
    ensures Leq(AddDeclared(projected, b), Plus(used, b))
  {
  }

  lemma {:induction false} AdmitAll(projected: Totals, used: seq<Node>, candidates: seq<Node>, w: Workflow)
    requires Leq(projected, Declared(used))
    requires DistinctIn(used + candidates, w.nodes)
    requires Leq(Declared(w.nodes), Caps(w.budgets))
    ensures Admit(projected, w.budgets, candidates) == candidates
    decreases |candidates|
  {
    if candidates != [] {
      var n, rest := candidates[0], candidates[1..];
      assert (used + [n]) + rest == used + candidates;
      PrefixDistinct(used + [n], rest, w.nodes);
      PartDeclaresLess(used + [n], w.nodes);
      DeclaredLast(used, n);
      AdmitOne(projected, Declared(used), n.budget, w.budgets);
      AdmitAll(AddDeclared(projected, n.budget), used + [n], rest, w);
    }
  }

  lemma {:induction false} RunnableDistinct(w: Workflow, nodes: seq<Node>, runs: seq<Row>)
    requires UniqueIds(nodes)
    ensures UniqueIds(RunnableAmong(w, nodes, runs))
  {
    if nodes != [] {
      RunnableDistinct(w, nodes[1..], runs);
      var rest := RunnableAmong(w, nodes[1..], runs);
      forall m | m in rest ensures m.id != nodes[0].id {
        var k :| 0 <= k < |nodes| - 1 && nodes[1..][k] == m;
      }
    }
  }

  /**
   * A workflow whose declared totals fit its shared caps is never starved: while every
   * completed run stays within its node's declaration, the whole candidate prefix is
   * admitted, whatever happened before.
   */
  lemma NeverStarved(w: Workflow, runs: seq<Row>)
    requires UniqueIds(w.nodes) && Leq(Declared(w.nodes), Caps(w.budgets))
    requires forall r :: r in runs ==> WithinDeclared(w, r)
    requires CompletedNotAfter(runs)
    ensures SelectBatch(w, FromCompleted(w, runs), runs) == Candidates(w, runs)
  {
    CompletedNodesFacts(w, runs);
    RunnableDistinct(w, w.nodes, runs);
    var used, candidates := CompletedNodes(w, runs), Candidates(w, runs);
    forall n | n in candidates ensures n in w.nodes && !IsCompleted(runs, n.id) {
      assert n in RunnableNodes(w, runs);
    }
    assert UniqueIds(used + candidates);
    AdmitAll(FromCompleted(w, runs), used, candidates, w);
  }
}
