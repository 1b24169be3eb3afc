/**
 * Node-run rows and the scheduling rules of run.rs that only read them: which nodes
 * are runnable, which attempt comes next, what a node is bound to.
 */
module Scheduler {
  import opened Wrappers
  import opened Json
  import opened Contract

  datatype Status = Runnable | Running | Completed | Failed | Skipped | Waiting

  /** One row of chat_workflow_node_runs; `id` is its primary key within the workflow. */
  datatype Row = Row(
    id: nat, node: NodeId, attempt: nat, status: Status, output: Option<Json>, rows: int, ms: Option<int>)

  predicate IsOpen(r: Row) {
    r.status.Running? || r.status.Waiting?
  }

  /** The node has a completed row. */
  predicate IsCompleted(runs: seq<Row>, n: NodeId) {
    exists r :: r in runs && r.node == n && r.status.Completed?
  }

  /** The last completed row of a node, as `runs.iter().rev().find(..)` returns it. */
  function FindCompleted(runs: seq<Row>, n: NodeId): (found: Option<Row>)
    ensures found.Some? ==> found.value in runs && found.value.node == n && found.value.status.Completed?
    ensures found.Some? <==> IsCompleted(runs, n)
  {
    if runs == [] then None
    else
      var last, init := runs[|runs| - 1], runs[..|runs| - 1];
      assert runs == init + [last];
      if last.node == n && last.status.Completed? then Some(last) else FindCompleted(init, n)
  }

  lemma {:induction false} FindCompletedIsLast(runs: seq<Row>, n: NodeId) returns (k: nat)
    requires IsCompleted(runs, n)
    ensures k < |runs| && FindCompleted(runs, n) == Some(runs[k])
    ensures forall j | k < j < |runs| && runs[j].node == n :: !runs[j].status.Completed?
  {
    var last, init := runs[|runs| - 1], runs[..|runs| - 1];
    assert runs == init + [last];
    if last.node == n && last.status.Completed? {
      k := |init|;
    } else {
      k := FindCompletedIsLast(init, n);
    }
  }

  function NameOf(c: Cardinality): string {
    match c case Zero => "zero" case One => "one" case Many => "many"
  }

  function FromRowCount(n: int): Option<Cardinality> {
    if n == 0 then Some(Zero) else if n == 1 then Some(One) else if n > 1 then Some(Many) else None
  }

  const I64_MAX := 0x7FFF_FFFF_FFFF_FFFF

  /** `row_count` as an i64, when it is an integer that fits one. */
  function RowCountField(output: Json): Option<int> {
    match Get(output, "row_count")
    case Some(Integer(n)) => if -I64_MAX - 1 <= n <= I64_MAX then Some(n) else None
    case _ => None
  }

  /** branch.rs `cardinality_for` on the row it found: a recorded decision wins over counts. */
  function CardinalityOf(r: Row): Option<Cardinality> {
    match r.output
    case None => FromRowCount(r.rows)
    case Some(output) =>
      match Get(output, "cardinality")
      case Some(String(decision)) =>
        if decision == "zero" then Some(Zero)
        else if decision == "one" then Some(One)
        else if decision == "many" then Some(Many)
        else None
      case _ =>
        match RowCountField(output)
        case Some(n) => FromRowCount(n)
        case None => FromRowCount(r.rows)
  }

  /** The number of rows an output reports, if it is an integer of 64 bits, or else the run's own count. */
  ghost predicate Counts(r: Row, n: int) {
    if exists k | -0x8000_0000_0000_0000 <= k < 0x8000_0000_0000_0000 :: Reports(r, "row_count", Integer(k))
    then Reports(r, "row_count", Integer(n)) else n == r.rows
  }

  ghost predicate Reports(r: Row, key: string, value: Json) {
    r.output.Some? && r.output.value.Object? && key in r.output.value.fields && r.output.value.fields[key] == value
  }

  /**
   * What a run says about its cardinality: a decision recorded as a text stands alone, and only
   * its three words count; without one, none, one or several rows do.
   */
  ghost predicate SaysCardinality(r: Row, c: Cardinality) {
    if exists text :: Reports(r, "cardinality", String(text)) then
      Reports(r, "cardinality", String(match c case Zero => "zero" case One => "one" case Many => "many"))
    else exists n :: Counts(r, n) && match c case Zero => n == 0 case One => n == 1 case Many => n >= 2
  }

  lemma CardinalityIsSaid(r: Row, c: Cardinality)
    ensures CardinalityOf(r) == Some(c) <==> SaysCardinality(r, c)
  {
    assert "zero"[0] == 'z' && "one"[0] == 'o' && "many"[0] == 'm';
    var n := match r.output
             case None => r.rows
             case Some(output) => match RowCountField(output) case Some(k) => k case None => r.rows;
    forall k ensures Counts(r, k) <==> k == n {
    }
    if text :| Reports(r, "cardinality", String(text)) {
    } else {
      assert Counts(r, n) && CardinalityOf(r) == FromRowCount(n);
      if SaysCardinality(r, c) {
        var k :| Counts(r, k) && match c case Zero => k == 0 case One => k == 1 case Many => k >= 2;
        assert k == n;
      }
    }
  }

  function CardinalityFor(runs: seq<Row>, source: NodeId): Option<Cardinality> {
    match FindCompleted(runs, source)
    case None => None
    case Some(r) => CardinalityOf(r)
  }

  predicate ConditionMatches(condition: EdgeCondition, source: NodeId, runs: seq<Row>) {
    match condition
    case Always => true
    case ClarificationAnswered => true
    case OnCardinality(expected) => CardinalityFor(runs, source) == Some(expected)
  }

  predicate IsEntryPoint(w: Workflow, n: NodeId) {
    forall e :: e in w.edges ==> e.target != n
  }

  /** The edge lets its target run: its source has completed and its condition matches. */
  predicate IsSatisfied(e: Edge, runs: seq<Row>) {
    IsCompleted(runs, e.source) && ConditionMatches(e.condition, e.source, runs)
  }

  /** OR over the incoming edges; a node without any is an entry point. */
  predicate DependenciesSatisfied(w: Workflow, n: NodeId, runs: seq<Row>) {
    IsEntryPoint(w, n) || exists e :: e in w.edges && e.target == n && IsSatisfied(e, runs)
  }

  predicate IsRunnable(w: Workflow, n: NodeId, runs: seq<Row>) {
    && !IsCompleted(runs, n)
    && (forall r :: r in runs && r.node == n ==> !IsOpen(r))
    && DependenciesSatisfied(w, n, runs)
  }

  /** The runnable nodes, in workflow order. */
  function RunnableAmong(w: Workflow, nodes: seq<Node>, runs: seq<Row>): (r: seq<Node>)
    ensures forall n :: n in r <==> n in nodes && IsRunnable(w, n.id, runs)
  {
    if nodes == [] then []
    else
      var rest := RunnableAmong(w, nodes[1..], runs);
      assert forall n :: n in nodes <==> n == nodes[0] || n in nodes[1..];
      if IsRunnable(w, nodes[0].id, runs) then [nodes[0]] + rest else rest
  }

  /**
   * Workflow order and every listing are kept: the runnable nodes of two lists, one after the
   * other, are those of the first and then those of the second.
   */
  lemma {:induction false} RunnableInOrder(w: Workflow, a: seq<Node>, b: seq<Node>, runs: seq<Row>)
    ensures RunnableAmong(w, a + b, runs) == RunnableAmong(w, a, runs) + RunnableAmong(w, b, runs)
    ensures forall n :: RunnableAmong(w, [n], runs) == if IsRunnable(w, n.id, runs) then [n] else []
  {
    if a == [] {
      assert a + b == b;
    } else {
      RunnableInOrder(w, a[1..], b, runs);
      HeadOfJoin(a, b);
      HeadThenJoin(a[0], RunnableAmong(w, a[1..], runs), RunnableAmong(w, b, runs));
    }
  }

  lemma HeadOfJoin<T>(a: seq<T>, b: seq<T>)
    requires a != []
    ensures (a + b)[0] == a[0] && (a + b)[1..] == a[1..] + b
  {
  }

  lemma HeadThenJoin<T>(head: T, a: seq<T>, b: seq<T>)
    ensures [head] + (a + b) == ([head] + a) + b
  {
  }

  function RunnableNodes(w: Workflow, runs: seq<Row>): seq<Node> {
    RunnableAmong(w, w.nodes, runs)
  }

  /** One more than the highest attempt recorded for the node, or 0. */
  function NextAttempt(runs: seq<Row>, n: NodeId): (attempt: nat)
    ensures forall r :: r in runs && r.node == n ==> r.attempt < attempt
    ensures attempt == 0 || exists r :: r in runs && r.node == n && r.attempt == attempt - 1
  {
    if runs == [] then 0
    else
      var last, init := runs[|runs| - 1], runs[..|runs| - 1];
      assert runs == init + [last];
      var before := NextAttempt(init, n);
      if last.node == n && last.attempt >= before then last.attempt + 1 else before
  }

  /** The node was never started. */
  predicate Untouched(runs: seq<Row>, n: NodeId) {
    forall r :: r in runs ==> r.node != n
  }

  lemma {:induction false} UntouchedAttempt(runs: seq<Row>, n: NodeId)
    requires Untouched(runs, n)
    ensures NextAttempt(runs, n) == 0
  {
    if runs != [] { UntouchedAttempt(runs[..|runs| - 1], n); }
  }

  function NodeOutput(runs: seq<Row>, n: NodeId): Option<Json> {
    match FindCompleted(runs, n) case None => None case Some(r) => r.output
  }

  function OutputSlotValue(runs: seq<Row>, n: NodeId, slot: string): Option<Json> {
    match NodeOutput(runs, n) case None => None case Some(output) => Get(output, slot)
  }

  /** What one input is bound to; None is the error of a missing output slot. */
  function BindingValue(source: BindingSource, runs: seq<Row>, scope: Json): Option<Json> {
    match source
    case AuthorizedScope => Some(scope)
    case PriorStep(n, slot) => OutputSlotValue(runs, n, slot)
    case AuthorizedDataProbe(n, slot) => OutputSlotValue(runs, n, slot)
    case _ => Some(Null)
  }

  /** Exact sensitive inputs travel out of band and contribute no binding at all. */
  function BindingsFor(inputs: seq<NodeInput>, runs: seq<Row>, scope: Json): Option<map<string, Json>> {
    if inputs == [] then Some(map[])
    else
      var last, init := inputs[|inputs| - 1], inputs[..|inputs| - 1];
      match BindingsFor(init, runs, scope)
      case None => None
      case Some(bindings) =>
        if last.source.ExactSensitiveInput? then Some(bindings)
        else
          match BindingValue(last.source, runs, scope)
          case None => None
          case Some(value) => Some(bindings[last.parameter := value])
  }

  /**
   * Bindings exist exactly if every input that is not exact sensitive has a value.
   */
  lemma {:induction false} BindingsExistIff(inputs: seq<NodeInput>, runs: seq<Row>, scope: Json)
    ensures BindingsFor(inputs, runs, scope).Some? <==>
            forall i :: i in inputs && !i.source.ExactSensitiveInput? ==> BindingValue(i.source, runs, scope).Some?
  {
    if inputs != [] {
      var init, last := inputs[..|inputs| - 1], inputs[|inputs| - 1];
      BindingsExistIff(init, runs, scope);
      assert forall i :: i in inputs <==> i in init || i == last;
    }
  }

  /** The input at `k` binds the name and no later one does. */
  predicate BindsLast(inputs: seq<NodeInput>, name: string, k: nat) {
    && k < |inputs| && inputs[k].parameter == name && !inputs[k].source.ExactSensitiveInput?
    && forall j | k < j < |inputs| && inputs[j].parameter == name :: inputs[j].source.ExactSensitiveInput?
  }

  lemma LastBinderStep(inputs: seq<NodeInput>, name: string, k: nat)
    requires inputs != []
    ensures
      var last := inputs[|inputs| - 1];
      BindsLast(inputs, name, k) <==>
      if last.parameter == name && !last.source.ExactSensitiveInput? then k == |inputs| - 1
      else BindsLast(inputs[..|inputs| - 1], name, k)
  {
    var init := inputs[..|inputs| - 1];
    assert forall j | 0 <= j < |init| :: inputs[j] == init[j];
    if BindsLast(inputs, name, k) && k < |init| {
      forall j | k < j < |init| && init[j].parameter == name ensures init[j].source.ExactSensitiveInput? {
        assert inputs[j] == init[j];
      }
    }
  }

  /** Some completed row of the node shows this value under the slot. */
  ghost predicate Shows(runs: seq<Row>, n: NodeId, slot: string, value: Json) {
    exists r :: r in runs && r.node == n && r.status.Completed? && r.output.Some? &&
        Get(r.output.value, slot) == Some(value)
  }

  /** A value that can be read of a node is one that some completed row shows, and the only one. */
  lemma SlotIsShown(runs: seq<Row>, n: NodeId, slot: string)
    ensures OutputSlotValue(runs, n, slot).Some? ==> Shows(runs, n, slot, OutputSlotValue(runs, n, slot).value)
    ensures CompletedOnce(runs) ==>
            forall value :: Shows(runs, n, slot, value) <==> OutputSlotValue(runs, n, slot) == Some(value)
  {
  }

  lemma {:induction false} BoundByLast(inputs: seq<NodeInput>, runs: seq<Row>, scope: Json, name: string)
    requires BindingsFor(inputs, runs, scope).Some?
    ensures
      var bindings := BindingsFor(inputs, runs, scope).value;
      && (name in bindings <==> exists k: nat :: BindsLast(inputs, name, k))
      && forall k: nat | BindsLast(inputs, name, k) ::
           name in bindings && Some(bindings[name]) == BindingValue(inputs[k].source, runs, scope)
  {
    if inputs != [] {
      BoundByLast(inputs[..|inputs| - 1], runs, scope, name);
      var init, last := inputs[..|inputs| - 1], inputs[|inputs| - 1];
      forall k: nat
        ensures BindsLast(inputs, name, k) <==>
                if last.parameter == name && !last.source.ExactSensitiveInput? then k == |init|
                else BindsLast(init, name, k)
      {
        LastBinderStep(inputs, name, k);
      }
      if last.parameter == name && !last.source.ExactSensitiveInput? { assert BindsLast(inputs, name, |init|); }
    }
  }

  /**
   * What a name is bound to: exactly the caller's offices; or what a completed row of the
   * producer shows under the slot, and nothing else that one shows; or null, since the runner
   * makes up no value of its own. The last input that binds the name decides, and a name that
   * only exact sensitive inputs bind is not bound at all.
   */
  lemma BindingsExact(inputs: seq<NodeInput>, runs: seq<Row>, scope: Json, name: string)
    requires BindingsFor(inputs, runs, scope).Some?
    ensures name in BindingsFor(inputs, runs, scope).value <==> exists k: nat :: BindsLast(inputs, name, k)
    ensures forall k: nat | BindsLast(inputs, name, k) ::
              var value, source := BindingsFor(inputs, runs, scope).value[name], inputs[k].source;
              if source.AuthorizedScope? then value == scope
              else if source.PriorStep? || source.AuthorizedDataProbe? then
                && Shows(runs, source.node, source.slot, value)
                && (CompletedOnce(runs) ==> forall v :: Shows(runs, source.node, source.slot, v) ==> v == value)
              else value == Null
  {
    BoundByLast(inputs, runs, scope, name);
    forall n, slot {
      SlotIsShown(runs, n, slot);
    }
  }

  /** Bindings exist exactly if for every input read of another node some completed row shows a value. */
  lemma BindingsExistIffShown(inputs: seq<NodeInput>, runs: seq<Row>, scope: Json)
    requires CompletedOnce(runs)
    ensures BindingsFor(inputs, runs, scope).Some? <==>
            forall i :: i in inputs && (i.source.PriorStep? || i.source.AuthorizedDataProbe?) ==>
              exists value :: Shows(runs, i.source.node, i.source.slot, value)
  {
    BindingsExistIff(inputs, runs, scope);
    forall i | i in inputs && (i.source.PriorStep? || i.source.AuthorizedDataProbe?)
      ensures BindingValue(i.source, runs, scope).Some? <==>
              exists value :: Shows(runs, i.source.node, i.source.slot, value)
    {
      SlotIsShown(runs, i.source.node, i.source.slot);
    }
  }

  // -------------------------------------------- the order of rows is irrelevant

  ghost predicate SameRows(a: seq<Row>, b: seq<Row>) {
    multiset(a) == multiset(b)
  }

  /** No node has two completed rows. */
  ghost predicate CompletedOnce(runs: seq<Row>) {
    forall r, s :: r in runs && s in runs && r.node == s.node && r.status.Completed? && s.status.Completed? ==> r == s
  }

  lemma SameMembers(a: seq<Row>, b: seq<Row>)
    requires SameRows(a, b)
    ensures forall r :: r in a <==> r in b
  {
    forall r ensures r in a <==> r in b {
      assert r in a <==> r in multiset(a);
      assert r in b <==> r in multiset(b);
    }
  }

  lemma FindCompletedSame(a: seq<Row>, b: seq<Row>, n: NodeId)
    requires SameRows(a, b) && CompletedOnce(a)
    ensures FindCompleted(a, n) == FindCompleted(b, n)
  {
    SameMembers(a, b);
  }

  /**
   * The query `ORDER BY started_at NULLS FIRST, id` leaves rows of one batch in no
   * particular order. Nothing the scheduler derives from rows depends on that order.
   */
  lemma OrderIsIrrelevant(w: Workflow, n: Node, a: seq<Row>, b: seq<Row>)
    requires SameRows(a, b) && CompletedOnce(a)
    ensures IsCompleted(a, n.id) <==> IsCompleted(b, n.id)
    ensures IsRunnable(w, n.id, a) <==> IsRunnable(w, n.id, b)
    ensures NextAttempt(a, n.id) == NextAttempt(b, n.id)
    ensures CardinalityFor(a, n.id) == CardinalityFor(b, n.id)
    ensures NodeOutput(a, n.id) == NodeOutput(b, n.id)
  {
    SameMembers(a, b);
    FindCompletedSame(a, b, n.id);
    forall e | e in w.edges ensures IsSatisfied(e, a) <==> IsSatisfied(e, b) {
      FindCompletedSame(a, b, e.source);
    }
    AttemptSame(a, b, n.id);
  }

  lemma AttemptSame(a: seq<Row>, b: seq<Row>, n: NodeId)
    requires forall r :: r in a <==> r in b
    ensures NextAttempt(a, n) == NextAttempt(b, n)
  {
  }

  lemma {:induction false} RunnableNodesSame(w: Workflow, nodes: seq<Node>, a: seq<Row>, b: seq<Row>)
    requires SameRows(a, b) && CompletedOnce(a)
    ensures RunnableAmong(w, nodes, a) == RunnableAmong(w, nodes, b)
  {
    if nodes != [] {
      OrderIsIrrelevant(w, nodes[0], a, b);
      RunnableNodesSame(w, nodes[1..], a, b);
    }
  }

  lemma {:induction false} BindingsSame(inputs: seq<NodeInput>, a: seq<Row>, b: seq<Row>, scope: Json)
    requires SameRows(a, b) && CompletedOnce(a)
    ensures BindingsFor(inputs, a, scope) == BindingsFor(inputs, b, scope)
  {
    if inputs != [] {
      var last := inputs[|inputs| - 1];
      BindingsSame(inputs[..|inputs| - 1], a, b, scope);
      if last.source.PriorStep? || last.source.AuthorizedDataProbe? {
        FindCompletedSame(a, b, last.source.node);
      }
    }
  }
}
