/**
 * What a node needs from others before it can be carried out (run.rs `bindings_for`,
 * `resolve_execution`), and what completed nodes must have left for it.
 */
module Supply {
  import opened Wrappers
  import opened Json
  import opened Contract
  import opened Scheduler
  import opened Runner
  import opened History

  predicate IsSlot(source: BindingSource) {
    source.PriorStep? || source.AuthorizedDataProbe?
  }

  /** Some node binds an input to this slot of the node `d`. */
  ghost predicate SlotIsRead(w: Workflow, d: NodeId, slot: string) {
    exists n, i :: n in w.nodes && i in n.inputs && IsSlot(i.source) && i.source.node == d && i.source.slot == slot
  }

  /** Some branch decides by the cardinality of the node `d`. */
  ghost predicate CardinalityIsRead(w: Workflow, d: NodeId) {
    exists n :: n in w.nodes && n.kind.CardinalityBranch? && n.kind.source == d
  }

  /** Something depends on the cardinality of the node: an edge or a branch. */
  ghost predicate Conditional(w: Workflow, id: NodeId) {
    CardinalityIsRead(w, id) || exists e :: e in w.edges && e.source == id && e.condition.OnCardinality?
  }

  /** The kinds of node whose output has slots. */
  predicate Provides(m: Node) {
    m.kind.ResolveEntity? || m.kind.ExecuteQuery? || m.kind.ComposeResult?
  }

  /** `d` is another node and has completed whenever `n` may run. */
  ghost predicate Supplies(w: Workflow, d: NodeId, n: Node) {
    d in Ids(w.nodes) && d != n.id && Dominates(w, d, n.id)
  }

  /** The slot is one of a node that can provide it and does not redact it. */
  ghost predicate SlotProvided(w: Workflow, d: NodeId, slot: string) {
    forall m :: m in w.nodes && m.id == d ==> Provides(m) && slot !in SensitiveFields(m.inputs)
  }

  ghost predicate NeverAsks(w: Workflow, d: NodeId) {
    forall m :: m in w.nodes && m.id == d ==> !m.kind.ClarificationInterrupt?
  }

  /** Everything the node reads comes from nodes that dominate it and can provide it. */
  ghost predicate Fed(w: Workflow, n: Node) {
    && (forall i :: i in n.inputs && IsSlot(i.source) ==>
          Supplies(w, i.source.node, n) && SlotProvided(w, i.source.node, i.source.slot))
    && (n.kind.ComposeResult? ==> forall s :: s in n.kind.sources ==> Supplies(w, s, n) && NeverAsks(w, s))
    && (n.kind.CardinalityBranch? ==> Supplies(w, n.kind.source, n) && NeverAsks(w, n.kind.source))
  }

  /** The completed row holds what others read from its node. */
  ghost predicate Delivers(w: Workflow, m: Node, r: Row) {
    && r.output.Some?
    && (Provides(m) ==> forall slot :: SlotIsRead(w, m.id, slot) && slot !in SensitiveFields(m.inputs) ==>
                          Get(r.output.value, slot).Some?)
    && (Conditional(w, m.id) ==> CardinalityOf(r).Some?)
  }

  ghost predicate RowDelivers(w: Workflow, r: Row) {
    r.status.Completed? ==>
      forall m | m in w.nodes && m.id == r.node && !m.kind.ClarificationInterrupt? :: Delivers(w, m, r)
  }

  ghost predicate AllDelivered(w: Workflow, t: seq<Row>) {
    forall r :: r in t ==> RowDelivers(w, r)
  }

  /** A completed node that never asks has delivered in the row that is found for it. */
  lemma FoundDelivers(w: Workflow, t: seq<Row>, m: Node)
    requires AllDelivered(w, t) && m in w.nodes && !m.kind.ClarificationInterrupt? && IsCompleted(t, m.id)
    ensures Delivers(w, m, FindCompleted(t, m.id).value)
  {
    var r := FindCompleted(t, m.id).value;
    assert RowDelivers(w, r);
  }

  lemma SlotIsThere(w: Workflow, t: seq<Row>, n: Node, i: NodeInput)
    requires TableInv(w, t) && AllDelivered(w, t) && IsRunnable(w, n.id, t) && n in w.nodes && Fed(w, n)
    requires i in n.inputs && IsSlot(i.source)
    ensures OutputSlotValue(t, i.source.node, i.source.slot).Some?
  {
    var d := i.source.node;
    DominatorsCompleted(w, t, d, n.id);
    var m :| m in w.nodes && m.id == d;
    assert Provides(m);
    FoundDelivers(w, t, m);
    assert SlotIsRead(w, d, i.source.slot);
  }

  lemma SourceIsThere(w: Workflow, t: seq<Row>, n: Node, d: NodeId)
    requires TableInv(w, t) && AllDelivered(w, t) && IsRunnable(w, n.id, t)
    requires Supplies(w, d, n) && NeverAsks(w, d)
    ensures IsCompleted(t, d) && NodeOutput(t, d).Some?
    ensures CardinalityIsRead(w, d) ==> CardinalityFor(t, d).Some?
  {
    DominatorsCompleted(w, t, d, n.id);
    var m :| m in w.nodes && m.id == d;
    FoundDelivers(w, t, m);
  }

  /** A node that is fed and may run finds all it needs. */
  lemma FedIsReady(w: Workflow, t: seq<Row>, n: Node, scope: Json)
    requires TableInv(w, t) && AllDelivered(w, t) && IsRunnable(w, n.id, t) && n in w.nodes && Fed(w, n)
    ensures BindingsFor(n.inputs, t, scope).Some?
    ensures n.kind.ComposeResult? ==> SourcesAvailable(w, n.kind.sources, t)
    ensures n.kind.CardinalityBranch? ==> CardinalityFor(t, n.kind.source).Some?
  {
    forall i | i in n.inputs && IsSlot(i.source) ensures BindingValue(i.source, t, scope).Some? {
      SlotIsThere(w, t, n, i);
    }
    BindingsExistIff(n.inputs, t, scope);
    if n.kind.ComposeResult? {
      forall s | s in n.kind.sources ensures NodeOutput(t, s).Some? { SourceIsThere(w, t, n, s); }
    }
    if n.kind.CardinalityBranch? {
      assert CardinalityIsRead(w, n.kind.source);
      SourceIsThere(w, t, n, n.kind.source);
    }
  }
}
