/**
 * The guard's own query budget (llm/tool/data.rs): it counts completed nodes where the verifier
 * and the runner count declared queries, so it refuses queries that both of them admit.
 */
module GuardBudget {
  import opened Wrappers
  import opened Json
  import opened Contract
  import opened Catalogs
  import opened Scheduler
  import opened Ledger
  import opened Store
  import opened Runner
  import opened History
  import opened Branching
  import opened BudgetSafety
  import opened Verifier
  import opened Compiler
  import opened CompiledShape
  import opened CompiledAcceptance
  import opened CompiledVerdict
  import opened CompiledRuns
  import opened Endings
  import opened Liveness
  import opened Executor
  import opened CompiledLiveness
  import opened CompiledSessions
  import opened ExecutedSessions
  import opened FailedSelection

  // ----------------------------------------------------------------- how many have completed

  lemma CompletedBut(t: seq<Row>, ids: set<NodeId>)
    requires t != [] && CompletedNotAfter(t) && forall n :: n in ids <==> IsCompleted(t, n)
    ensures
      var last, init := t[|t| - 1], t[..|t| - 1];
      if last.status.Completed?
      then last.node in ids && forall n :: n in ids - {last.node} <==> IsCompleted(init, n)
      else forall n :: n in ids <==> IsCompleted(init, n)
  {
    var last, init := t[|t| - 1], t[..|t| - 1];
    assert t == init + [last] && last in t;
    forall n ensures IsCompleted(t, n) <==> IsCompleted(init, n) || (last.node == n && last.status.Completed?) {
      if r :| r in t && r.node == n && r.status.Completed? { assert r in init || r == last; }
      CompletedGrows(init, [last], n);
    }
    if last.status.Completed? && IsCompleted(init, last.node) { CompletedBefore(t, last.node); }
  }

  /** In a kept table the guard counts nodes: each completed one once. */
  lemma {:induction false} CountsNodes(t: seq<Row>, ids: set<NodeId>)
    requires CompletedNotAfter(t) && forall n :: n in ids <==> IsCompleted(t, n)
    ensures CompletedCount(t) == |ids|
  {
    if t == [] {
      assert forall n :: n in ids ==> IsCompleted(t, n);
      assert ids == {};
    } else {
      var last, init := t[|t| - 1], t[..|t| - 1];
      CompletedBut(t, ids);
      if last.status.Completed? { CountsNodes(init, ids - {last.node}); } else { CountsNodes(init, ids); }
    }
  }

  lemma KnownIds(w: Workflow, t: seq<Row>, id: NodeId)
    requires TableInv(w, t) && IsCompleted(t, id)
    ensures id in Ids(w.nodes) && Started(w, t, id)
  {
    var i :| 0 <= i < |t| && t[i].node == id && t[i].status.Completed?;
    assert Belongs(w, t[i]) && t[i] in t;
  }

  // ------------------------------------------------------- what has completed before the query

  /** The nodes that have completed when the query may run with its bindings. */
  function BeforeQuery(gadgets: seq<Gadget>): set<NodeId>
    requires |gadgets| <= 1
  {
    if gadgets == [] then {}
    else if gadgets[0].Asking? then {ClarifyId(gadgets[0].name)}
    else {ResolveId(gadgets[0].name), BranchId(gadgets[0].name)}
  }

  lemma NotYet(w: Workflow, gadgets: seq<Gadget>, query: Node, t: seq<Row>)
    requires IsCompiled(w, gadgets, query) && TableInv(w, t) && IsRunnable(w, EXECUTE, t)
    ensures !IsCompleted(t, EXECUTE) && !IsCompleted(t, COMPLETE)
  {
    if IsCompleted(t, COMPLETE) {
      KnownIds(w, t, COMPLETE);
      var last := Edge(EXECUTE, COMPLETE, Always);
      assert last in w.edges;
      var e := StartedThroughEdge(w, t, COMPLETE);
      IntoTerminal(gadgets, e);
    }
  }

  lemma IntoTerminal(gadgets: seq<Gadget>, e: Edge)
    requires e in AllEdges(gadgets) + [Edge(EXECUTE, COMPLETE, Always)] && e.target == COMPLETE
    ensures e.source == EXECUTE
  {
    if e in AllEdges(gadgets) {
      EdgeOfGadget(gadgets, e);
      var g :| g in gadgets && e in GadgetEdges(g);
      GadgetEdgeList(g, e);
      Levels(g.name);
    }
  }

  lemma BeforeAlone(w: Workflow, query: Node, t: seq<Row>, id: NodeId)
    requires IsCompiled(w, [], query) && TableInv(w, t) && IsRunnable(w, EXECUTE, t)
    ensures !IsCompleted(t, id)
  {
    NotYet(w, [], query, t);
    CompiledIds(w, [], query);
    assert forall n: NodeId :: !Made([], n);
    if IsCompleted(t, id) { KnownIds(w, t, id); }
  }

  lemma BeforeAfterQuestion(w: Workflow, g: Gadget, query: Node, t: seq<Row>, id: NodeId)
    requires IsCompiled(w, [g], query) && g.Asking? && TableInv(w, t) && IsRunnable(w, EXECUTE, t)
    ensures IsCompleted(t, id) <==> id == ClarifyId(g.name)
  {
    NotYet(w, [g], query, t);
    InnerIsNoEntry(w, [g], query, g, EXECUTE);
    var e := StartedThroughEdge(w, t, EXECUTE);
    IntoAskedQuery(g, e);
    if IsCompleted(t, id) {
      KnownIds(w, t, id);
      CompiledIds(w, [g], query);
      assert id == EXECUTE || id == COMPLETE || Made([g], id);
    }
  }

  lemma IntoAskedQuery(g: Gadget, e: Edge)
    requires g.Asking? && e in AllEdges([g]) + [Edge(EXECUTE, COMPLETE, Always)] && e.target == EXECUTE
    ensures e.source == ClarifyId(g.name)
  {
    Levels(g.name);
    if e in AllEdges([g]) {
      EdgeOfGadget([g], e);
      GadgetEdgeList(g, e);
    }
  }

  lemma NothingBesides(w: Workflow, g: Gadget, query: Node, t: seq<Row>, id: NodeId)
    requires IsCompiled(w, [g], query) && g.Probing? && TableInv(w, t) && IsCompleted(t, id)
    requires CardinalityFor(t, BranchId(g.name)) == Some(One) && id != EXECUTE && id != COMPLETE
    ensures id == ResolveId(g.name) || id == BranchId(g.name)
  {
    KnownIds(w, t, id);
    CompiledIds(w, [g], query);
    assert Made([g], id);
    if id == SelectId(g.name) {
      SelectAfterMany(w, g, query, t);
    } else if id == NotFoundId(g.name) {
      NotFoundIsZero(w, g, query, t);
    }
  }

  lemma BeforeAfterProbe(w: Workflow, g: Gadget, query: Node, t: seq<Row>, id: NodeId)
    requires IsCompiled(w, [g], query) && g.Probing? && TableInv(w, t) && IsRunnable(w, EXECUTE, t)
    requires CardinalityFor(t, BranchId(g.name)) == Some(One)
    ensures IsCompleted(t, id) <==> id == ResolveId(g.name) || id == BranchId(g.name)
  {
    NotYet(w, [g], query, t);
    ShownIsCompleted(t, BranchId(g.name));
    ShownBranchMeansProbe(w, g, query, t);
    if IsCompleted(t, id) { NothingBesides(w, g, query, t, id); }
  }

  lemma NotFoundIsZero(w: Workflow, g: Gadget, query: Node, t: seq<Row>)
    requires IsCompiled(w, [g], query) && g.Probing? && TableInv(w, t) && Started(w, t, NotFoundId(g.name))
    ensures CardinalityFor(t, BranchId(g.name)) == Some(Zero)
  {
    Levels(g.name);
    InnerIsNoEntry(w, [g], query, g, NotFoundId(g.name));
    var e := StartedThroughEdge(w, t, NotFoundId(g.name));
    EdgesInto(w, g, query, e);
  }

  /** The query has come to its turn without a selection. */
  ghost predicate ReachedDirectly(w: Workflow, gadgets: seq<Gadget>, t: seq<Row>)
    requires |gadgets| <= 1
  {
    && TableInv(w, t) && IsRunnable(w, EXECUTE, t)
    && (gadgets != [] && gadgets[0].Probing? ==> CardinalityFor(t, BranchId(gadgets[0].name)) == Some(One))
  }

  lemma CompletedBeforeQuery(w: Workflow, gadgets: seq<Gadget>, query: Node, t: seq<Row>, id: NodeId)
    requires IsCompiled(w, gadgets, query) && |gadgets| <= 1 && ReachedDirectly(w, gadgets, t)
    ensures IsCompleted(t, id) <==> id in BeforeQuery(gadgets)
  {
    if gadgets == [] {
      BeforeAlone(w, query, t, id);
    } else {
      assert gadgets == [gadgets[0]];
      if gadgets[0].Asking? {
        BeforeAfterQuestion(w, gadgets[0], query, t, id);
      } else {
        BeforeAfterProbe(w, gadgets[0], query, t, id);
      }
    }
  }

  /**
   * When the query of a capability comes to its turn, the guard finds it over budget if and only
   * if the cap is below one for itself, one for an answered question, and two for a probe and its branch.
   */
  lemma GuardNeeds(w: Workflow, gadgets: seq<Gadget>, query: Node, t: seq<Row>)
    requires IsCompiled(w, gadgets, query) && |gadgets| <= 1 && ReachedDirectly(w, gadgets, t)
    requires query.budget.queryCost == 1
    ensures OverBudget(w, t, query) <==> w.budgets.maxQueryCount < 1 + |BeforeQuery(gadgets)|
  {
    CountBeforeQuery(w, gadgets, query, t);
    BeforeQueryIsSmall(gadgets);
    OverBySmallCount(w, t, query, |BeforeQuery(gadgets)|);
  }

  lemma OverBySmallCount(w: Workflow, t: seq<Row>, n: Node, count: nat)
    requires CompletedCount(t) == count <= 2 && n.budget.queryCost == 1
    ensures OverBudget(w, t, n) <==> w.budgets.maxQueryCount < 1 + count
  {
  }

  lemma CountBeforeQuery(w: Workflow, gadgets: seq<Gadget>, query: Node, t: seq<Row>)
    requires IsCompiled(w, gadgets, query) && |gadgets| <= 1 && ReachedDirectly(w, gadgets, t)
    ensures CompletedCount(t) == |BeforeQuery(gadgets)|
  {
    forall id ensures id in BeforeQuery(gadgets) <==> IsCompleted(t, id) {
      CompletedBeforeQuery(w, gadgets, query, t, id);
    }
    WellKeptCompletedLast(t);
    CountsNodes(t, BeforeQuery(gadgets));
  }

  lemma BeforeQueryIsSmall(gadgets: seq<Gadget>)
    requires |gadgets| <= 1
    ensures |BeforeQuery(gadgets)| == if gadgets == [] then 0 else if gadgets[0].Asking? then 1 else 2
  {
    if gadgets != [] { Levels(gadgets[0].name); }
  }

  /**
   * A cap of two admits a probe and its query to the verifier and to the runner. The guard then
   * refuses the query on every run that comes to it directly, whatever the database would answer.
   */
  lemma AdmittedYetRefused(w: Workflow, g: Gadget, query: Node, t: seq<Row>, scope: Json, access: Access,
                           data: Option<Json>, clarification: nat)
    requires MadeOf(w, [g], query) && g.Probing? && query.budget.queryCost == 1 && g.budget.queryCost == 1
    requires w.budgets.maxQueryCount == 2 && ReachedDirectly(w, [g], t) && BindingsFor(query.inputs, t, scope).Some?
    requires query.kind.capability.Some? && PolicyPasses(query, access)
    ensures CompiledTotals([g], query).queries <= w.budgets.maxQueryCount
    ensures Execute(w, query, BindingsFor(query.inputs, t, scope).value, t, access, data, clarification) == Refused
  {
    GuardNeeds(w, [g], query, t);
    BeforeQueryIsSmall([g]);
    assert ActsAs(query, query.kind.capability.value);
    RefusedIff(w, query, t, scope, t, access, data, clarification);
  }
}
