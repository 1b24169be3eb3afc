/**
 * How the runs of an accepted capability end, decided by what its probe showed: through its
 * terminal, through the not-found terminal, at its question, or in an error at its query.
 */
module CompiledLiveness {
  import opened Wrappers
  import opened Json
  import opened Contract
  import opened Catalogs
  import opened Scheduler
  import opened Ledger
  import opened Store
  import opened Runner
  import opened History
  import opened Branching
  import opened BudgetSafety
  import opened Supply
  import opened Verifier
  import opened Compiler
  import opened CompiledShape
  import opened CompiledAcceptance
  import opened CompiledVerdict
  import opened CompiledRuns
  import opened Endings
  import opened Liveness

  // ------------------------------------------------------------- every node finds what it reads

  lemma EdgeIntoBranch(w: Workflow, gadgets: seq<Gadget>, query: Node, name: string, e: Edge)
    requires IsCompiled(w, gadgets, query) && e in w.edges && e.target == BranchId(name)
    ensures e.source == ResolveId(name)
  {
    Levels(name);
    if e in AllEdges(gadgets) {
      EdgeOfGadget(gadgets, e);
      var h :| h in gadgets && e in GadgetEdges(h);
      GadgetEdgeList(h, e);
      Levels(h.name);
      if h.name != name { IdsInjective(h.name, name); }
    }
  }

  /** A branch is reached through its probe alone. */
  lemma ProbeDominatesBranch(w: Workflow, gadgets: seq<Gadget>, query: Node, g: Gadget)
    requires IsCompiled(w, gadgets, query) && g in gadgets && g.Probing?
    ensures Dominates(w, ResolveId(g.name), BranchId(g.name))
  {
    Levels(g.name);
    forall p | EdgePath(w, p) && p[|p| - 1] == BranchId(g.name) ensures ResolveId(g.name) in p {
      GadgetStartsElsewhere(w, gadgets, query, g, p, BranchId(g.name));
      assert HasEdge(w, p[|p| - 2], p[|p| - 1]);
      var e :| e in w.edges && e.source == p[|p| - 2] && e.target == p[|p| - 1];
      EdgeIntoBranch(w, gadgets, query, g.name, e);
    }
  }

  lemma PathPrefix(w: Workflow, p: seq<NodeId>, i: nat)
    requires EdgePath(w, p) && i < |p|
    ensures EdgePath(w, p[..i + 1]) && p[..i + 1][i] == p[i]
  {
    var q := p[..i + 1];
    forall j, k | 0 <= j < k < |q| && k == j + 1 ensures HasEdge(w, q[j], q[k]) {
      assert HasEdge(w, p[j], p[k]);
    }
  }

  lemma QueryPathMeetsProbe(w: Workflow, g: Gadget, query: Node, p: seq<NodeId>)
    requires IsCompiled(w, [g], query) && g.Probing? && Dominates(w, ResolveId(g.name), BranchId(g.name))
    requires EdgePath(w, p) && p[|p| - 1] == EXECUTE
    ensures ResolveId(g.name) in p
  {
    var i := LastStepIntoQuery(w, g, query, p);
    PathPrefix(w, p, i);
    assert ResolveId(g.name) in p[..i + 1];
  }

  /** With one probe, the query too is reached through it alone. */
  lemma ProbeDominatesQuery(w: Workflow, g: Gadget, query: Node)
    requires IsCompiled(w, [g], query) && g.Probing?
    ensures Dominates(w, ResolveId(g.name), EXECUTE)
  {
    ProbeDominatesBranch(w, [g], query, g);
    forall p | EdgePath(w, p) && p[|p| - 1] == EXECUTE ensures ResolveId(g.name) in p {
      QueryPathMeetsProbe(w, g, query, p);
    }
  }

  /** The nodes of a probe's id all resolve, and hide nothing. */
  lemma ProbesProvide(w: Workflow, gadgets: seq<Gadget>, query: Node, name: string, m: Node)
    requires IsCompiled(w, gadgets, query) && ProbesResolve(gadgets) && m in w.nodes && m.id == ResolveId(name)
    ensures m.kind.ResolveEntity? && SensitiveFields(m.inputs) == {}
  {
    Levels(name);
    NodeOfGadget(gadgets, m);
    var h :| h in gadgets && m in GadgetNodes(h);
    Levels(h.name);
  }

  lemma BranchIsFed(w: Workflow, gadgets: seq<Gadget>, query: Node, g: Gadget)
    requires IsCompiled(w, gadgets, query) && ProbesResolve(gadgets) && g in gadgets && g.Probing?
    ensures Fed(w, BranchNode(g.name))
  {
    ProbeDominatesBranch(w, gadgets, query, g);
    CompiledIds(w, gadgets, query);
    assert Introduces(g, ResolveId(g.name));
    Levels(g.name);
    forall m | m in w.nodes && m.id == ResolveId(g.name) ensures !m.kind.ClarificationInterrupt? {
      ProbesProvide(w, gadgets, query, g.name, m);
    }
  }

  /** A node that reads no slot, composes nothing and does not branch reads from no other. */
  lemma PlainIsFed(w: Workflow, n: Node)
    requires !n.kind.ComposeResult? && !n.kind.CardinalityBranch? && forall i :: i in n.inputs ==> !IsSlot(i.source)
    ensures Fed(w, n)
  {
  }

  lemma GadgetNodeIsPlain(g: Gadget, n: Node)
    requires n in GadgetNodes(g) && (g.Probing? ==> g.probe.ResolveEntity?)
    ensures (g.Probing? && n == BranchNode(g.name))
            || (!n.kind.ComposeResult? && !n.kind.CardinalityBranch? && forall i :: i in n.inputs ==> !IsSlot(i.source))
  {
  }

  lemma GadgetNodeIsFed(w: Workflow, gadgets: seq<Gadget>, query: Node, g: Gadget, n: Node)
    requires IsCompiled(w, gadgets, query) && ProbesResolve(gadgets) && g in gadgets && n in GadgetNodes(g)
    ensures Fed(w, n) && Composes(n)
  {
    GadgetNodeIsPlain(g, n);
    if g.Probing? && n == BranchNode(g.name) { BranchIsFed(w, gadgets, query, g); } else { PlainIsFed(w, n); }
  }

  lemma SlotIsProvided(w: Workflow, g: Gadget, query: Node, id: NodeId, slot: string, kind: ParameterType)
    requires IsCompiled(w, [g], query) && ProbesResolve([g]) && SlotFits(g, id, slot, kind)
    ensures Supplies(w, id, query) && SlotProvided(w, id, slot)
  {
    ProbeDominatesQuery(w, g, query);
    CompiledIds(w, [g], query);
    assert g in [g] && Introduces(g, id);
    Levels(g.name);
    forall m | m in w.nodes && m.id == id ensures Provides(m) && slot !in SensitiveFields(m.inputs) {
      ProbesProvide(w, [g], query, g.name, m);
    }
  }

  lemma QueryIsFed(w: Workflow, gadgets: seq<Gadget>, query: Node)
    requires IsCompiled(w, gadgets, query) && ProbesResolve(gadgets) && |gadgets| <= 1
    requires forall i :: i in query.inputs ==> SourceFits(gadgets, i)
    ensures Fed(w, query)
  {
    forall i | i in query.inputs && IsSlot(i.source)
      ensures Supplies(w, i.source.node, query) && SlotProvided(w, i.source.node, i.source.slot)
    {
      assert SourceFits(gadgets, i);
      var g :| g in gadgets && SlotFits(g, i.source.node, i.source.slot, i.kind);
      assert gadgets == [g];
      SlotIsProvided(w, g, query, i.source.node, i.source.slot, i.kind);
    }
  }

  lemma CompiledIsFed(w: Workflow, gadgets: seq<Gadget>, query: Node)
    requires IsCompiled(w, gadgets, query) && ProbesResolve(gadgets) && |gadgets| <= 1
    requires forall i :: i in query.inputs ==> SourceFits(gadgets, i)
    ensures AllFed(w)
  {
    QueryIsFed(w, gadgets, query);
    forall n | n in w.nodes ensures Fed(w, n) && Composes(n) {
      if n in AllNodes(gadgets) {
        NodeOfGadget(gadgets, n);
        var g :| g in gadgets && n in GadgetNodes(g);
        GadgetNodeIsFed(w, gadgets, query, g, n);
      } else if n == FINISH {
        PlainIsFed(w, n);
      }
    }
  }

  // ---------------------------------------------------------------------- nothing left to do

  lemma StepCompletes(w: Workflow, gadgets: seq<Gadget>, query: Node, t: seq<Row>, g: Gadget, e: Edge)
    requires IsCompiled(w, gadgets, query) && Settled(w, t) && RunnableNodes(w, t) == []
    requires g in gadgets && e in GadgetEdges(g) && IsSatisfied(e, t)
    ensures IsCompleted(t, e.target)
  {
    CompiledEdgesKnown(w, gadgets, query);
    EdgeOfGadget(gadgets, e);
    assert e in w.edges;
    NothingLeftBehind(w, t, e);
  }

  lemma HeadCompleted(w: Workflow, gadgets: seq<Gadget>, query: Node, t: seq<Row>, g: Gadget)
    requires IsCompiled(w, gadgets, query) && g in gadgets && Settled(w, t) && RunnableNodes(w, t) == []
    ensures IsCompleted(t, Head(g))
  {
    HeadStartsPath(w, gadgets, query, g);
    CompiledIds(w, gadgets, query);
    HeadIsIntroduced(g);
    EntryCompleted(w, t, Head(g));
  }

  lemma QueryLeadsToTerminal(w: Workflow, gadgets: seq<Gadget>, query: Node, t: seq<Row>)
    requires IsCompiled(w, gadgets, query) && Settled(w, t) && RunnableNodes(w, t) == [] && IsCompleted(t, EXECUTE)
    ensures IsCompleted(t, COMPLETE)
  {
    CompiledEdgesKnown(w, gadgets, query);
    var e := Edge(EXECUTE, COMPLETE, Always);
    assert e in w.edges;
    NothingLeftBehind(w, t, e);
  }

  lemma NotFoundIsTerminal(w: Workflow, gadgets: seq<Gadget>, query: Node, g: Gadget) returns (n: Node)
    requires IsCompiled(w, gadgets, query) && g in gadgets && g.Probing?
    ensures n in w.nodes && n.kind.Complete? && n.id == NotFoundId(g.name)
  {
    n := GadgetNodes(g)[2];
    assert n in GadgetNodes(g);
    NodeOfGadget(gadgets, n);
  }

  lemma OnlyQuestion(w: Workflow, gadgets: seq<Gadget>, query: Node, n: Node)
    requires IsCompiled(w, gadgets, query) && ProbesResolve(gadgets) && |gadgets| <= 1
    requires n in w.nodes && n.kind.ClarificationInterrupt?
    ensures gadgets != [] && n.id == QuestionOf(gadgets[0])
  {
    InterruptIsQuestion(w, gadgets, query, n);
    var g :| g in gadgets && n.id == QuestionOf(g);
    assert gadgets == [g];
  }


  // ---------------------------------------------------------------- what had to come before

  /** The node may run, or it has a row. */
  predicate Started(w: Workflow, t: seq<Row>, n: NodeId) {
    IsRunnable(w, n, t) || exists r :: r in t && r.node == n
  }

  lemma StartedThroughEdge(w: Workflow, t: seq<Row>, n: NodeId) returns (e: Edge)
    requires TableInv(w, t) && Started(w, t, n) && !IsEntryPoint(w, n)
    ensures e in w.edges && e.target == n && IsSatisfied(e, t)
  {
    StartedIsSupported(w, t, n);
    var p :| SupportPath(w, t, p) && p[|p| - 1] == n;
    assert |p| > 1;
    assert Fired(w, t, p[|p| - 2], p[|p| - 1]);
    e :| e in w.edges && e.source == p[|p| - 2] && e.target == n && IsSatisfied(e, t);
  }

  lemma InnerIsNoEntry(w: Workflow, gadgets: seq<Gadget>, query: Node, g: Gadget, id: NodeId)
    requires IsCompiled(w, gadgets, query) && g in gadgets && (id == EXECUTE || (Introduces(g, id) && id != Head(g)))
    ensures !IsEntryPoint(w, id)
  {
    if id == EXECUTE { GadgetReachesQuery(gadgets, g); } else { InnerNodeIsTarget(gadgets, g, id); }
    var e :| e in AllEdges(gadgets) && e.target == id;
    assert e in w.edges;
  }

  lemma BranchAfterProbe(w: Workflow, g: Gadget, query: Node, t: seq<Row>)
    requires IsCompiled(w, [g], query) && g.Probing? && TableInv(w, t) && Started(w, t, BranchId(g.name))
    ensures IsCompleted(t, ResolveId(g.name))
  {
    Levels(g.name);
    InnerIsNoEntry(w, [g], query, g, BranchId(g.name));
    var e := StartedThroughEdge(w, t, BranchId(g.name));
    EdgeIntoBranch(w, [g], query, g.name, e);
  }

  lemma SelectAfterMany(w: Workflow, g: Gadget, query: Node, t: seq<Row>)
    requires IsCompiled(w, [g], query) && g.Probing? && TableInv(w, t) && Started(w, t, SelectId(g.name))
    ensures CardinalityFor(t, BranchId(g.name)) == Some(Many)
  {
    Levels(g.name);
    InnerIsNoEntry(w, [g], query, g, SelectId(g.name));
    var e := StartedThroughEdge(w, t, SelectId(g.name));
    EdgesInto(w, g, query, e);
  }

  lemma QueryAfterOneOrAnswer(w: Workflow, g: Gadget, query: Node, t: seq<Row>)
    requires IsCompiled(w, [g], query) && g.Probing? && TableInv(w, t) && Started(w, t, EXECUTE)
    ensures CardinalityFor(t, BranchId(g.name)) == Some(One) || IsCompleted(t, SelectId(g.name))
  {
    InnerIsNoEntry(w, [g], query, g, EXECUTE);
    var e := StartedThroughEdge(w, t, EXECUTE);
    EdgesInto(w, g, query, e);
  }

  /** A branch that has completed shows what its probe shows. */
  lemma BranchShows(w: Workflow, g: Gadget, query: Node, t: seq<Row>)
    requires IsCompiled(w, [g], query) && g.Probing? && Decided(w, t) && IsCompleted(t, BranchId(g.name))
    ensures CardinalityFor(t, BranchId(g.name)) == CardinalityFor(t, ResolveId(g.name))
    ensures CardinalityFor(t, ResolveId(g.name)).Some?
  {
    var n := BranchNode(g.name);
    BranchIsMember(w, [g], query, g);
    var r := FindCompleted(t, n.id).value;
    var i :| 0 <= i < |t| && t[i] == r;
    assert RowDecided(w, t, t[i]);
    DecisionReadsBack(n, CardinalityFor(t, n.kind.source).value, r);
  }

  /** Whatever was started after the branch, the branch's cardinality is that of the probe. */
  lemma ProbeShowsSame(w: Workflow, g: Gadget, query: Node, t: seq<Row>, c: Cardinality)
    requires IsCompiled(w, [g], query) && g.Probing? && Decided(w, t) && CardinalityFor(t, BranchId(g.name)) == Some(c)
    ensures CardinalityFor(t, ResolveId(g.name)) == Some(c)
  {
    BranchShows(w, g, query, t);
  }

  // --------------------------------------------------------------------- who is left blind

  lemma PlainIsBound(n: Node, t: seq<Row>)
    requires forall i :: i in n.inputs ==> !IsSlot(i.source)
    ensures HasBindings(n, t)
  {
    BindingsExistIff(n.inputs, t, Null);
  }

  lemma PlainIsNotBlind(w: Workflow, n: Node, t: seq<Row>, turn: Turn)
    requires !n.kind.ComposeResult? && !n.kind.CardinalityBranch? && forall i :: i in n.inputs ==> !IsSlot(i.source)
    ensures FateOf(w, n, t, turn) != LeftBlind
  {
    PlainIsBound(n, t);
  }

  /** Only the query can lack a binding, and only a branch its cardinality. */
  lemma WhoIsBlind(w: Workflow, gadgets: seq<Gadget>, query: Node, t: seq<Row>, n: Node, turn: Turn) returns (g: Gadget)
    requires IsCompiled(w, gadgets, query) && ProbesResolve(gadgets) && n in w.nodes
    requires FateOf(w, n, t, turn) == LeftBlind
    ensures
      || (n == query && !HasBindings(query, t))
      || (g in gadgets && g.Probing? && n == BranchNode(g.name) && CardinalityFor(t, ResolveId(g.name)).None?)
  {
    g := Asking("");
    if n in AllNodes(gadgets) {
      NodeOfGadget(gadgets, n);
      g :| g in gadgets && n in GadgetNodes(g);
      GadgetNodeIsPlain(g, n);
      if g.Probing? && n == BranchNode(g.name) { PlainIsBound(n, t); } else { PlainIsNotBlind(w, n, t, turn); }
    } else if n == FINISH {
      PlainIsNotBlind(w, n, t, turn);
    }
  }

  /** All slots the query reads are slots of this gadget's probe. */
  ghost predicate ReadsOnly(query: Node, g: Gadget) {
    forall i :: i in query.inputs && IsSlot(i.source) ==> g.Probing? && i.source.node == ResolveId(g.name)
  }

  /** The query's bindings do not change once the probe has completed. */
  lemma BoundStays(query: Node, g: Gadget, a: seq<Row>, b: seq<Row>)
    requires ReadsOnly(query, g) && KeepsCompleted(a, b) && WellKept(b)
    requires g.Probing? ==> IsCompleted(a, ResolveId(g.name))
    ensures HasBindings(query, a) <==> HasBindings(query, b)
  {
    BindingsExistIff(query.inputs, a, Null);
    BindingsExistIff(query.inputs, b, Null);
    forall i | i in query.inputs
      ensures BindingValue(i.source, a, Null).Some? <==> BindingValue(i.source, b, Null).Some?
    {
      if IsSlot(i.source) { FindStays(a, b, i.source.node); }
    }
  }

  // ------------------------------------------------------------------------- how a run ends

  predicate RunsIn(t: seq<Row>, n: NodeId) {
    exists r :: r in t && r.node == n && r.status.Running?
  }

  /**
   * A run that has come to the query: it completes through the terminal if the query had
   * completed before or has its bindings, else it ends in an error with the query running.
   */
  ghost predicate QueryDecides(w: Workflow, query: Node, a: seq<Row>, r: RunResult) {
    var t := Rows(r.db, w.id);
    if IsCompleted(a, EXECUTE) || HasBindings(query, t) then r.outcome.Completed? && IsCompleted(t, COMPLETE)
    else r.outcome.Error? && RunsIn(t, EXECUTE)
  }

  /** How a run with one probe ends, by what the probe shows; `a` is what was there before. */
  ghost predicate EndsByArm(w: Workflow, g: Gadget, query: Node, a: seq<Row>, r: RunResult) {
    var t := Rows(r.db, w.id);
    match CardinalityFor(t, ResolveId(g.name))
    case None => r.outcome.Error? && RunsIn(t, BranchId(g.name))
    case Some(Zero) => r.outcome.Completed? && IsCompleted(t, NotFoundId(g.name))
    case Some(One) => QueryDecides(w, query, a, r)
    case Some(Many) =>
      if IsCompleted(a, SelectId(g.name)) then QueryDecides(w, query, a, r)
      else r.outcome == WaitingFor(SelectId(g.name))
  }

  /** How any run of a compiled capability ends that does not fail. */
  ghost predicate EndsAs(w: Workflow, gadgets: seq<Gadget>, query: Node, a: seq<Row>, r: RunResult)
    requires |gadgets| <= 1
  {
    var t := Rows(r.db, w.id);
    if gadgets == [] then r.outcome.Completed? && IsCompleted(t, COMPLETE)
    else if gadgets[0].Probing? then EndsByArm(w, gadgets[0], query, a, r)
    else if IsCompleted(a, ClarifyId(gadgets[0].name)) then r.outcome.Completed? && IsCompleted(t, COMPLETE)
    else r.outcome == WaitingFor(ClarifyId(gadgets[0].name))
  }

  /** What is known of the last state of a run: the facts that the endings rest on. */
  ghost predicate Known(w: Workflow, query: Node, a: seq<Row>, last: seq<Row>) {
    && Settled(w, last) && Decided(w, last) && a <= last
    && (forall n :: n in w.nodes && IsCompleted(last, n.id) && !IsCompleted(a, n.id) ==>
          !n.kind.ClarificationInterrupt? && HasBindings(n, last))
  }

  lemma QuestionWasAnswered(w: Workflow, gadgets: seq<Gadget>, query: Node, a: seq<Row>, last: seq<Row>, g: Gadget)
    requires IsCompiled(w, gadgets, query) && g in gadgets && Known(w, query, a, last)
    requires IsCompleted(last, QuestionOf(g))
    ensures IsCompleted(a, QuestionOf(g))
  {
    var n := QuestionNode(g);
    GadgetMember(w, gadgets, query, g, n);
  }

  // ------------------------------------------------------------------- nothing was runnable

  lemma QueryDone(w: Workflow, gadgets: seq<Gadget>, query: Node, a: seq<Row>, t: seq<Row>)
    requires IsCompiled(w, gadgets, query) && Known(w, query, a, t) && RunnableNodes(w, t) == []
    requires IsCompleted(t, EXECUTE)
    ensures IsCompleted(t, COMPLETE) && Quiescent(w, t) == RunOutcome.Completed
    ensures IsCompleted(a, EXECUTE) || HasBindings(query, t)
  {
    QueryLeadsToTerminal(w, gadgets, query, t);
    assert FINISH in w.nodes && query in w.nodes;
  }

  lemma QuietAlone(w: Workflow, query: Node, t: seq<Row>)
    requires IsCompiled(w, [], query) && Settled(w, t) && RunnableNodes(w, t) == []
    ensures IsCompleted(t, EXECUTE)
  {
    CompiledIds(w, [], query);
    Levels("");
    assert AllEdges([]) == [];
    EntryCompleted(w, t, EXECUTE);
  }

  lemma QuietAfterAnswer(w: Workflow, g: Gadget, query: Node, t: seq<Row>)
    requires IsCompiled(w, [g], query) && g.Asking? && Settled(w, t) && RunnableNodes(w, t) == []
    ensures IsCompleted(t, ClarifyId(g.name)) && IsCompleted(t, EXECUTE)
  {
    HeadCompleted(w, [g], query, t, g);
    var e := Edge(ClarifyId(g.name), EXECUTE, ClarificationAnswered);
    GadgetEdgeList(g, e);
    StepCompletes(w, [g], query, t, g, e);
  }

  lemma QuietArm(w: Workflow, g: Gadget, query: Node, t: seq<Row>) returns (c: Cardinality)
    requires IsCompiled(w, [g], query) && g.Probing? && Settled(w, t) && Decided(w, t) && RunnableNodes(w, t) == []
    ensures CardinalityFor(t, ResolveId(g.name)) == Some(c)
    ensures
      match c
      case Zero => IsCompleted(t, NotFoundId(g.name))
      case One => IsCompleted(t, EXECUTE)
      case Many => IsCompleted(t, SelectId(g.name)) && IsCompleted(t, EXECUTE)
  {
    var into := Edge(ResolveId(g.name), BranchId(g.name), Always);
    HeadCompleted(w, [g], query, t, g);
    GadgetEdgeList(g, into);
    StepCompletes(w, [g], query, t, g, into);
    BranchShows(w, g, query, t);
    c := CardinalityFor(t, BranchId(g.name)).value;
    var target := match c case Zero => NotFoundId(g.name) case One => EXECUTE case Many => SelectId(g.name);
    var e := Edge(BranchId(g.name), target, OnCardinality(c));
    GadgetEdgeList(g, e);
    StepCompletes(w, [g], query, t, g, e);
    if c.Many? {
      var f := Edge(SelectId(g.name), EXECUTE, ClarificationAnswered);
      GadgetEdgeList(g, f);
      StepCompletes(w, [g], query, t, g, f);
    }
  }

  lemma QuietProbeEnds(w: Workflow, g: Gadget, query: Node, a: seq<Row>, r: RunResult)
    requires IsCompiled(w, [g], query) && g.Probing? && Known(w, query, a, Rows(r.db, w.id))
    requires RunnableNodes(w, Rows(r.db, w.id)) == [] && r.outcome == Quiescent(w, Rows(r.db, w.id))
    ensures EndsByArm(w, g, query, a, r)
  {
    var t := Rows(r.db, w.id);
    var c := QuietArm(w, g, query, t);
    match c
    case Zero => var n := NotFoundIsTerminal(w, [g], query, g);
    case One => QueryDone(w, [g], query, a, t);
    case Many =>
      QueryDone(w, [g], query, a, t);
      QuestionWasAnswered(w, [g], query, a, t, g);
  }

  lemma QuietEndsAs(w: Workflow, gadgets: seq<Gadget>, query: Node, a: seq<Row>, r: RunResult)
    requires IsCompiled(w, gadgets, query) && |gadgets| <= 1 && Known(w, query, a, Rows(r.db, w.id))
    requires RunnableNodes(w, Rows(r.db, w.id)) == [] && r.outcome == Quiescent(w, Rows(r.db, w.id))
    ensures EndsAs(w, gadgets, query, a, r)
  {
    var t := Rows(r.db, w.id);
    if gadgets == [] {
      QuietAlone(w, query, t);
      QueryDone(w, [], query, a, t);
    } else {
      var g := gadgets[0];
      assert gadgets == [g];
      if g.Probing? {
        QuietProbeEnds(w, g, query, a, r);
      } else {
        QuietAfterAnswer(w, g, query, t);
        QueryDone(w, [g], query, a, t);
        QuestionWasAnswered(w, [g], query, a, t, g);
      }
    }
  }

  // ------------------------------------------------------------------ the last batch decides

  /** A node of the last batch, and the row it was left with. */
  ghost predicate LeftAs(w: Workflow, last: seq<Row>, n: Node, turn: Turn, t: seq<Row>, fate: Fate) {
    && n in w.nodes && IsRunnable(w, n.id, last) && FateOf(w, n, last, turn) == fate
    && last <= t && WellKept(t) && exists r :: r in t && RowLeft(w, n, last, turn, r)
  }

  lemma ShowsSameLater(last: seq<Row>, t: seq<Row>, n: NodeId)
    requires last <= t && WellKept(t) && IsCompleted(last, n)
    ensures CardinalityFor(t, n) == CardinalityFor(last, n)
  {
    PrefixKeeps(last, t);
    FindStays(last, t, n);
  }

  lemma ShownIsCompleted(t: seq<Row>, n: NodeId)
    requires CardinalityFor(t, n).Some?
    ensures IsCompleted(t, n)
  {
  }

  lemma CompletedInLast(w: Workflow, a: seq<Row>, last: seq<Row>, n: NodeId)
    requires a <= last && IsRunnable(w, n, last)
    ensures !IsCompleted(a, n)
  {
    CompletedInPrefix(a, last, n);
  }

  lemma BlindBranchEnds(w: Workflow, g: Gadget, query: Node, a: seq<Row>, last: seq<Row>, turn: Turn, r: RunResult)
    requires IsCompiled(w, [g], query) && g.Probing? && Known(w, query, a, last) && r.outcome.Error?
    requires LeftAs(w, last, BranchNode(g.name), turn, Rows(r.db, w.id), LeftBlind)
    requires CardinalityFor(last, ResolveId(g.name)).None?
    ensures EndsByArm(w, g, query, a, r)
  {
    BranchAfterProbe(w, g, query, last);
    ShowsSameLater(last, Rows(r.db, w.id), ResolveId(g.name));
  }

  lemma BlindQueryDecides(w: Workflow, g: Gadget, query: Node, a: seq<Row>, last: seq<Row>, turn: Turn, r: RunResult)
    requires query.id == EXECUTE && Known(w, query, a, last) && r.outcome.Error? && ReadsOnly(query, g)
    requires LeftAs(w, last, query, turn, Rows(r.db, w.id), LeftBlind) && !HasBindings(query, last)
    requires g.Probing? ==> IsCompleted(last, ResolveId(g.name))
    ensures QueryDecides(w, query, a, r)
  {
    PrefixKeeps(last, Rows(r.db, w.id));
    BoundStays(query, g, last, Rows(r.db, w.id));
    CompletedInLast(w, a, last, EXECUTE);
  }

  lemma AnswerMeansMany(w: Workflow, g: Gadget, query: Node, t: seq<Row>)
    requires IsCompiled(w, [g], query) && g.Probing? && TableInv(w, t) && Decided(w, t)
    requires Started(w, t, SelectId(g.name))
    ensures CardinalityFor(t, ResolveId(g.name)) == Some(Many)
  {
    SelectAfterMany(w, g, query, t);
    ShownIsCompleted(t, BranchId(g.name));
    ProbeShowsSame(w, g, query, t, Many);
  }

  lemma BlindQueryEnds(w: Workflow, g: Gadget, query: Node, a: seq<Row>, last: seq<Row>, turn: Turn, r: RunResult)
    requires IsCompiled(w, [g], query) && g.Probing? && Known(w, query, a, last) && r.outcome.Error?
    requires ReadsOnly(query, g) && !HasBindings(query, last)
    requires LeftAs(w, last, query, turn, Rows(r.db, w.id), LeftBlind)
    ensures EndsByArm(w, g, query, a, r)
  {
    QueryAfterOneOrAnswer(w, g, query, last);
    if IsCompleted(last, SelectId(g.name)) {
      AnswerMeansMany(w, g, query, last);
      QuestionWasAnswered(w, [g], query, a, last, g);
    } else {
      ShownIsCompleted(last, BranchId(g.name));
      ProbeShowsSame(w, g, query, last, One);
    }
    ShownIsCompleted(last, ResolveId(g.name));
    ShowsSameLater(last, Rows(r.db, w.id), ResolveId(g.name));
    BlindQueryDecides(w, g, query, a, last, turn, r);
  }

  lemma AskedProbeEnds(w: Workflow, g: Gadget, query: Node, a: seq<Row>, last: seq<Row>, n: Node, turn: Turn,
                       r: RunResult)
    requires IsCompiled(w, [g], query) && g.Probing? && Known(w, query, a, last)
    requires LeftAs(w, last, n, turn, Rows(r.db, w.id), HasAsked) && n.id == SelectId(g.name)
    requires r.outcome == WaitingFor(n.id)
    ensures EndsByArm(w, g, query, a, r)
  {
    AnswerMeansMany(w, g, query, last);
    ShownIsCompleted(last, ResolveId(g.name));
    ShowsSameLater(last, Rows(r.db, w.id), ResolveId(g.name));
    CompletedInLast(w, a, last, n.id);
  }

  /** Every slot the query reads is one of a probe of this workflow. */
  ghost predicate SlotsFromProbes(query: Node, gadgets: seq<Gadget>) {
    forall i :: i in query.inputs && IsSlot(i.source) ==>
      exists g :: g in gadgets && g.Probing? && i.source.node == ResolveId(g.name) && i.source.slot == g.slot.name
  }

  lemma BlindQueryEndsAs(w: Workflow, gadgets: seq<Gadget>, query: Node, a: seq<Row>, last: seq<Row>, turn: Turn,
                         r: RunResult)
    requires IsCompiled(w, gadgets, query) && |gadgets| <= 1 && SlotsFromProbes(query, gadgets) && r.outcome.Error?
    requires Known(w, query, a, last) && LeftAs(w, last, query, turn, Rows(r.db, w.id), LeftBlind)
    requires !HasBindings(query, last)
    ensures EndsAs(w, gadgets, query, a, r)
  {
    BlindReadsProbe(query, gadgets, last);
    assert gadgets == [gadgets[0]];
    BlindQueryEnds(w, gadgets[0], query, a, last, turn, r);
  }

  lemma OnlyGadget(gadgets: seq<Gadget>, g: Gadget)
    requires |gadgets| <= 1 && g in gadgets
    ensures gadgets == [g] && gadgets[0] == g
  {
  }

  lemma BlindEndsAs(w: Workflow, gadgets: seq<Gadget>, query: Node, a: seq<Row>, last: seq<Row>, n: Node, turn: Turn,
                    r: RunResult)
    requires IsCompiled(w, gadgets, query) && ProbesResolve(gadgets) && |gadgets| <= 1 &&
             SlotsFromProbes(query, gadgets)
    requires Known(w, query, a, last) && r.outcome.Error? && LeftAs(w, last, n, turn, Rows(r.db, w.id), LeftBlind)
    ensures EndsAs(w, gadgets, query, a, r)
  {
    var g := WhoIsBlind(w, gadgets, query, last, n, turn);
    if n == query && !HasBindings(query, last) {
      BlindQueryEndsAs(w, gadgets, query, a, last, turn, r);
    } else {
      OnlyGadget(gadgets, g);
      BlindBranchEnds(w, g, query, a, last, turn, r);
    }
  }

  lemma BlindReadsProbe(query: Node, gadgets: seq<Gadget>, t: seq<Row>)
    requires |gadgets| <= 1 && SlotsFromProbes(query, gadgets) && !HasBindings(query, t)
    ensures |gadgets| == 1 && gadgets[0].Probing? && ReadsOnly(query, gadgets[0])
  {
    if forall i :: i in query.inputs ==> !IsSlot(i.source) { PlainIsBound(query, t); }
    var i :| i in query.inputs && IsSlot(i.source);
    var g :| g in gadgets && g.Probing? && i.source.node == ResolveId(g.name);
    assert gadgets == [g];
  }

  lemma AskedEndsAs(w: Workflow, gadgets: seq<Gadget>, query: Node, a: seq<Row>, last: seq<Row>, n: Node, turn: Turn,
                    r: RunResult)
    requires IsCompiled(w, gadgets, query) && ProbesResolve(gadgets) && |gadgets| <= 1 && Known(w, query, a, last)
    requires LeftAs(w, last, n, turn, Rows(r.db, w.id), HasAsked) && r.outcome == WaitingFor(n.id)
    ensures EndsAs(w, gadgets, query, a, r)
  {
    OnlyQuestion(w, gadgets, query, n);
    var g := gadgets[0];
    assert gadgets == [g];
    if g.Probing? { AskedProbeEnds(w, g, query, a, last, n, turn, r); } else { CompletedInLast(w, a, last, n.id); }
  }

  lemma BatchLeavesAs(w: Workflow, last: seq<Row>, batch: seq<Node>, now: nat -> Turn, t: seq<Row>, k: nat, fate: Fate)
    requires batch == SelectBatch(w, FromCompleted(w, last), last) && BatchLeft(w, batch, last, now, t)
    requires k < |batch| && FateOf(w, batch[k], last, now(k)) == fate
    ensures LeftAs(w, last, batch[k], now(k), t, fate)
  {
    BatchMember(w, last, k);
    assert RowLeft(w, batch[k], last, now(k), t[|last| + k]) && t[|last| + k] in t;
  }

  lemma EndsAsIsNoFailure(w: Workflow, gadgets: seq<Gadget>, query: Node, a: seq<Row>, r: RunResult)
    requires |gadgets| <= 1 && EndsAs(w, gadgets, query, a, r)
    ensures !r.outcome.Failed?
  {
  }

  /** The batch that stopped a run, with the outcome it must have. */
  lemma StoppedEndsAs(w: Workflow, gadgets: seq<Gadget>, query: Node, a: seq<Row>, last: seq<Row>, batch: seq<Node>,
                      now: nat -> Turn, r: RunResult)
    requires IsCompiled(w, gadgets, query) && ProbesResolve(gadgets) && |gadgets| <= 1 &&
             SlotsFromProbes(query, gadgets)
    requires Known(w, query, a, last) && batch == SelectBatch(w, FromCompleted(w, last), last)
    requires BatchLeft(w, batch, last, now, Rows(r.db, w.id))
    requires if SomeFate(w, batch, last, now, LeftBlind) then r.outcome.Error?
             else r.outcome.WaitingFor? && WaitsAt(w, batch, last, now, Rows(r.db, w.id), r.outcome.node)
    ensures EndsAs(w, gadgets, query, a, r)
  {
    if k: nat :| k < |batch| && FateOf(w, batch[k], last, now(k)) == LeftBlind {
      BatchLeavesAs(w, last, batch, now, Rows(r.db, w.id), k, LeftBlind);
      BlindEndsAs(w, gadgets, query, a, last, batch[k], now(k), r);
    } else {
      var k: nat :| k < |batch| && FateOf(w, batch[k], last, now(k)) == HasAsked && batch[k].id == r.outcome.node;
      BatchLeavesAs(w, last, batch, now, Rows(r.db, w.id), k, HasAsked);
      AskedEndsAs(w, gadgets, query, a, last, batch[k], now(k), r);
    }
  }

  /** A run that does not fail ends as said; one that fails was starved or cut short. */
  ghost predicate EndsAsOrFails(w: Workflow, gadgets: seq<Gadget>, query: Node, a: seq<Row>, last: seq<Row>,
                                now: nat -> Turn, r: RunResult)
    requires |gadgets| <= 1
  {
    if r.outcome.Failed? then FailedFor(w, last, now) else EndsAs(w, gadgets, query, a, r)
  }

  lemma LastEndsAs(w: Workflow, gadgets: seq<Gadget>, query: Node, a: seq<Row>, now: nat -> Turn, last: Db,
                   r: RunResult)
    requires IsCompiled(w, gadgets, query) && ProbesResolve(gadgets) && |gadgets| <= 1 &&
             SlotsFromProbes(query, gadgets)
    requires RunStops(w, last, now, r.db, r.outcome) && Known(w, query, a, Rows(last, w.id))
    ensures EndsAsOrFails(w, gadgets, query, a, Rows(last, w.id), now, r)
  {
    var base := Rows(last, w.id);
    var batch := SelectBatch(w, FromCompleted(w, base), base);
    if RunnableNodes(w, base) == [] {
      QuietEndsAs(w, gadgets, query, a, r);
      EndsAsIsNoFailure(w, gadgets, query, a, r);
    } else if batch != [] && !r.outcome.Failed? {
      StoppedEndsAs(w, gadgets, query, a, base, batch, now, r);
    }
  }

  // ----------------------------------------------------------------------------- whole runs

  /** The rows a run of a capability may begin with. */
  ghost predicate Begins(db: Db, w: Workflow, user: nat) {
    Settled(w, Rows(db, w.id)) && Decided(w, Rows(db, w.id)) && Owned(db, w, user)
  }

  lemma LastIsKnown(db: Db, w: Workflow, query: Node, user: nat, turns: nat -> nat -> Turn)
    requires UniqueIds(w.nodes) && Begins(db, w, user) && Obedient(db, w, user, turns, 0)
    ensures Known(w, query, Rows(db, w.id), Rows(LastState(db, w, user, turns, 0).0, w.id))
  {
    RunEnds(db, w, user, turns, 0);
    DecidedOnTheWay(db, w, user, turns, 0);
    forall n | n in w.nodes { CompletedOnTheWay(db, w, user, turns, 0, n); }
  }

  /** What an accepted capability is made of. */
  ghost predicate MadeOf(w: Workflow, gadgets: seq<Gadget>, query: Node) {
    && IsCompiled(w, gadgets, query) && ProbesResolve(gadgets) && |gadgets| <= 1 && SlotsFromProbes(query, gadgets)
    && UniqueIds(w.nodes) && (|gadgets| == 1 && gadgets[0].Probing? ==> ReadsProbe(query, gadgets[0]))
  }

  /** The query reads the slot of the probe. */
  ghost predicate ReadsProbe(query: Node, g: Gadget)
    requires g.Probing?
  {
    exists i :: i in query.inputs && i.source == AuthorizedDataProbe(ResolveId(g.name), g.slot.name)
  }

  /**
   * How every run of an accepted capability ends, whatever was answered, as long as nothing
   * crashes: exactly as its probe and its bindings say, or it failed for want of budget or by a refusal.
   */
  lemma CapabilityRunEnds(db: Db, w: Workflow, gadgets: seq<Gadget>, query: Node, user: nat, turns: nat -> nat -> Turn)
    requires MadeOf(w, gadgets, query) && Begins(db, w, user) && Obedient(db, w, user, turns, 0)
    ensures
      var (last, j) := LastState(db, w, user, turns, 0);
      EndsAsOrFails(w, gadgets, query, Rows(db, w.id), Rows(last, w.id), turns(j), RunStateless(db, w, user, turns, 0))
  {
    RunEnds(db, w, user, turns, 0);
    LastIsKnown(db, w, query, user, turns);
    var (last, j) := LastState(db, w, user, turns, 0);
    LastEndsAs(w, gadgets, query, Rows(db, w.id), turns(j), last, RunStateless(db, w, user, turns, 0));
  }
}
