/** The shape of compiled workflows, and what it means at run time. */
module CompiledShape {
  import opened Wrappers
  import opened Contract
  import opened Catalogs
  import opened Graphs
  import opened Compiler
  import opened Verifier

  // ------------------------------------------------------------------ generated ids

  /** The depth at which a generated id sits in every compiled graph. */
  function Level(id: NodeId): int {
    var s := id.name;
    if |s| < 2 then 9
    else if s[0] == 'r' then 0
    else if s[0] == 'c' && s[1] == 'l' then 0
    else if s[0] == 'b' then 1
    else if s[0] == 'n' || s[0] == 's' then 2
    else if s[0] == 'e' then 3
    else 4
  }

  lemma Levels(name: string)
    ensures Level(ResolveId(name)) == 0 && Level(ClarifyId(name)) == 0 && Level(BranchId(name)) == 1
    ensures Level(NotFoundId(name)) == 2 && Level(SelectId(name)) == 2
    ensures Level(EXECUTE) == 3 && Level(COMPLETE) == 4
    ensures ResolveId(name).name[0] == 'r' && ClarifyId(name).name[0] == 'c'
    ensures NotFoundId(name).name[0] == 'n' && SelectId(name).name[0] == 's'
  {
  }

  lemma PrefixInjective(prefix: string, a: string, b: string)
    requires prefix + a == prefix + b
    ensures a == b
  {
    assert a == (prefix + a)[|prefix|..] && b == (prefix + b)[|prefix|..];
  }

  /** Different parameters never share a generated id. */
  lemma IdsInjective(a: string, b: string)
    requires a != b
    ensures ResolveId(a) != ResolveId(b) && BranchId(a) != BranchId(b) && NotFoundId(a) != NotFoundId(b)
    ensures SelectId(a) != SelectId(b) && ClarifyId(a) != ClarifyId(b)
  {
    if ResolveId(a) == ResolveId(b) { PrefixInjective("resolve_", a, b); }
    if BranchId(a) == BranchId(b) { PrefixInjective("branch_", a, b); }
    if NotFoundId(a) == NotFoundId(b) { PrefixInjective("not_found_", a, b); }
    if SelectId(a) == SelectId(b) { PrefixInjective("select_", a, b); }
    if ClarifyId(a) == ClarifyId(b) { PrefixInjective("clarify_", a, b); }
  }

  // --------------------------------------------------------------- membership by gadget

  lemma {:induction false} EdgeOfGadget(gadgets: seq<Gadget>, e: Edge)
    ensures e in AllEdges(gadgets) <==> exists g :: g in gadgets && e in GadgetEdges(g)
  {
    if gadgets != [] {
      var last, init := gadgets[|gadgets| - 1], gadgets[..|gadgets| - 1];
      assert gadgets == init + [last];
      EdgeOfGadget(init, e);
      assert last in gadgets;
    }
  }

  lemma {:induction false} NodeOfGadget(gadgets: seq<Gadget>, n: Node)
    ensures n in AllNodes(gadgets) <==> exists g :: g in gadgets && n in GadgetNodes(g)
  {
    if gadgets != [] {
      var last, init := gadgets[|gadgets| - 1], gadgets[..|gadgets| - 1];
      assert gadgets == init + [last];
      NodeOfGadget(init, n);
      assert last in gadgets;
    }
  }

  /** The node by which a gadget is entered. */
  function Head(g: Gadget): NodeId {
    match g
    case Probing(name, _, _, _, _) => ResolveId(name)
    case Asking(name) => ClarifyId(name)
  }

  lemma GadgetEdgeList(g: Gadget, e: Edge)
    ensures e in GadgetEdges(g) <==>
            match g
            case Probing(name, _, _, _, _) =>
              || e == Edge(ResolveId(name), BranchId(name), Always)
              || e == Edge(BranchId(name), NotFoundId(name), OnCardinality(Zero))
              || e == Edge(BranchId(name), EXECUTE, OnCardinality(One))
              || e == Edge(BranchId(name), SelectId(name), OnCardinality(Many))
              || e == Edge(SelectId(name), EXECUTE, ClarificationAnswered)
            case Asking(name) => e == Edge(ClarifyId(name), EXECUTE, ClarificationAnswered)
  {
  }

  /** Every edge of a compiled workflow goes strictly down the levels. */
  lemma EdgesDescend(gadgets: seq<Gadget>, e: Edge)
    requires e in AllEdges(gadgets) + [Edge(EXECUTE, COMPLETE, Always)]
    ensures Level(e.source) < Level(e.target) && Level(e.target) > 0
  {
    Levels("");
    if e in AllEdges(gadgets) {
      EdgeOfGadget(gadgets, e);
      var g :| g in gadgets && e in GadgetEdges(g);
      GadgetEdgeList(g, e);
      Levels(g.name);
    }
  }

  // --------------------------------------------------------------------- acyclicity

  ghost predicate IsCompiled(w: Workflow, gadgets: seq<Gadget>, query: Node) {
    && query.id == EXECUTE && query.kind.ExecuteQuery?
    && w.nodes == AllNodes(gadgets) + [query, FINISH]
    && w.edges == AllEdges(gadgets) + [Edge(EXECUTE, COMPLETE, Always)]
  }

  /** Whatever was acquired and however, a compiled workflow has no cycle. */
  lemma CompiledIsAcyclic(w: Workflow, gadgets: seq<Gadget>, query: Node)
    requires IsCompiled(w, gadgets, query)
    ensures !Cyclic(GraphOf(w))
  {
    var g := GraphOf(w);
    forall a | a in g.arcs ensures Level(a.0) < Level(a.1) {
      var e :| e in w.edges && e.source == a.0 && e.target == a.1;
      EdgesDescend(gadgets, e);
    }
    RankedIsAcyclic(g, n => Level(n));
  }

  // --------------------------------------------------------------------- unique ids

  /** No parameter is probed twice and none is asked for twice. */
  ghost predicate DistinctHeads(gadgets: seq<Gadget>) {
    forall i, j | 0 <= i < j < |gadgets| :: Head(gadgets[i]) != Head(gadgets[j])
  }

  /** The ids a gadget introduces. */
  predicate Introduces(g: Gadget, id: NodeId) {
    match g
    case Probing(name, _, _, _, _) =>
      id == ResolveId(name) || id == BranchId(name) || id == NotFoundId(name) || id == SelectId(name)
    case Asking(name) => id == ClarifyId(name)
  }

  lemma GadgetIds(g: Gadget)
    ensures UniqueIds(GadgetNodes(g))
    ensures forall id :: id in Ids(GadgetNodes(g)) <==> Introduces(g, id)
  {
    Levels(g.name);
    var nodes := GadgetNodes(g);
    if g.Probing? {
      assert nodes[0] in nodes && nodes[1] in nodes && nodes[2] in nodes && nodes[3] in nodes;
    } else {
      assert nodes[0] in nodes;
    }
  }

  lemma Unrelated(g: Gadget, h: Gadget, id: NodeId)
    requires Head(g) != Head(h) && Introduces(g, id)
    ensures !Introduces(h, id)
  {
    if g.name != h.name { IdsInjective(g.name, h.name); }
    Levels(g.name);
    Levels(h.name);
  }

  lemma HeadIsIntroduced(g: Gadget)
    ensures Introduces(g, Head(g)) && Head(g) in Ids(GadgetNodes(g))
  {
    GadgetIds(g);
  }

  /** The gadget by which an id is introduced is one of these. */
  predicate Made(gadgets: seq<Gadget>, id: NodeId) {
    exists g :: g in gadgets && Introduces(g, id)
  }

  ghost predicate MadeBy(gadgets: seq<Gadget>, head: NodeId) {
    exists g :: g in gadgets && Head(g) == head
  }

  lemma MadeWithOneMore(gadgets: seq<Gadget>, g: Gadget, id: NodeId)
    ensures Made(gadgets + [g], id) <==> Made(gadgets, id) || Introduces(g, id)
    ensures MadeBy(gadgets + [g], id) <==> MadeBy(gadgets, id) || Head(g) == id
  {
    assert forall h :: h in gadgets + [g] <==> h in gadgets || h == g;
  }

  lemma {:induction false} AllIds(gadgets: seq<Gadget>, id: NodeId)
    ensures id in Ids(AllNodes(gadgets)) <==> Made(gadgets, id)
  {
    if gadgets != [] {
      var last, init := gadgets[|gadgets| - 1], gadgets[..|gadgets| - 1];
      assert gadgets == init + [last];
      AllIds(init, id);
      GadgetIds(last);
      MadeWithOneMore(init, last, id);
      IdsJoin(AllNodes(init), GadgetNodes(last));
    }
  }

  /** A gadget shares an id with others exactly if it shares its head with one. */
  lemma ApartIffHeadIsNew(gadgets: seq<Gadget>, g: Gadget)
    ensures Ids(AllNodes(gadgets)) !! Ids(GadgetNodes(g)) <==> !MadeBy(gadgets, Head(g))
  {
    GadgetIds(g);
    if MadeBy(gadgets, Head(g)) {
      var h :| h in gadgets && Head(h) == Head(g);
      HeadIsIntroduced(g);
      HeadIsIntroduced(h);
      AllIds(gadgets, Head(g));
    } else {
      forall id | id in Ids(AllNodes(gadgets)) ensures id !in Ids(GadgetNodes(g)) {
        AllIds(gadgets, id);
        var h :| h in gadgets && Introduces(h, id);
        Unrelated(h, g, id);
      }
    }
  }

  lemma DistinctWithOneMore(gadgets: seq<Gadget>, g: Gadget)
    ensures DistinctHeads(gadgets + [g]) <==> DistinctHeads(gadgets) && !MadeBy(gadgets, Head(g))
  {
    var more := gadgets + [g];
    assert forall i | 0 <= i < |gadgets| :: more[i] == gadgets[i];
    assert more[|gadgets|] == g;
  }

  lemma {:induction false} AllUnique(gadgets: seq<Gadget>)
    ensures UniqueIds(AllNodes(gadgets)) <==> DistinctHeads(gadgets)
  {
    if gadgets != [] {
      var last, init := gadgets[|gadgets| - 1], gadgets[..|gadgets| - 1];
      assert gadgets == init + [last];
      AllUnique(init);
      GadgetIds(last);
      ApartIffHeadIsNew(init, last);
      DistinctWithOneMore(init, last);
      UniqueJoinIff(AllNodes(init), GadgetNodes(last));
    }
  }

  lemma MadeIsBefore(gadgets: seq<Gadget>, id: NodeId)
    requires Made(gadgets, id)
    ensures id != EXECUTE && id != COMPLETE
  {
    var g :| g in gadgets && Introduces(g, id);
    Levels(g.name);
  }

  lemma TailIds(gadgets: seq<Gadget>, query: Node)
    requires query.id == EXECUTE
    ensures Ids([query, FINISH]) == {EXECUTE, COMPLETE} && UniqueIds([query, FINISH])
    ensures Ids(AllNodes(gadgets)) !! Ids([query, FINISH])
  {
    var tail := [query, FINISH];
    assert tail[0] in tail && tail[1] in tail;
    Levels("");
    forall id | id in Ids(AllNodes(gadgets)) ensures id !in {EXECUTE, COMPLETE} {
      AllIds(gadgets, id);
      MadeIsBefore(gadgets, id);
    }
  }

  /**
   * The ids of a compiled workflow are exactly the expected ones, and they are pairwise
   * distinct if and only if no parameter is probed twice and none is asked for twice.
   */
  lemma CompiledIds(w: Workflow, gadgets: seq<Gadget>, query: Node)
    requires IsCompiled(w, gadgets, query)
    ensures UniqueIds(w.nodes) <==> DistinctHeads(gadgets)
    ensures forall id :: id in Ids(w.nodes) <==> id == EXECUTE || id == COMPLETE || Made(gadgets, id)
  {
    AllUnique(gadgets);
    TailIds(gadgets, query);
    UniqueJoinIff(AllNodes(gadgets), [query, FINISH]);
    IdsJoin(AllNodes(gadgets), [query, FINISH]);
    forall id { AllIds(gadgets, id); }
  }

  lemma CompiledEdgesKnown(w: Workflow, gadgets: seq<Gadget>, query: Node)
    requires IsCompiled(w, gadgets, query)
    ensures EdgesKnown(w)
  {
    CompiledIds(w, gadgets, query);
    forall e | e in w.edges ensures e.source in Ids(w.nodes) && e.target in Ids(w.nodes) {
      if e in AllEdges(gadgets) {
        EdgeOfGadget(gadgets, e);
        var g :| g in gadgets && e in GadgetEdges(g);
        GadgetEdgeList(g, e);
        assert Introduces(g, e.source) && (e.target == EXECUTE || Introduces(g, e.target));
      }
    }
  }

  // ------------------------------------------------------------------------ entries

  lemma EdgeIsArc(w: Workflow, e: Edge)
    requires EdgesKnown(w) && e in w.edges
    ensures (e.source, e.target) in GraphOf(w).arcs
  {
  }

  lemma HeadIsEntry(w: Workflow, gadgets: seq<Gadget>, query: Node, g: Gadget)
    requires IsCompiled(w, gadgets, query) && g in gadgets
    ensures IsEntry(GraphOf(w), Head(g))
  {
    CompiledIds(w, gadgets, query);
    assert Introduces(g, Head(g));
    Levels(g.name);
    forall a | a in GraphOf(w).arcs ensures a.1 != Head(g) {
      var e :| e in w.edges && e.source == a.0 && e.target == a.1;
      EdgesDescend(gadgets, e);
    }
  }

  /** A node other than a head is an entry only if it is the query of a workflow without gadgets. */
  lemma OtherEntries(w: Workflow, gadgets: seq<Gadget>, query: Node, id: NodeId)
    requires IsCompiled(w, gadgets, query) && IsEntry(GraphOf(w), id)
    ensures (exists g :: g in gadgets && id == Head(g)) || (gadgets == [] && id == EXECUTE)
  {
    CompiledIds(w, gadgets, query);
    CompiledEdgesKnown(w, gadgets, query);
    assert id in Ids(w.nodes);
    var last := Edge(EXECUTE, COMPLETE, Always);
    assert last in w.edges;
    EdgeIsArc(w, last);
    if id == EXECUTE && gadgets != [] {
      GadgetReachesQuery(gadgets, gadgets[0]);
      var e :| e in AllEdges(gadgets) && e.target == EXECUTE;
      assert e in w.edges;
      EdgeIsArc(w, e);
    } else if id != EXECUTE {
      var g :| g in gadgets && Introduces(g, id);
      if id != Head(g) {
        InnerNodeIsTarget(gadgets, g, id);
        var e :| e in AllEdges(gadgets) && e.target == id;
        assert e in w.edges;
        EdgeIsArc(w, e);
      }
    }
  }

  lemma GadgetReachesQuery(gadgets: seq<Gadget>, g: Gadget)
    requires g in gadgets
    ensures exists e :: e in AllEdges(gadgets) && e.target == EXECUTE
  {
    var e := if g.Probing? then Edge(BranchId(g.name), EXECUTE, OnCardinality(One))
             else Edge(ClarifyId(g.name), EXECUTE, ClarificationAnswered);
    GadgetEdgeList(g, e);
    EdgeOfGadget(gadgets, e);
  }

  lemma InnerNodeIsTarget(gadgets: seq<Gadget>, g: Gadget, id: NodeId)
    requires g in gadgets && Introduces(g, id) && id != Head(g)
    ensures exists e :: e in AllEdges(gadgets) && e.target == id
  {
    var e := if id == BranchId(g.name) then Edge(ResolveId(g.name), BranchId(g.name), Always)
             else if id == NotFoundId(g.name) then Edge(BranchId(g.name), NotFoundId(g.name), OnCardinality(Zero))
             else Edge(BranchId(g.name), SelectId(g.name), OnCardinality(Many));
    GadgetEdgeList(g, e);
    EdgeOfGadget(gadgets, e);
  }

  lemma TwoEntriesAreNotOne(entries: set<NodeId>, a: NodeId, b: NodeId)
    requires a in entries && b in entries && a != b
    ensures forall e :: entries != {e}
  {
  }

  lemma SeveralGadgets(w: Workflow, gadgets: seq<Gadget>, query: Node)
    requires IsCompiled(w, gadgets, query) && DistinctHeads(gadgets) && |gadgets| > 1
    ensures !SingleEntry(w)
  {
    HeadIsEntry(w, gadgets, query, gadgets[0]);
    HeadIsEntry(w, gadgets, query, gadgets[1]);
    TwoEntriesAreNotOne(EntrySet(GraphOf(w)), Head(gadgets[0]), Head(gadgets[1]));
  }

  /** The entry of a workflow with at most one gadget. */
  function OnlyEntry(gadgets: seq<Gadget>): NodeId {
    if gadgets == [] then EXECUTE else Head(gadgets[0])
  }

  lemma SoleEntry(g: Graph, entry: NodeId)
    requires IsEntry(g, entry) && forall id | IsEntry(g, id) :: id == entry
    ensures EntrySet(g) == {entry}
  {
  }

  lemma OnlyEntryIsEntry(w: Workflow, gadgets: seq<Gadget>, query: Node)
    requires IsCompiled(w, gadgets, query)
    ensures IsEntry(GraphOf(w), OnlyEntry(gadgets))
  {
    if gadgets == [] { QueryIsEntry(w, gadgets, query); } else { HeadIsEntry(w, gadgets, query, gadgets[0]); }
  }

  lemma EntriesWithFew(w: Workflow, gadgets: seq<Gadget>, query: Node, id: NodeId)
    requires IsCompiled(w, gadgets, query) && |gadgets| <= 1 && IsEntry(GraphOf(w), id)
    ensures id == OnlyEntry(gadgets)
  {
    OtherEntries(w, gadgets, query, id);
    if gadgets != [] { assert gadgets == [gadgets[0]]; }
  }

  lemma AtMostOneGadget(w: Workflow, gadgets: seq<Gadget>, query: Node)
    requires IsCompiled(w, gadgets, query) && |gadgets| <= 1
    ensures EntrySet(GraphOf(w)) == {OnlyEntry(gadgets)}
  {
    OnlyEntryIsEntry(w, gadgets, query);
    forall id | IsEntry(GraphOf(w), id) ensures id == OnlyEntry(gadgets) {
      EntriesWithFew(w, gadgets, query, id);
    }
    SoleEntry(GraphOf(w), OnlyEntry(gadgets));
  }

  /**
   * A compiled workflow has exactly one entry node exactly when at most one parameter was
   * acquired by a probe or a question.
   */
  lemma SingleEntryIffOneGadget(w: Workflow, gadgets: seq<Gadget>, query: Node)
    requires IsCompiled(w, gadgets, query) && DistinctHeads(gadgets)
    ensures SingleEntry(w) <==> |gadgets| <= 1
  {
    if |gadgets| > 1 {
      SeveralGadgets(w, gadgets, query);
    } else {
      AtMostOneGadget(w, gadgets, query);
    }
  }

  lemma QueryIsEntry(w: Workflow, gadgets: seq<Gadget>, query: Node)
    requires IsCompiled(w, gadgets, query) && gadgets == []
    ensures IsEntry(GraphOf(w), EXECUTE)
  {
  }

  // ------------------------------------------------------- resumes and bindings

  lemma StepPath(w: Workflow, e: Edge)
    requires EdgesKnown(w) && e in w.edges
    ensures PathBetween(GraphOf(w), e.source, [e.source, e.target], e.target)
  {
  }

  lemma GadgetStep(w: Workflow, gadgets: seq<Gadget>, query: Node, g: Gadget, e: Edge)
    requires IsCompiled(w, gadgets, query) && g in gadgets && e in GadgetEdges(g)
    ensures PathBetween(GraphOf(w), e.source, [e.source, e.target], e.target)
  {
    CompiledIds(w, gadgets, query);
    CompiledEdgesKnown(w, gadgets, query);
    EdgeOfGadget(gadgets, e);
    assert e in w.edges;
    StepPath(w, e);
  }

  lemma StepReaches(g: Graph, a: NodeId, b: NodeId)
    requires PathBetween(g, a, [a, b], b)
    ensures Reaches(g, a, b)
  {
  }

  lemma TwoStepsReach(g: Graph, a: NodeId, b: NodeId, c: NodeId)
    requires PathBetween(g, a, [a, b], b) && PathBetween(g, b, [b, c], c)
    ensures Reaches(g, a, c)
  {
    JoinPaths(g, [a, b], [b, c]);
    assert [a, b] + [b, c][1..] == [a, b, c];
    assert PathBetween(g, a, [a, b, c], c);
  }

  lemma HeadLeadsToQuery(w: Workflow, gadgets: seq<Gadget>, query: Node, g: Gadget)
    requires IsCompiled(w, gadgets, query) && g in gadgets
    ensures Reaches(GraphOf(w), Head(g), EXECUTE)
  {
    if g.Probing? {
      var first := Edge(ResolveId(g.name), BranchId(g.name), Always);
      var second := Edge(BranchId(g.name), EXECUTE, OnCardinality(One));
      GadgetEdgeList(g, first);
      GadgetEdgeList(g, second);
      GadgetStep(w, gadgets, query, g, first);
      GadgetStep(w, gadgets, query, g, second);
      TwoStepsReach(GraphOf(w), ResolveId(g.name), BranchId(g.name), EXECUTE);
    } else {
      var only := Edge(ClarifyId(g.name), EXECUTE, ClarificationAnswered);
      GadgetEdgeList(g, only);
      GadgetStep(w, gadgets, query, g, only);
      StepReaches(GraphOf(w), ClarifyId(g.name), EXECUTE);
    }
  }

  lemma SelectionLeadsToQuery(w: Workflow, gadgets: seq<Gadget>, query: Node, g: Gadget)
    requires IsCompiled(w, gadgets, query) && g in gadgets && g.Probing?
    ensures Reaches(GraphOf(w), SelectId(g.name), EXECUTE)
  {
    var e := Edge(SelectId(g.name), EXECUTE, ClarificationAnswered);
    GadgetEdgeList(g, e);
    GadgetStep(w, gadgets, query, g, e);
    StepReaches(GraphOf(w), SelectId(g.name), EXECUTE);
  }

  lemma GadgetInterrupt(g: Gadget, n: Node)
    requires n in GadgetNodes(g) && n.kind.ClarificationInterrupt? && !(g.Probing? && g.probe.ClarificationInterrupt?)
    ensures n.kind.resume == EXECUTE && n.id == if g.Probing? then SelectId(g.name) else Head(g)
  {
  }

  /** What `BuildProbe` makes: the probe of a gadget is always a resolver node. */
  ghost predicate ProbesResolve(gadgets: seq<Gadget>) {
    forall g :: g in gadgets && g.Probing? ==> g.probe.ResolveEntity?
  }

  /** Every clarification of a compiled workflow can be resumed: its resume node is reachable. */
  lemma CompiledResumesReachable(w: Workflow, gadgets: seq<Gadget>, query: Node, n: Node)
    requires IsCompiled(w, gadgets, query) && ProbesResolve(gadgets)
    requires n in w.nodes && n.kind.ClarificationInterrupt?
    ensures n.kind.resume in Ids(w.nodes) && Reaches(GraphOf(w), n.id, n.kind.resume)
  {
    CompiledIds(w, gadgets, query);
    assert n in AllNodes(gadgets);
    NodeOfGadget(gadgets, n);
    var g :| g in gadgets && n in GadgetNodes(g);
    GadgetInterrupt(g, n);
    if g.Probing? { SelectionLeadsToQuery(w, gadgets, query, g); } else { HeadLeadsToQuery(w, gadgets, query, g); }
  }

  /** In every topological order the head of a gadget, which binds its parameter, precedes the query. */
  lemma GadgetPrecedesQuery(w: Workflow, gadgets: seq<Gadget>, query: Node, g: Gadget, order: seq<NodeId>, i: nat,
                            j: nat)
    requires IsCompiled(w, gadgets, query) && g in gadgets
    requires IsTopological(GraphOf(w), order)
    requires i < |order| && j < |order| && order[i] == Head(g) && order[j] == EXECUTE
    ensures i < j
  {
    CompiledIds(w, gadgets, query);
    GraphIsWellFormed(w);
    HeadLeadsToQuery(w, gadgets, query, g);
    var p :| PathBetween(GraphOf(w), Head(g), p, EXECUTE);
    Levels(g.name);
    PathFollowsOrder(GraphOf(w), order, p, i, j);
  }

  // -------------------------------------------------------- what the compiler returns

  /** Acquiring the parameter takes a probe or a question. */
  predicate NeedsGadget(capability: Capability, p: ParameterPolicy, facts: Facts, catalog: Catalog) {
    && IsAcquired(capability, p, catalog)
    && Acquire(capability, p, facts, catalog).Ok?
    && Acquire(capability, p, facts, catalog).value.gadget.Some?
  }

  /** The node by which the parameter is probed or asked for, if it is. */
  function HeadOf(capability: Capability, p: ParameterPolicy, facts: Facts, catalog: Catalog): Option<NodeId> {
    if NeedsGadget(capability, p, facts, catalog)
    then Some(Head(Acquire(capability, p, facts, catalog).value.gadget.value))
    else None
  }

  predicate HeadAt(capability: Capability, facts: Facts, catalog: Catalog, j: nat, id: NodeId)
    requires j < |capability.policies|
  {
    HeadOf(capability, capability.policies[j], facts, catalog) == Some(id)
  }

  ghost predicate HeadBefore(capability: Capability, facts: Facts, catalog: Catalog, i: nat, id: NodeId)
    requires i <= |capability.policies|
  {
    exists j :: 0 <= j < i && HeadAt(capability, facts, catalog, j, id)
  }

  /** Of the first `i` policies no two probe the same name and no two ask for the same name. */
  ghost predicate NoneTwice(capability: Capability, facts: Facts, catalog: Catalog, i: nat)
    requires i <= |capability.policies|
  {
    forall k, id | 0 <= k < i && HeadAt(capability, facts, catalog, k, id) ::
        !HeadBefore(capability, facts, catalog, k, id)
  }

  function CountGadgets(capability: Capability, facts: Facts, catalog: Catalog, i: nat): nat
    requires i <= |capability.policies|
  {
    if i == 0 then 0
    else CountGadgets(capability, facts, catalog, i - 1)
         + if NeedsGadget(capability, capability.policies[i - 1], facts, catalog) then 1 else 0
  }

  /** An acquired value comes from its own gadget, from the given facts, or from no node at all. */
  ghost predicate Sourced(a: Acquired, p: ParameterPolicy, facts: Facts) {
    && (a.gadget.Some? ==> a.gadget.value.name == p.name && ProducerOf(a.source) == Some(Head(a.gadget.value))
                           && (a.gadget.value.Probing? ==> a.gadget.value.probe.ResolveEntity?))
    && (a.gadget.None? && ProducerOf(a.source).Some? ==> p.name in facts.safePrior || p.name in facts.priorSteps)
  }

  lemma {:induction false} TriedIsSourced(strategies: seq<Strategy>, p: ParameterPolicy, facts: Facts, catalog: Catalog)
    ensures TryInOrder(strategies, p, facts, catalog).Ok? ==>
            Sourced(TryInOrder(strategies, p, facts, catalog).value, p, facts)
  {
    if strategies != [] && TryStrategy(strategies[0], p, facts, catalog).None? {
      TriedIsSourced(strategies[1..], p, facts, catalog);
    }
  }

  /** What the parameter loop has built after its first `i` policies. */
  ghost predicate Acquires(capability: Capability, facts: Facts, catalog: Catalog, i: nat, inputs: seq<NodeInput>,
                           gadgets: seq<Gadget>)
    requires i <= |capability.policies|
  {
    && |gadgets| == CountGadgets(capability, facts, catalog, i)
    && (forall g :: g in gadgets && g.Probing? ==> g.probe.ResolveEntity?)
    && (forall input :: input in inputs && ProducerOf(input.source).Some? ==>
          || input.parameter in facts.safePrior || input.parameter in facts.priorSteps
          || MadeBy(gadgets, ProducerOf(input.source).value))
  }

  lemma AcquireStep(capability: Capability, facts: Facts, catalog: Catalog, i: nat, inputs: seq<NodeInput>,
                    gadgets: seq<Gadget>, a: Acquired)
    requires i < |capability.policies| && Acquires(capability, facts, catalog, i, inputs, gadgets)
    requires IsAcquired(capability, capability.policies[i], catalog)
    requires Acquire(capability, capability.policies[i], facts, catalog) == Ok(a)
    ensures
      var p := capability.policies[i];
      var more := if a.gadget.Some? then gadgets + [a.gadget.value] else gadgets;
      Acquires(capability, facts, catalog, i + 1, inputs + [NodeInput(p.name, p.kind, a.source)], more)
  {
    var p := capability.policies[i];
    TriedIsSourced(Strategies(p), p, facts, catalog);
    assert Sourced(a, p, facts);
    var more := if a.gadget.Some? then gadgets + [a.gadget.value] else gadgets;
    assert a.gadget.Some? ==> a.gadget.value in more;
    forall input | input in inputs + [NodeInput(p.name, p.kind, a.source)] && ProducerOf(input.source).Some?
      ensures input.parameter in facts.safePrior || input.parameter in facts.priorSteps ||
              MadeBy(more, ProducerOf(input.source).value)
    {
      if input in inputs && MadeBy(gadgets, ProducerOf(input.source).value) {
        var g :| g in gadgets && Head(g) == ProducerOf(input.source).value;
        assert g in more;
      }
    }
  }

  lemma SkipStep(capability: Capability, facts: Facts, catalog: Catalog, i: nat, inputs: seq<NodeInput>,
                 gadgets: seq<Gadget>)
    requires i < |capability.policies| && Acquires(capability, facts, catalog, i, inputs, gadgets)
    requires !IsAcquired(capability, capability.policies[i], catalog)
    ensures Acquires(capability, facts, catalog, i + 1, inputs, gadgets)
  {
  }

  lemma {:induction false} AcquiredSoFar(capability: Capability, facts: Facts, catalog: Catalog, i: nat)
    requires i <= |capability.policies| && AcquireUpTo(capability, facts, catalog, i).Ok?
    ensures
      var (inputs, gadgets) := AcquireUpTo(capability, facts, catalog, i).value;
      Acquires(capability, facts, catalog, i, inputs, gadgets)
  {
    if i > 0 {
      AcquiredSoFar(capability, facts, catalog, i - 1);
      var (inputs, gadgets) := AcquireUpTo(capability, facts, catalog, i - 1).value;
      if IsAcquired(capability, capability.policies[i - 1], catalog) {
        AcquireStep(capability, facts, catalog, i - 1, inputs, gadgets,
                    Acquire(capability, capability.policies[i - 1], facts, catalog).value);
      } else {
        SkipStep(capability, facts, catalog, i - 1, inputs, gadgets);
      }
    }
  }

  lemma NoneTwiceStep(capability: Capability, facts: Facts, catalog: Catalog, i: nat, id: NodeId)
    requires i < |capability.policies| && HeadAt(capability, facts, catalog, i, id)
    ensures NoneTwice(capability, facts, catalog, i + 1) <==>
            NoneTwice(capability, facts, catalog, i) && !HeadBefore(capability, facts, catalog, i, id)
  {
  }

  lemma NoneTwiceSkip(capability: Capability, facts: Facts, catalog: Catalog, i: nat)
    requires i < |capability.policies| && HeadOf(capability, capability.policies[i], facts, catalog).None?
    ensures NoneTwice(capability, facts, catalog, i + 1) <==> NoneTwice(capability, facts, catalog, i)
  {
  }

  lemma HeadBeforeStep(capability: Capability, facts: Facts, catalog: Catalog, i: nat, id: NodeId)
    requires i < |capability.policies|
    ensures HeadBefore(capability, facts, catalog, i + 1, id) <==>
            HeadBefore(capability, facts, catalog, i, id) || HeadAt(capability, facts, catalog, i, id)
  {
  }

  /** What one more policy adds to the gadgets. */
  function Extended(gadgets: seq<Gadget>, g: Option<Gadget>): seq<Gadget> {
    if g.Some? then gadgets + [g.value] else gadgets
  }

  lemma GadgetsStep(capability: Capability, facts: Facts, catalog: Catalog, i: nat) returns (g: Option<Gadget>)
    requires 0 < i <= |capability.policies| && AcquireUpTo(capability, facts, catalog, i).Ok?
    ensures AcquireUpTo(capability, facts, catalog, i - 1).Ok?
    ensures
      var before := AcquireUpTo(capability, facts, catalog, i - 1).value.1;
      AcquireUpTo(capability, facts, catalog, i).value.1 == Extended(before, g)
    ensures HeadOf(capability, capability.policies[i - 1], facts, catalog) ==
            if g.Some? then Some(Head(g.value)) else None
  {
    var p := capability.policies[i - 1];
    g := if NeedsGadget(capability, p, facts, catalog) then Acquire(capability, p, facts, catalog).value.gadget
        else None;
  }

  /** The heads of the gadgets are those of the policies. */
  lemma {:induction false} HeadsSoFar(capability: Capability, facts: Facts, catalog: Catalog, i: nat, id: NodeId)
    requires i <= |capability.policies| && AcquireUpTo(capability, facts, catalog, i).Ok?
    ensures MadeBy(AcquireUpTo(capability, facts, catalog, i).value.1, id) <==>
            HeadBefore(capability, facts, catalog, i, id)
  {
    if i > 0 {
      var g := GadgetsStep(capability, facts, catalog, i);
      HeadsSoFar(capability, facts, catalog, i - 1, id);
      HeadBeforeStep(capability, facts, catalog, i - 1, id);
      if g.Some? { MadeWithOneMore(AcquireUpTo(capability, facts, catalog, i - 1).value.1, g.value, id); }
    }
  }

  lemma DistinctStep(capability: Capability, facts: Facts, catalog: Catalog, i: nat, before: seq<Gadget>,
                     g: Option<Gadget>)
    requires i < |capability.policies|
    requires HeadOf(capability, capability.policies[i], facts, catalog) == if g.Some? then Some(Head(g.value)) else None
    requires DistinctHeads(before) <==> NoneTwice(capability, facts, catalog, i)
    requires g.Some? ==> (MadeBy(before, Head(g.value)) <==> HeadBefore(capability, facts, catalog, i, Head(g.value)))
    ensures DistinctHeads(Extended(before, g)) <==> NoneTwice(capability, facts, catalog, i + 1)
  {
    if g.Some? {
      DistinctWithOneMore(before, g.value);
      NoneTwiceStep(capability, facts, catalog, i, Head(g.value));
    } else {
      NoneTwiceSkip(capability, facts, catalog, i);
    }
  }

  /** Heads repeat among the gadgets exactly as they do among the policies. */
  lemma {:induction false} DistinctSoFar(capability: Capability, facts: Facts, catalog: Catalog, i: nat)
    requires i <= |capability.policies| && AcquireUpTo(capability, facts, catalog, i).Ok?
    ensures DistinctHeads(AcquireUpTo(capability, facts, catalog, i).value.1) <==>
            NoneTwice(capability, facts, catalog, i)
  {
    if i > 0 {
      var g := GadgetsStep(capability, facts, catalog, i);
      DistinctSoFar(capability, facts, catalog, i - 1);
      if g.Some? { HeadsSoFar(capability, facts, catalog, i - 1, Head(g.value)); }
      DistinctStep(capability, facts, catalog, i - 1, AcquireUpTo(capability, facts, catalog, i - 1).value.1, g);
    }
  }

  /** The capability the first id stands for, as compiling it succeeded. */
  ghost predicate CompiledFrom(id: WorkflowId, ids: seq<string>, catalog: Catalog, budgets: Budgets, facts: Facts,
                               w: Workflow, capability: Capability) {
    && CompileCapability(id, ids, catalog, budgets, facts) == Ok(w)
    && FindApproved(catalog.capabilities, ids[0]) == Some(capability)
  }

  lemma CompiledIsCompiled(id: WorkflowId, ids: seq<string>, catalog: Catalog, budgets: Budgets, facts: Facts,
                           w: Workflow, capability: Capability)
    requires CompiledFrom(id, ids, catalog, budgets, facts, w, capability)
    ensures AcquireUpTo(capability, facts, catalog, |capability.policies|).Ok?
    ensures
      var (inputs, gadgets) := AcquireUpTo(capability, facts, catalog, |capability.policies|).value;
      && IsCompiled(w, gadgets, QueryNode(capability, catalog, inputs))
      && |w.nodes| >= 2 && w.nodes[|w.nodes| - 2] == QueryNode(capability, catalog, inputs)
      && Acquires(capability, facts, catalog, |capability.policies|, inputs, gadgets)
  {
    AcquiredSoFar(capability, facts, catalog, |capability.policies|);
  }

  /**
   * What compiling any capability guarantees, whatever facts it was given: the graph has no
   * cycle and every edge is known. Ids are unique if and only if no two policies probe the
   * same name and no two ask for the same name, and then the graph has one entry exactly
   * when at most one parameter took a probe or a question.
   */
  lemma CompiledGraph(id: WorkflowId, ids: seq<string>, catalog: Catalog, budgets: Budgets, facts: Facts, w: Workflow,
                      capability: Capability)
    requires CompiledFrom(id, ids, catalog, budgets, facts, w, capability)
    ensures !Cyclic(GraphOf(w)) && EdgesKnown(w) && HasComplete(w)
    ensures UniqueIds(w.nodes) <==> NoneTwice(capability, facts, catalog, |capability.policies|)
    ensures UniqueIds(w.nodes) ==>
              (SingleEntry(w) <==> CountGadgets(capability, facts, catalog, |capability.policies|) <= 1)
  {
    CompiledIsCompiled(id, ids, catalog, budgets, facts, w, capability);
    var (inputs, gadgets) := AcquireUpTo(capability, facts, catalog, |capability.policies|).value;
    DistinctSoFar(capability, facts, catalog, |capability.policies|);
    var query := QueryNode(capability, catalog, inputs);
    CompiledIsAcyclic(w, gadgets, query);
    CompiledIds(w, gadgets, query);
    CompiledEdgesKnown(w, gadgets, query);
    assert FINISH in w.nodes;
    if UniqueIds(w.nodes) { SingleEntryIffOneGadget(w, gadgets, query); }
  }

  /**
   * Without facts from earlier turns, every node the query takes a value from precedes it in
   * every topological order.
   */
  lemma CompiledBindingsPrecede(id: WorkflowId, ids: seq<string>, catalog: Catalog, budgets: Budgets, facts: Facts,
                                w: Workflow,
                                capability: Capability, input: NodeInput, order: seq<NodeId>, i: nat, j: nat)
    requires CompiledFrom(id, ids, catalog, budgets, facts, w, capability)
    requires facts.safePrior == map[] && facts.priorSteps == map[]
    requires |w.nodes| >= 2 && input in w.nodes[|w.nodes| - 2].inputs && ProducerOf(input.source).Some?
    requires IsTopological(GraphOf(w), order) && i < |order| && j < |order|
    requires order[i] == ProducerOf(input.source).value && order[j] == EXECUTE
    ensures i < j
  {
    CompiledIsCompiled(id, ids, catalog, budgets, facts, w, capability);
    var (inputs, gadgets) := AcquireUpTo(capability, facts, catalog, |capability.policies|).value;
    assert MadeBy(gadgets, ProducerOf(input.source).value);
    var g :| g in gadgets && Head(g) == ProducerOf(input.source).value;
    GadgetPrecedesQuery(w, gadgets, QueryNode(capability, catalog, inputs), g, order, i, j);
  }

  /** Every clarification of a compiled workflow can be resumed. */
  lemma CompiledClarificationsResume(id: WorkflowId, ids: seq<string>, catalog: Catalog, budgets: Budgets,
                                     facts: Facts, w: Workflow,
                                     capability: Capability, n: Node)
    requires CompiledFrom(id, ids, catalog, budgets, facts, w, capability)
    requires n in w.nodes && n.kind.ClarificationInterrupt?
    ensures n.kind.resume in Ids(w.nodes) && Reaches(GraphOf(w), n.id, n.kind.resume)
  {
    CompiledIsCompiled(id, ids, catalog, budgets, facts, w, capability);
    var (inputs, gadgets) := AcquireUpTo(capability, facts, catalog, |capability.policies|).value;
    CompiledResumesReachable(w, gadgets, QueryNode(capability, catalog, inputs), n);
  }

  // ------------------------------------------------------------ compiler against verifier

  lemma {:induction false} FoundDatasetId(all: seq<Dataset>, id: string)
    ensures FindDataset(all, id).Some? ==> FindDataset(all, id).value.id == id
  {
    if all != [] { FoundDatasetId(all[1..], id); }
  }

  lemma {:induction false} FoundShapeId(all: seq<Shape>, id: string)
    ensures FindShape(all, id).Some? ==> FindShape(all, id).value.id == id
  {
    if all != [] { FoundShapeId(all[1..], id); }
  }

  /**
   * The compiler probes with resolver and probe shapes alike; the verifier accepts the node
   * it makes exactly when the shape is a resolver.
   */
  lemma ProbeVerifiesIffResolver(name: string, probe: ProbeRef, catalog: Catalog, g: Gadget)
    requires BuildProbe(name, probe, catalog) == Ok(g)
    ensures CheckResources(GadgetNodes(g)[0], catalog).None? <==>
            FindShape(FindDataset(catalog.datasets, probe.datasetId).value.shapes, probe.shapeId).value.role.Resolver?
  {
    FoundDatasetId(catalog.datasets, probe.datasetId);
    FoundShapeId(FindDataset(catalog.datasets, probe.datasetId).value.shapes, probe.shapeId);
  }
}
