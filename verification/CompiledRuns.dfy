/** What the shape of compiled workflows means for every history of their runs. */
module CompiledRuns {
  import opened Wrappers
  import opened Contract
  import opened Scheduler
  import opened Store
  import opened History
  import opened Branching
  import opened Compiler
  import opened CompiledShape

  lemma GadgetStartsElsewhere(w: Workflow, gadgets: seq<Gadget>, query: Node, g: Gadget, p: seq<NodeId>, id: NodeId)
    requires IsCompiled(w, gadgets, query) && g in gadgets && EdgePath(w, p) && p[|p| - 1] == id
    requires id == EXECUTE || (Introduces(g, id) && id != Head(g))
    ensures |p| > 1
  {
    if id == EXECUTE { GadgetReachesQuery(gadgets, g); } else { InnerNodeIsTarget(gadgets, g, id); }
    var e :| e in AllEdges(gadgets) && e.target == id;
    assert e in w.edges;
  }

  /** The edges into a node of the only gadget. */
  lemma EdgesInto(w: Workflow, g: Gadget, query: Node, e: Edge)
    requires IsCompiled(w, [g], query) && g.Probing? && e in w.edges
    ensures e.target == NotFoundId(g.name) ==> e == Edge(BranchId(g.name), NotFoundId(g.name), OnCardinality(Zero))
    ensures e.target == SelectId(g.name) ==> e == Edge(BranchId(g.name), SelectId(g.name), OnCardinality(Many))
    ensures e.target == EXECUTE ==> e == Edge(BranchId(g.name), EXECUTE, OnCardinality(One))
                                    || e == Edge(SelectId(g.name), EXECUTE, ClarificationAnswered)
    ensures e.source == BranchId(g.name) ==> e.condition.OnCardinality?
    ensures e.source == BranchId(g.name) && e.target != NotFoundId(g.name) ==> e.condition.expected in {One, Many}
  {
    Levels(g.name);
    if e in AllEdges([g]) {
      EdgeOfGadget([g], e);
      GadgetEdgeList(g, e);
    }
  }

  lemma EdgeIntoNotFound(w: Workflow, gadgets: seq<Gadget>, query: Node, g: Gadget, e: Edge)
    requires IsCompiled(w, gadgets, query) && e in w.edges && e.target == NotFoundId(g.name)
    ensures e == Edge(BranchId(g.name), NotFoundId(g.name), OnCardinality(Zero))
  {
    Levels(g.name);
    if e in AllEdges(gadgets) {
      EdgeOfGadget(gadgets, e);
      var h :| h in gadgets && e in GadgetEdges(h);
      GadgetEdgeList(h, e);
      Levels(h.name);
      if h.name != g.name { IdsInjective(h.name, g.name); }
    }
  }

  lemma NotFoundThroughZero(w: Workflow, gadgets: seq<Gadget>, query: Node, g: Gadget)
    requires IsCompiled(w, gadgets, query) && g in gadgets && g.Probing?
    ensures OnlyThroughArms(w, BranchId(g.name), {Zero}, NotFoundId(g.name))
  {
    var b, n := BranchId(g.name), NotFoundId(g.name);
    forall e | e in w.edges && e.target == n { EdgeIntoNotFound(w, gadgets, query, g, e); }
    assert LabelledWith(w, b, {Zero}, n);
    forall p | EdgePath(w, p) && p[|p| - 1] == n
      ensures exists i :: 0 <= i < |p| - 1 && p[i] == b && LabelledWith(w, b, {Zero}, p[i + 1])
    {
      Levels(g.name);
      GadgetStartsElsewhere(w, gadgets, query, g, p, n);
      var i := |p| - 2;
      assert HasEdge(w, p[i], p[i + 1]);
      assert p[i] == b && LabelledWith(w, b, {Zero}, p[i + 1]);
    }
  }

  lemma PathInit(w: Workflow, p: seq<NodeId>)
    requires EdgePath(w, p) && |p| > 1
    ensures EdgePath(w, p[..|p| - 1])
  {
    var q := p[..|p| - 1];
    forall i, j | 0 <= i < j < |q| && j == i + 1 ensures HasEdge(w, q[i], q[j]) {
      assert HasEdge(w, p[i], p[j]);
    }
  }

  lemma StepInto(w: Workflow, g: Gadget, query: Node, p: seq<NodeId>) returns (e: Edge)
    requires IsCompiled(w, [g], query) && g.Probing? && EdgePath(w, p)
    requires p[|p| - 1] == EXECUTE || p[|p| - 1] == SelectId(g.name)
    ensures |p| > 1 && e in w.edges && e.source == p[|p| - 2] && e.target == p[|p| - 1]
  {
    Levels(g.name);
    GadgetStartsElsewhere(w, [g], query, g, p, p[|p| - 1]);
    assert HasEdge(w, p[|p| - 2], p[|p| - 1]);
    e :| e in w.edges && e.source == p[|p| - 2] && e.target == p[|p| - 1];
  }

  lemma LastStepIntoQuery(w: Workflow, g: Gadget, query: Node, p: seq<NodeId>) returns (i: nat)
    requires IsCompiled(w, [g], query) && g.Probing? && EdgePath(w, p) && p[|p| - 1] == EXECUTE
    ensures i + 1 < |p| && p[i] == BranchId(g.name) && (p[i + 1] == EXECUTE || p[i + 1] == SelectId(g.name))
  {
    var e := StepInto(w, g, query, p);
    EdgesInto(w, g, query, e);
    i := |p| - 2;
    if p[i] != BranchId(g.name) {
      PathInit(w, p);
      var f := StepInto(w, g, query, p[..|p| - 1]);
      EdgesInto(w, g, query, f);
      Levels(g.name);
      i := |p| - 3;
    }
  }

  lemma QueryThroughOneOrMany(w: Workflow, g: Gadget, query: Node)
    requires IsCompiled(w, [g], query) && g.Probing?
    ensures OnlyThroughArms(w, BranchId(g.name), {One, Many}, EXECUTE)
  {
    var b := BranchId(g.name);
    Levels(g.name);
    forall e | e in w.edges { EdgesInto(w, g, query, e); }
    assert LabelledWith(w, b, {One, Many}, EXECUTE) && LabelledWith(w, b, {One, Many}, SelectId(g.name));
    forall p | EdgePath(w, p) && p[|p| - 1] == EXECUTE
      ensures exists i :: 0 <= i < |p| - 1 && p[i] == b && LabelledWith(w, b, {One, Many}, p[i + 1])
    {
      var i := LastStepIntoQuery(w, g, query, p);
      assert p[i] == b && LabelledWith(w, b, {One, Many}, p[i + 1]);
    }
  }

  /**
   * With one probe, "not found" and the query exclude each other in every history: the
   * query never runs for an entity that was not found.
   */
  lemma NotFoundExcludesQuery(defs: Definitions, db: Db, events: seq<Event>, wid: WorkflowId, g: Gadget, query: Node)
    requires Coherent(defs) && Initial(db) && wid in defs
    requires IsCompiled(defs[wid], [g], query) && g.Probing?
    ensures
      var t := Rows(After(defs, db, events), wid);
      !((exists r :: r in t && r.node == NotFoundId(g.name)) && (exists r :: r in t && r.node == EXECUTE))
  {
    NotFoundThroughZero(defs[wid], [g], query, g);
    QueryThroughOneOrMany(defs[wid], g, query);
    ArmsAreExclusive(defs, db, events, wid, BranchId(g.name), {Zero}, NotFoundId(g.name), {One, Many}, EXECUTE);
  }

  function BranchNode(name: string): Node {
    Node(BranchId(name), CardinalityBranch(ResolveId(name), NotFoundId(name), EXECUTE, SelectId(name)),
         [], [], PolicyOf(None), FREE, Pure)
  }

  /** The branch node of a parameter is the same however often the parameter is probed. */
  lemma BranchInGadget(h: Gadget, name: string, m: Node)
    requires m in GadgetNodes(h) && m.id == BranchId(name)
    ensures m == BranchNode(name)
  {
    Levels(h.name);
    Levels(name);
    if h.name != name { IdsInjective(h.name, name); }
  }

  lemma BranchIsMember(w: Workflow, gadgets: seq<Gadget>, query: Node, g: Gadget)
    requires IsCompiled(w, gadgets, query) && g in gadgets && g.Probing?
    ensures BranchNode(g.name) in w.nodes && Sole(w, BranchNode(g.name))
  {
    var n := GadgetNodes(g)[1];
    assert n in GadgetNodes(g) && n == BranchNode(g.name);
    NodeOfGadget(gadgets, n);
    forall m | m in w.nodes && m.id == BranchId(g.name) ensures m == n {
      Levels(g.name);
      if m in AllNodes(gadgets) {
        NodeOfGadget(gadgets, m);
        var h :| h in gadgets && m in GadgetNodes(h);
        BranchInGadget(h, g.name, m);
      }
    }
  }

  /**
   * However many parameters are probed, and however often: a not-found terminal is started only if its own
   * probe really returned nothing.
   */
  lemma NotFoundMeansNoRows(defs: Definitions, db: Db, events: seq<Event>, wid: WorkflowId, gadgets: seq<Gadget>,
                            query: Node, g: Gadget)
    requires Coherent(defs) && Initial(db) && wid in defs
    requires IsCompiled(defs[wid], gadgets, query) && g in gadgets && g.Probing?
    requires exists r :: r in Rows(After(defs, db, events), wid) && r.node == NotFoundId(g.name)
    ensures CardinalityFor(Rows(After(defs, db, events), wid), ResolveId(g.name)) == Some(Zero)
  {
    NotFoundThroughZero(defs[wid], gadgets, query, g);
    BranchIsMember(defs[wid], gadgets, query, g);
    ArmReflectsData(defs, db, events, wid, BranchNode(g.name), {Zero}, NotFoundId(g.name));
  }

  /** With one probe, the query is started only if the probe returned something. */
  lemma QueryMeansFound(defs: Definitions, db: Db, events: seq<Event>, wid: WorkflowId, g: Gadget, query: Node)
    requires Coherent(defs) && Initial(db) && wid in defs
    requires IsCompiled(defs[wid], [g], query) && g.Probing?
    requires exists r :: r in Rows(After(defs, db, events), wid) && r.node == EXECUTE
    ensures
      var c := CardinalityFor(Rows(After(defs, db, events), wid), ResolveId(g.name));
      c == Some(One) || c == Some(Many)
  {
    QueryThroughOneOrMany(defs[wid], g, query);
    BranchIsMember(defs[wid], [g], query, g);
    ArmReflectsData(defs, db, events, wid, BranchNode(g.name), {One, Many}, EXECUTE);
  }

  lemma HeadStartsPath(w: Workflow, gadgets: seq<Gadget>, query: Node, g: Gadget)
    requires IsCompiled(w, gadgets, query) && g in gadgets
    ensures EdgePath(w, [Head(g)])
  {
    Levels(g.name);
    forall e | e in w.edges ensures e.target != Head(g) { EdgesDescend(gadgets, e); }
  }

  lemma GadgetHasEdge(w: Workflow, gadgets: seq<Gadget>, query: Node, g: Gadget, e: Edge)
    requires IsCompiled(w, gadgets, query) && g in gadgets && e in GadgetEdges(g)
    ensures HasEdge(w, e.source, e.target)
  {
    EdgeOfGadget(gadgets, e);
    assert e in w.edges;
  }

  lemma PathOfTwo(w: Workflow, a: NodeId, b: NodeId)
    requires EdgePath(w, [a]) && HasEdge(w, a, b)
    ensures EdgePath(w, [a, b])
  {
  }

  lemma PathOfThree(w: Workflow, a: NodeId, b: NodeId, c: NodeId)
    requires EdgePath(w, [a]) && HasEdge(w, a, b) && HasEdge(w, b, c)
    ensures EdgePath(w, [a, b, c])
  {
  }

  /** A path to the query through one gadget, which meets no other. */
  lemma PathThroughGadget(w: Workflow, gadgets: seq<Gadget>, query: Node, g: Gadget) returns (p: seq<NodeId>)
    requires IsCompiled(w, gadgets, query) && g in gadgets
    ensures EdgePath(w, p) && p[|p| - 1] == EXECUTE
    ensures forall id :: id in p ==> id == EXECUTE || Introduces(g, id)
  {
    HeadStartsPath(w, gadgets, query, g);
    if g.Probing? {
      GadgetEdgeList(g, Edge(ResolveId(g.name), BranchId(g.name), Always));
      GadgetEdgeList(g, Edge(BranchId(g.name), EXECUTE, OnCardinality(One)));
      GadgetHasEdge(w, gadgets, query, g, Edge(ResolveId(g.name), BranchId(g.name), Always));
      GadgetHasEdge(w, gadgets, query, g, Edge(BranchId(g.name), EXECUTE, OnCardinality(One)));
      PathOfThree(w, ResolveId(g.name), BranchId(g.name), EXECUTE);
      p := [ResolveId(g.name), BranchId(g.name), EXECUTE];
    } else {
      GadgetEdgeList(g, Edge(ClarifyId(g.name), EXECUTE, ClarificationAnswered));
      GadgetHasEdge(w, gadgets, query, g, Edge(ClarifyId(g.name), EXECUTE, ClarificationAnswered));
      PathOfTwo(w, ClarifyId(g.name), EXECUTE);
      p := [ClarifyId(g.name), EXECUTE];
    }
  }

  lemma AroundTheBranch(w: Workflow, gadgets: seq<Gadget>, query: Node, g: Gadget, h: Gadget)
    requires IsCompiled(w, gadgets, query) && g in gadgets && h in gadgets && Head(g) != Head(h) && g.Probing?
    ensures !OnlyThroughArms(w, BranchId(g.name), {One, Many}, EXECUTE)
  {
    var p := PathThroughGadget(w, gadgets, query, h);
    Levels(g.name);
    Unrelated(g, h, BranchId(g.name));
    assert BranchId(g.name) !in p;
  }

  /**
   * The branch of a probe guards the query exactly when the probe is the only gadget: with
   * a second one the query can be reached around the branch.
   */
  lemma BranchGuardsQueryIffAlone(w: Workflow, gadgets: seq<Gadget>, query: Node, k: nat)
    requires IsCompiled(w, gadgets, query) && DistinctHeads(gadgets) && k < |gadgets| && gadgets[k].Probing?
    ensures OnlyThroughArms(w, BranchId(gadgets[k].name), {One, Many}, EXECUTE) <==> |gadgets| == 1
  {
    if |gadgets| == 1 {
      assert gadgets == [gadgets[0]];
      QueryThroughOneOrMany(w, gadgets[0], query);
    } else {
      var other := if k == 0 then 1 else 0;
      AroundTheBranch(w, gadgets, query, gadgets[k], gadgets[other]);
    }
  }
}
