/**
 * What expanding an iteration keeps: unique ids, every edge, cycles, entries and cost; and
 * what the verifier then says about the expanded workflow.
 */
module Expansion {
  import opened Wrappers
  import opened Contract
  import opened Catalogs
  import opened Graphs
  import opened Compiler
  import opened Verifier
  import opened Iteration

  // ------------------------------------------------------------------ what may be expanded

  lemma {:induction false} GroupedFound(shapes: seq<Shape>, slot: string)
    ensures FindGrouped(shapes, slot).Some? <==> exists s :: s in shapes && s.groupedBy == Some(slot)
  {
    if shapes != [] {
      GroupedFound(shapes[1..], slot);
      assert shapes[0] in shapes && forall s :: s in shapes <==> s == shapes[0] || s in shapes[1..];
    }
  }

  lemma {:induction false} ShapeFound(shapes: seq<Shape>, id: string)
    ensures FindShape(shapes, id).Some? <==> exists s :: s in shapes && s.id == id
  {
    if shapes != [] {
      ShapeFound(shapes[1..], id);
      assert shapes[0] in shapes && forall s :: s in shapes <==> s == shapes[0] || s in shapes[1..];
    }
  }

  /** The dataset can be asked once per value but has no shape that groups by it. */
  predicate IteratesOnly(d: Dataset, shape: string, slot: string) {
    && (exists s :: s in d.shapes && s.id == shape)
    && (exists f :: f in d.filters && f.listable)
    && (forall s :: s in d.shapes ==> s.groupedBy != Some(slot))
  }

  predicate MayExpand(n: Node, budgets: Budgets, catalog: Catalog) {
    match IterationOf(n)
    case None => true
    case Some(it) =>
      && 1 <= it.max <= budgets.maxQueryCount && CopiesNamed(n.id, it.max)
      && n.kind.dataset.Some? && n.kind.shape.Some?
      && FindDataset(catalog.datasets, n.kind.dataset.value).Some?
      && IteratesOnly(FindDataset(catalog.datasets, n.kind.dataset.value).value, n.kind.shape.value, it.slot)
  }

  lemma NoObjectionIff(n: Node, budgets: Budgets, catalog: Catalog)
    requires IterationOf(n).Some?
    ensures Objection(n, IterationOf(n).value, budgets, catalog).None? <==> MayExpand(n, budgets, catalog)
  {
    if n.kind.dataset.Some? && n.kind.shape.Some? && FindDataset(catalog.datasets, n.kind.dataset.value).Some? {
      var d := FindDataset(catalog.datasets, n.kind.dataset.value).value;
      GroupedFound(d.shapes, IterationOf(n).value.slot);
      ShapeFound(d.shapes, n.kind.shape.value);
    }
  }

  lemma {:induction false} FindGroupedIsFirst(shapes: seq<Shape>, slot: string)
    ensures match FindGrouped(shapes, slot)
            case None => FirstOf(shapes, (s: Shape) => s.groupedBy == Some(slot), None)
            case Some(id) => exists x :: FirstOf(shapes, (s: Shape) => s.groupedBy == Some(slot), Some(x)) && x.id == id
  {
    if shapes != [] {
      var groups := (s: Shape) => s.groupedBy == Some(slot);
      FindGroupedIsFirst(shapes[1..], slot);
      if groups(shapes[0]) {
        assert FirstOf(shapes, groups, Some(shapes[0]));
      } else if FindGrouped(shapes[1..], slot).Some? {
        var x :| FirstOf(shapes[1..], groups, Some(x)) && x.id == FindGrouped(shapes[1..], slot).value;
        FirstOfNext(shapes, groups, Some(x));
      } else {
        FirstOfNext(shapes, groups, None);
      }
    }
  }

  /**
   * Why a query is not expanded: first a bound that is zero or above the query budget, then a
   * shape of its dataset that groups by the slot, of which the first is named, and then any
   * other fault.
   */
  lemma ObjectionIs(n: Node, it: IterateOver, budgets: Budgets, catalog: Catalog, d: Dataset)
    requires n.kind.ExecuteQuery?
    ensures
      var objection := Objection(n, it, budgets, catalog);
      && (objection == Some(CompileError.BudgetExceeded) <==> it.max == 0 || it.max > budgets.maxQueryCount)
      && (1 <= it.max <= budgets.maxQueryCount && n.kind.dataset.Some? && n.kind.shape.Some?
          && FirstOf(catalog.datasets, (x: Dataset) => x.id == n.kind.dataset.value, Some(d)) ==>
            if forall s :: s in d.shapes ==> s.groupedBy != Some(it.slot)
            then objection.None? || objection == Some(InvalidProposal)
            else exists x :: FirstOf(d.shapes, (s: Shape) => s.groupedBy == Some(it.slot), Some(x))
                             && objection == Some(GroupedQueryPreferred(x.id)))
      && (1 <= it.max <= budgets.maxQueryCount && (n.kind.dataset.None? || n.kind.shape.None?) ==>
            objection == Some(InvalidProposal))
  {
    if n.kind.dataset.Some? {
      var id := n.kind.dataset.value;
      FindDatasetIsFirst(catalog.datasets, id);
      if FirstOf(catalog.datasets, (x: Dataset) => x.id == id, Some(d)) {
        FirstIsDetermined(catalog.datasets, (x: Dataset) => x.id == id, FindDataset(catalog.datasets, id), Some(d));
        FindGroupedIsFirst(d.shapes, it.slot);
      }
    }
  }

  lemma {:induction false} FirstObjectionBuilt(w: Workflow, catalog: Catalog, i: nat) returns (j: nat)
    requires i <= |w.nodes| && ExpandUpTo(w, catalog, i).Err?
    ensures j < i && forall k | 0 <= k < j :: MayExpand(w.nodes[k], w.budgets, catalog)
    ensures IterationOf(w.nodes[j]).Some? && Objection(w.nodes[j], IterationOf(w.nodes[j]).value, w.budgets, catalog) ==
                                              Some(ExpandUpTo(w, catalog, i).error)
  {
    if ExpandUpTo(w, catalog, i - 1).Err? {
      j := FirstObjectionBuilt(w, catalog, i - 1);
    } else {
      j := i - 1;
      BuiltIff(w, catalog, i - 1);
    }
  }

  /** The error is that of the first query that may not be expanded, or else of the wrapped cost. */
  lemma FirstObjectionReported(w: Workflow, catalog: Catalog) returns (j: nat)
    requires Expand(w, catalog).Err?
    ensures j <= |w.nodes| && forall k | 0 <= k < j :: MayExpand(w.nodes[k], w.budgets, catalog)
    ensures j == |w.nodes| ==> Expand(w, catalog) == Err(CompileError.BudgetExceeded)
    ensures j < |w.nodes| ==>
              && !MayExpand(w.nodes[j], w.budgets, catalog)
              && Objection(w.nodes[j], IterationOf(w.nodes[j]).value, w.budgets, catalog) ==
                   Some(Expand(w, catalog).error)
  {
    if ExpandUpTo(w, catalog, |w.nodes|).Err? {
      j := FirstObjectionBuilt(w, catalog, |w.nodes|);
      NoObjectionIff(w.nodes[j], w.budgets, catalog);
    } else {
      j := |w.nodes|;
      BuiltIff(w, catalog, |w.nodes|);
    }
  }

  lemma {:induction false} BuiltIff(w: Workflow, catalog: Catalog, i: nat)
    requires i <= |w.nodes|
    ensures ExpandUpTo(w, catalog, i).Ok? <==> forall j | 0 <= j < i :: MayExpand(w.nodes[j], w.budgets, catalog)
  {
    if i > 0 {
      BuiltIff(w, catalog, i - 1);
      if IterationOf(w.nodes[i - 1]).Some? { NoObjectionIff(w.nodes[i - 1], w.budgets, catalog); }
    }
  }

  lemma {:induction false} NothingReplacedIff(w: Workflow, catalog: Catalog, i: nat)
    requires i <= |w.nodes| && ExpandUpTo(w, catalog, i).Ok?
    ensures ExpandUpTo(w, catalog, i).value.1 == map[] <==> forall j | 0 <= j < i :: IterationOf(w.nodes[j]).None?
  {
    if i > 0 {
      NothingReplacedIff(w, catalog, i - 1);
      if IterationOf(w.nodes[i - 1]).Some? {
        assert w.nodes[i - 1].id in ExpandUpTo(w, catalog, i).value.1;
      }
    }
  }

  ghost predicate IteratesAny(nodes: seq<Node>) {
    exists n :: n in nodes && IterationOf(n).Some?
  }

  ghost predicate AllMayExpand(w: Workflow, catalog: Catalog) {
    forall n | n in w.nodes :: MayExpand(n, w.budgets, catalog)
  }

  lemma AllBuiltIff(w: Workflow, catalog: Catalog)
    ensures ExpandUpTo(w, catalog, |w.nodes|).Ok? <==> AllMayExpand(w, catalog)
  {
    BuiltIff(w, catalog, |w.nodes|);
    if AllMayExpand(w, catalog) {
      forall j | 0 <= j < |w.nodes| ensures MayExpand(w.nodes[j], w.budgets, catalog) { assert w.nodes[j] in w.nodes; }
    }
  }

  lemma ReplacesIffIterates(w: Workflow, catalog: Catalog)
    requires ExpandUpTo(w, catalog, |w.nodes|).Ok?
    ensures ExpandUpTo(w, catalog, |w.nodes|).value.1 == map[] <==> !IteratesAny(w.nodes)
    ensures Cost(ExpandUpTo(w, catalog, |w.nodes|).value.0) == WeightedCost(w.nodes)
  {
    NothingReplacedIff(w, catalog, |w.nodes|);
    CostBuilt(w, catalog, |w.nodes|);
    assert w.nodes[..|w.nodes|] == w.nodes;
    if !IteratesAny(w.nodes) {
      forall j | 0 <= j < |w.nodes| ensures IterationOf(w.nodes[j]).None? { assert w.nodes[j] in w.nodes; }
    }
  }

  /**
   * Expansion succeeds exactly when every iterated query may be expanded (its bound fits the
   * budget, its dataset can only be iterated, its copies can be named) and the wrapped cost
   * of everything fits; ids may repeat.
   */
  lemma ExpandSucceedsIff(w: Workflow, catalog: Catalog)
    ensures Expand(w, catalog).Ok? <==>
            && AllMayExpand(w, catalog)
            && (IteratesAny(w.nodes) ==> WeightedCost(w.nodes) % U16_SPAN <= w.budgets.maxQueryCount)
  {
    AllBuiltIff(w, catalog);
    if AllMayExpand(w, catalog) { ReplacesIffIterates(w, catalog); }
  }

  // ----------------------------------------------------------------- nodes after expansion

  ghost predicate Iterated(nodes: seq<Node>, id: NodeId) {
    exists n :: n in nodes && n.id == id && IterationOf(n).Some?
  }

  /** The copy with number `k` of a query: its own id, no iteration, and otherwise what the query is. */
  ghost predicate IsCopy(n: Node, k: nat, m: Node) {
    && m.id.name == n.id.name + "_iter_" + Decimal(k)
    && n.kind.ExecuteQuery? && m.kind.ExecuteQuery? && m.kind.iterateOver.None?
    && m.kind.capability == n.kind.capability && m.kind.dataset == n.kind.dataset
    && m.kind.shape == n.kind.shape && m.kind.query == n.kind.query
    && m.inputs == n.inputs && m.outputs == n.outputs && m.policy == n.policy && m.budget == n.budget
    && m.idempotency == n.idempotency
  }

  lemma CopyIsCopy(n: Node, k: nat, m: Node)
    requires n.kind.ExecuteQuery?
    ensures IsCopy(n, k, m) <==> m == CopyOf(n, k)
  {
    if IsCopy(n, k, m) { assert m.id == CopyId(n.id, k); }
  }

  /** `m` is what number `k` of `n` is after expansion: the node itself, or one of its copies. */
  ghost predicate YieldsAt(n: Node, k: nat, m: Node) {
    match IterationOf(n) case None => k == 0 && m == n case Some(it) => k < it.max && IsCopy(n, k, m)
  }

  /** `m` stands for `n` after expansion. */
  ghost predicate Yields(n: Node, m: Node) {
    exists k: nat :: YieldsAt(n, k, m)
  }

  lemma PartYieldsAt(n: Node, k: nat, m: Node)
    ensures k < |Part(n)| && Part(n)[k] == m <==> YieldsAt(n, k, m)
  {
    if IterationOf(n).Some? { CopyIsCopy(n, k, m); }
  }

  lemma PartYields(n: Node, m: Node)
    ensures m in Part(n) <==> Yields(n, m)
  {
    if k: nat :| YieldsAt(n, k, m) { PartYieldsAt(n, k, m); }
    if k: nat :| k < |Part(n)| && Part(n)[k] == m { PartYieldsAt(n, k, m); }
  }

  lemma {:induction false} NodesBuilt(w: Workflow, catalog: Catalog, i: nat, m: Node)
    requires i <= |w.nodes| && ExpandUpTo(w, catalog, i).Ok?
    ensures m in ExpandUpTo(w, catalog, i).value.0 <==> exists j :: 0 <= j < i && Yields(w.nodes[j], m)
  {
    if i > 0 {
      NodesBuilt(w, catalog, i - 1, m);
      PartYields(w.nodes[i - 1], m);
    }
  }

  /** What is recorded: exactly the iterated nodes, each with its copies. */
  ghost predicate Records(repl: Replacements, nodes: seq<Node>) {
    && (forall id :: id in repl <==> Iterated(nodes, id))
    && (forall n | n in nodes && IterationOf(n).Some? ::
          n.id in repl && repl[n.id] == CopyIds(n.id, IterationOf(n).value.max) && repl[n.id] != [])
  }

  lemma IteratedWithOneMore(nodes: seq<Node>, n: Node, id: NodeId)
    ensures Iterated(nodes + [n], id) <==> Iterated(nodes, id) || (id == n.id && IterationOf(n).Some?)
  {
    assert forall m :: m in nodes + [n] <==> m in nodes || m == n;
  }

  lemma NewIdDiffers(nodes: seq<Node>, n: Node)
    requires UniqueIds(nodes + [n])
    ensures forall m :: m in nodes ==> m.id != n.id
  {
    UniqueSplit(nodes, [n]);
    assert [n][0] in [n];
    forall m | m in nodes ensures m.id != n.id { assert m.id in Ids(nodes) && n.id in Ids([n]); }
  }

  lemma RecordStep(repl: Replacements, nodes: seq<Node>, n: Node)
    requires Records(repl, nodes) && UniqueIds(nodes + [n])
    ensures IterationOf(n).None? ==> Records(repl, nodes + [n])
    ensures IterationOf(n).Some? && IterationOf(n).value.max > 0 ==>
              Records(repl[n.id := CopyIds(n.id, IterationOf(n).value.max)], nodes + [n])
  {
    NewIdDiffers(nodes, n);
    assert forall m :: m in nodes + [n] <==> m in nodes || m == n;
    forall id { IteratedWithOneMore(nodes, n, id); }
  }

  lemma UniqueStart(nodes: seq<Node>, i: nat)
    requires UniqueIds(nodes) && 0 < i <= |nodes|
    ensures nodes[..i] == nodes[..i - 1] + [nodes[i - 1]] && UniqueIds(nodes[..i - 1] + [nodes[i - 1]])
  {
  }

  /** What one more node adds to the replacements. */
  lemma ReplacementStep(w: Workflow, catalog: Catalog, i: nat)
    requires 0 < i <= |w.nodes| && ExpandUpTo(w, catalog, i).Ok?
    ensures ExpandUpTo(w, catalog, i - 1).Ok?
    ensures
      var before, after, n := ExpandUpTo(w, catalog, i - 1).value.1, ExpandUpTo(w, catalog, i).value.1, w.nodes[i - 1];
      && (IterationOf(n).None? ==> after == before)
      && (IterationOf(n).Some? ==>
            IterationOf(n).value.max > 0 && after == before[n.id := CopyIds(n.id, IterationOf(n).value.max)])
  {
  }

  lemma {:induction false} ReplacementsBuilt(w: Workflow, catalog: Catalog, i: nat)
    requires i <= |w.nodes| && UniqueIds(w.nodes) && ExpandUpTo(w, catalog, i).Ok?
    ensures Records(ExpandUpTo(w, catalog, i).value.1, w.nodes[..i])
  {
    if i > 0 {
      ReplacementStep(w, catalog, i);
      ReplacementsBuilt(w, catalog, i - 1);
      UniqueStart(w.nodes, i);
      RecordStep(ExpandUpTo(w, catalog, i - 1).value.1, w.nodes[..i - 1], w.nodes[i - 1]);
    }
  }

  lemma Built(w: Workflow, catalog: Catalog, v: Workflow)
    requires UniqueIds(w.nodes) && Expand(w, catalog) == Ok(v)
    ensures
      var repl := ExpandUpTo(w, catalog, |w.nodes|).value.1;
      && Records(repl, w.nodes)
      && v.nodes == ExpandUpTo(w, catalog, |w.nodes|).value.0
      && v.edges == if repl == map[] then w.edges else ExpandEdges(w.edges, repl)
  {
    ReplacementsBuilt(w, catalog, |w.nodes|);
    assert w.nodes[..|w.nodes|] == w.nodes;
  }

  /** The nodes after expansion are the kept nodes and the copies, and none iterates any more. */
  lemma ExpandedNodes(w: Workflow, catalog: Catalog, v: Workflow, m: Node)
    requires Expand(w, catalog) == Ok(v)
    ensures m in v.nodes <==> exists n :: n in w.nodes && Yields(n, m)
    ensures m in v.nodes ==> IterationOf(m).None?
  {
    NodesBuilt(w, catalog, |w.nodes|, m);
    if j :| 0 <= j < |w.nodes| && Yields(w.nodes[j], m) { assert w.nodes[j] in w.nodes; }
    if n :| n in w.nodes && Yields(n, m) { var j :| 0 <= j < |w.nodes| && w.nodes[j] == n; }
  }

  lemma BuiltStep(w: Workflow, catalog: Catalog, i: nat)
    requires 0 < i <= |w.nodes| && ExpandUpTo(w, catalog, i).Ok?
    ensures ExpandUpTo(w, catalog, i - 1).Ok?
    ensures ExpandUpTo(w, catalog, i).value.0 == ExpandUpTo(w, catalog, i - 1).value.0 + Part(w.nodes[i - 1])
  {
  }

  /** The nodes built so far after each node, one part more at a time. */
  ghost predicate Stages(nodes: seq<Node>, stages: seq<seq<Node>>) {
    && |stages| == |nodes| + 1 && stages[0] == []
    && forall i | 0 <= i < |nodes| :: stages[i + 1] == stages[i] + Part(nodes[i])
  }

  lemma OneMoreStage(nodes: seq<Node>, stages: seq<seq<Node>>, n: Node, next: seq<Node>)
    requires Stages(nodes, stages) && next == stages[|nodes|] + Part(n)
    ensures Stages(nodes + [n], stages + [next])
  {
    var more := stages + [next];
    forall i | 0 <= i < |nodes + [n]| ensures more[i + 1] == more[i] + Part((nodes + [n])[i]) {
      if i < |nodes| { assert more[i + 1] == stages[i + 1] && more[i] == stages[i]; }
    }
  }

  lemma {:induction false} StagesOf(w: Workflow, catalog: Catalog, i: nat) returns (stages: seq<seq<Node>>)
    requires i <= |w.nodes| && ExpandUpTo(w, catalog, i).Ok?
    ensures Stages(w.nodes[..i], stages) && stages[i] == ExpandUpTo(w, catalog, i).value.0
  {
    if i == 0 {
      stages := [[]];
    } else {
      BuiltStep(w, catalog, i);
      var next := ExpandUpTo(w, catalog, i).value.0;
      var before := StagesOf(w, catalog, i - 1);
      stages := before + [next];
      OneMoreStage(w.nodes[..i - 1], before, w.nodes[i - 1], next);
      assert w.nodes[..i - 1] + [w.nodes[i - 1]] == w.nodes[..i];
    }
  }

  lemma InPart(n: Node, before: seq<Node>, after: seq<Node>, p: nat)
    requires after == before + Part(n) && |before| <= p < |after|
    ensures YieldsAt(n, p - |before|, after[p])
  {
    PartYieldsAt(n, p - |before|, after[p]);
  }

  lemma {:induction false} PlaceOf(nodes: seq<Node>, stages: seq<seq<Node>>, i: nat, p: nat) returns (j: nat)
    requires Stages(nodes, stages) && i <= |nodes| && p < |stages[i]|
    ensures j < i && |stages[j]| <= p < |stages[j + 1]| && YieldsAt(nodes[j], p - |stages[j]|, stages[i][p])
  {
    var k := i - 1;
    assert stages[k + 1] == stages[k] + Part(nodes[k]);
    if p < |stages[k]| {
      j := PlaceOf(nodes, stages, k, p);
    } else {
      j := k;
      InPart(nodes[k], stages[k], stages[i], p);
    }
  }

  lemma {:induction false} StagesGrow(nodes: seq<Node>, stages: seq<seq<Node>>, i: nat, j: nat)
    requires Stages(nodes, stages) && i <= j <= |nodes|
    ensures |stages[i]| <= |stages[j]|
  {
    if i < j {
      var k := j - 1;
      assert stages[k + 1] == stages[k] + Part(nodes[k]);
      StagesGrow(nodes, stages, i, k);
    }
  }

  lemma PlacesInOrder(nodes: seq<Node>, stages: seq<seq<Node>>, built: seq<Node>, p: nat, q: nat)
      returns (j: nat, a: nat, k: nat, b: nat)
    requires Stages(nodes, stages) && built == stages[|nodes|] && p < q < |built|
    ensures j <= k < |nodes| && YieldsAt(nodes[j], a, built[p]) && YieldsAt(nodes[k], b, built[q])
    ensures j < k || a < b
  {
    j := PlaceOf(nodes, stages, |nodes|, p);
    k := PlaceOf(nodes, stages, |nodes|, q);
    a, b := p - |stages[j]|, q - |stages[k]|;
    if k < j { StagesGrow(nodes, stages, k + 1, j); }
  }

  lemma BuiltByStages(w: Workflow, catalog: Catalog, v: Workflow) returns (stages: seq<seq<Node>>)
    requires Expand(w, catalog) == Ok(v)
    ensures Stages(w.nodes, stages) && v.nodes == stages[|w.nodes|]
  {
    stages := StagesOf(w, catalog, |w.nodes|);
    assert w.nodes[..|w.nodes|] == w.nodes;
  }

  /** The nodes keep their order, and the copies of one query follow each other by number. */
  lemma ExpandedInOrder(w: Workflow, catalog: Catalog, v: Workflow, p: nat, q: nat)
      returns (j: nat, a: nat, k: nat, b: nat)
    requires Expand(w, catalog) == Ok(v) && p < q < |v.nodes|
    ensures j <= k < |w.nodes| && YieldsAt(w.nodes[j], a, v.nodes[p]) && YieldsAt(w.nodes[k], b, v.nodes[q])
    ensures j < k || a < b
  {
    var stages := BuiltByStages(w, catalog, v);
    j, a, k, b := PlacesInOrder(w.nodes, stages, v.nodes, p, q);
  }

  // -------------------------------------------------------------------------- unique ids

  lemma PartIsUnique(n: Node)
    ensures UniqueIds(Part(n))
    ensures forall id :: id in Ids(Part(n)) <==> Names(n, id)
  {
    var part := Part(n);
    if IterationOf(n).Some? {
      forall i, j | 0 <= i < j < |part| ensures part[i].id != part[j].id {
        if part[i].id == part[j].id { CopyIdInjective(n.id, i, n.id, j); }
      }
      forall id | Names(n, id) ensures id in Ids(part) {
        var k :| 0 <= k < IterationOf(n).value.max && id == CopyId(n.id, k);
        assert part[k] in part;
      }
    } else {
      assert part[0] in part;
    }
  }

  /** `id` is the id of a node that stands for `n`. */
  ghost predicate Names(n: Node, id: NodeId) {
    match IterationOf(n) case None => id == n.id case Some(it) => exists k :: 0 <= k < it.max && id == CopyId(n.id, k)
  }

  /** Nothing stands for both. */
  ghost predicate Apart(n: Node, m: Node) {
    forall id | Names(n, id) :: !Names(m, id)
  }

  ghost predicate PartsApart(nodes: seq<Node>) {
    forall i, j | 0 <= i < j < |nodes| :: Apart(nodes[i], nodes[j])
  }

  lemma PartAppended(w: Workflow, catalog: Catalog, i: nat)
    requires 0 < i <= |w.nodes| && ExpandUpTo(w, catalog, i).Ok?
    ensures ExpandUpTo(w, catalog, i - 1).Ok?
    ensures ExpandUpTo(w, catalog, i).value.0 == ExpandUpTo(w, catalog, i - 1).value.0 + Part(w.nodes[i - 1])
  {
  }

  /** `id` stands for one of the first `i` nodes. */
  ghost predicate NamedBefore(w: Workflow, i: nat, id: NodeId)
    requires i <= |w.nodes|
  {
    exists j :: 0 <= j < i && Names(w.nodes[j], id)
  }

  lemma NamedBeforeStep(w: Workflow, i: nat, id: NodeId)
    requires 0 < i <= |w.nodes|
    ensures NamedBefore(w, i, id) <==> NamedBefore(w, i - 1, id) || Names(w.nodes[i - 1], id)
  {
  }

  lemma {:induction false} IdsBuilt(w: Workflow, catalog: Catalog, i: nat, id: NodeId)
    requires i <= |w.nodes| && ExpandUpTo(w, catalog, i).Ok?
    ensures id in Ids(ExpandUpTo(w, catalog, i).value.0) <==> NamedBefore(w, i, id)
  {
    if i > 0 {
      PartAppended(w, catalog, i);
      IdsBuilt(w, catalog, i - 1, id);
      PartIsUnique(w.nodes[i - 1]);
      IdsJoin(ExpandUpTo(w, catalog, i - 1).value.0, Part(w.nodes[i - 1]));
      NamedBeforeStep(w, i, id);
    }
  }

  lemma ApartFromAll(w: Workflow, catalog: Catalog, i: nat)
    requires i < |w.nodes| && ExpandUpTo(w, catalog, i).Ok?
    ensures Ids(ExpandUpTo(w, catalog, i).value.0) !! Ids(Part(w.nodes[i])) <==>
            forall j | 0 <= j < i :: Apart(w.nodes[j], w.nodes[i])
  {
    forall id { IdsBuilt(w, catalog, i, id); }
    PartIsUnique(w.nodes[i]);
  }

  lemma {:induction false} UniqueIffApart(w: Workflow, catalog: Catalog, i: nat)
    requires i <= |w.nodes| && ExpandUpTo(w, catalog, i).Ok?
    ensures UniqueIds(ExpandUpTo(w, catalog, i).value.0) <==> PartsApart(w.nodes[..i])
  {
    if i > 0 {
      var before, part := ExpandUpTo(w, catalog, i - 1).value.0, Part(w.nodes[i - 1]);
      assert ExpandUpTo(w, catalog, i).value.0 == before + part;
      UniqueIffApart(w, catalog, i - 1);
      PartIsUnique(w.nodes[i - 1]);
      ApartFromAll(w, catalog, i - 1);
      ApartStep(w.nodes, i);
      if UniqueIds(before + part) { UniqueSplit(before, part); }
      if PartsApart(w.nodes[..i]) { UniqueJoin(before, part); }
    }
  }

  lemma ApartStep(nodes: seq<Node>, i: nat)
    requires 0 < i <= |nodes|
    ensures PartsApart(nodes[..i]) <==>
            PartsApart(nodes[..i - 1]) && forall j | 0 <= j < i - 1 :: Apart(nodes[j], nodes[i - 1])
  {
  }

  /** No copy takes the id of a node that is kept. */
  ghost predicate NoCollision(nodes: seq<Node>) {
    forall n, m | n in nodes && m in nodes && IterationOf(n).None? && IterationOf(m).Some? :: !Names(m, n.id)
  }

  lemma CollisionMeets(nodes: seq<Node>, n: Node, m: Node)
    requires n in nodes && m in nodes && IterationOf(n).None? && IterationOf(m).Some? && Names(m, n.id)
    ensures !PartsApart(nodes)
  {
  }

  lemma ApartIffNoCollision(nodes: seq<Node>)
    requires UniqueIds(nodes)
    ensures PartsApart(nodes) <==> NoCollision(nodes)
  {
    if NoCollision(nodes) {
      forall i, j | 0 <= i < j < |nodes| ensures Apart(nodes[i], nodes[j]) {
        TwoPartsApart(nodes, nodes[i], nodes[j]);
      }
    } else {
      var n, m :| n in nodes && m in nodes && IterationOf(n).None? && IterationOf(m).Some? && Names(m, n.id);
      CollisionMeets(nodes, n, m);
    }
  }

  lemma TwoPartsApart(nodes: seq<Node>, n: Node, m: Node)
    requires NoCollision(nodes) && n in nodes && m in nodes && n.id != m.id
    ensures Apart(n, m)
  {
    forall id | Names(n, id) ensures !Names(m, id) {
      if IterationOf(n).Some? && IterationOf(m).Some? && Names(m, id) {
        var j :| 0 <= j < IterationOf(n).value.max && id == CopyId(n.id, j);
        var k :| 0 <= k < IterationOf(m).value.max && id == CopyId(m.id, k);
        CopyIdInjective(n.id, j, m.id, k);
      }
    }
  }

  /** Expansion keeps ids unique exactly when no copy takes the id of a kept node. */
  lemma ExpandedIdsUnique(w: Workflow, catalog: Catalog, v: Workflow)
    requires UniqueIds(w.nodes) && Expand(w, catalog) == Ok(v)
    ensures UniqueIds(v.nodes) <==> NoCollision(w.nodes)
  {
    UniqueIffApart(w, catalog, |w.nodes|);
    ApartIffNoCollision(w.nodes);
    assert w.nodes[..|w.nodes|] == w.nodes;
  }

  // ------------------------------------------------------------------------- multiplied edges

  lemma {:induction false} FanHolds(source: NodeId, targets: seq<NodeId>, condition: EdgeCondition, e: Edge)
    ensures e in Fan(source, targets, condition) <==>
            e.source == source && e.condition == condition && e.target in targets
  {
    if targets != [] {
      assert targets == targets[..|targets| - 1] + [targets[|targets| - 1]];
      FanHolds(source, targets[..|targets| - 1], condition, e);
    }
  }

  lemma {:induction false} CrossHolds(sources: seq<NodeId>, targets: seq<NodeId>, condition: EdgeCondition, e: Edge)
    ensures e in Cross(sources, targets, condition) <==>
            e.source in sources && e.condition == condition && e.target in targets
  {
    if sources != [] {
      assert sources == sources[..|sources| - 1] + [sources[|sources| - 1]];
      CrossHolds(sources[..|sources| - 1], targets, condition, e);
      FanHolds(sources[|sources| - 1], targets, condition, e);
    }
  }

  /** `e` stands for the edge `o` after expansion. */
  ghost predicate StandsFor(repl: Replacements, e: Edge, o: Edge) {
    e.condition == o.condition && e.source in Targets(repl, o.source) && e.target in Targets(repl, o.target)
  }

  lemma {:induction false} EdgesMultiplied(edges: seq<Edge>, repl: Replacements, e: Edge)
    ensures e in ExpandEdges(edges, repl) <==> exists o :: o in edges && StandsFor(repl, e, o)
  {
    if edges != [] {
      var init, last := edges[..|edges| - 1], edges[|edges| - 1];
      assert edges == init + [last];
      EdgesMultiplied(init, repl, e);
      CrossHolds(Targets(repl, last.source), Targets(repl, last.target), last.condition, e);
      assert StandsFor(repl, e, last) ==> last in edges;
    }
  }

  lemma UnchangedEdges(edges: seq<Edge>, e: Edge)
    ensures e in edges <==> exists o :: o in edges && StandsFor(map[], e, o)
  {
  }

  lemma ExpandedEdges(w: Workflow, catalog: Catalog, v: Workflow, e: Edge)
    requires UniqueIds(w.nodes) && Expand(w, catalog) == Ok(v)
    ensures
      var repl := ExpandUpTo(w, catalog, |w.nodes|).value.1;
      e in v.edges <==> exists o :: o in w.edges && StandsFor(repl, e, o)
  {
    Built(w, catalog, v);
    EdgesMultiplied(w.edges, ExpandUpTo(w, catalog, |w.nodes|).value.1, e);
    UnchangedEdges(w.edges, e);
  }

  // ------------------------------------------------------------------ folding copies back

  ghost predicate Occurs(w: Workflow, id: NodeId) {
    id in Ids(w.nodes) || exists e :: e in w.edges && (e.source == id || e.target == id)
  }

  /** A copy of an iterated node has this id. */
  ghost predicate Copied(nodes: seq<Node>, id: NodeId) {
    exists n :: n in nodes && IterationOf(n).Some? && Names(n, id)
  }

  /** An id made up for a copy is in use, if at all, only by a node that is itself replaced. */
  ghost predicate NoClash(w: Workflow) {
    forall id | Copied(w.nodes, id) && Occurs(w, id) :: Iterated(w.nodes, id)
  }

  /** For known edges nothing clashes exactly if the ids after expansion are unique. */
  lemma NoClashIffIdsUnique(w: Workflow, catalog: Catalog, v: Workflow)
    requires UniqueIds(w.nodes) && EdgesKnown(w) && Expand(w, catalog) == Ok(v)
    ensures NoClash(w) <==> UniqueIds(v.nodes)
  {
    ExpandedIdsUnique(w, catalog, v);
    if NoClash(w) {
      forall n, m | n in w.nodes && m in w.nodes && IterationOf(n).None? && IterationOf(m).Some?
        ensures !Names(m, n.id)
      {
        KeptIsNotIterated(w.nodes, n);
        if Names(m, n.id) { assert Copied(w.nodes, n.id) && Occurs(w, n.id); }
      }
    }
    if NoCollision(w.nodes) {
      forall id | Copied(w.nodes, id) && Occurs(w, id) ensures Iterated(w.nodes, id) {
        var m :| m in w.nodes && IterationOf(m).Some? && Names(m, id);
        var n :| n in w.nodes && n.id == id;
        assert IterationOf(n).Some?;
      }
    }
  }

  lemma KeptIsNotIterated(nodes: seq<Node>, n: Node)
    requires UniqueIds(nodes) && n in nodes && IterationOf(n).None?
    ensures !Iterated(nodes, n.id)
  {
    if m :| m in nodes && m.id == n.id && IterationOf(m).Some? { SameIdSameNode(nodes, m, n); }
  }

  /** Folds the copies of each node back to the node they stand for. */
  ghost function Origin(nodes: seq<Node>, id: NodeId): NodeId {
    if nodes == [] then id
    else if IterationOf(nodes[0]).Some? && Names(nodes[0], id) then nodes[0].id
    else Origin(nodes[1..], id)
  }

  lemma {:induction false} OriginOfCopy(nodes: seq<Node>, n: Node, id: NodeId)
    requires n in nodes && IterationOf(n).Some? && Names(n, id)
    ensures Origin(nodes, id) == n.id
  {
    if IterationOf(nodes[0]).Some? && Names(nodes[0], id) {
      var j :| 0 <= j < IterationOf(n).value.max && id == CopyId(n.id, j);
      var k :| 0 <= k < IterationOf(nodes[0]).value.max && id == CopyId(nodes[0].id, k);
      CopyIdInjective(n.id, j, nodes[0].id, k);
    } else {
      OriginOfCopy(nodes[1..], n, id);
    }
  }

  lemma {:induction false} OriginOfKept(nodes: seq<Node>, id: NodeId)
    requires forall n | n in nodes && IterationOf(n).Some? :: !Names(n, id)
    ensures Origin(nodes, id) == id
  {
    if nodes != [] {
      assert nodes[0] in nodes;
      OriginOfKept(nodes[1..], id);
    }
  }

  lemma OriginOfTarget(w: Workflow, repl: Replacements, o: NodeId, c: NodeId)
    requires NoClash(w) && Records(repl, w.nodes) && Occurs(w, o) && c in Targets(repl, o)
    ensures Origin(w.nodes, c) == o
  {
    if o in repl {
      var n :| n in w.nodes && n.id == o && IterationOf(n).Some?;
      var k :| 0 <= k < |repl[o]| && repl[o][k] == c;
      assert Names(n, c);
      OriginOfCopy(w.nodes, n, c);
    } else {
      assert !Iterated(w.nodes, o) && !Copied(w.nodes, o);
      OriginOfKept(w.nodes, o);
    }
  }

  lemma SameIdSameNode(nodes: seq<Node>, m: Node, n: Node)
    requires UniqueIds(nodes) && m in nodes && n in nodes && m.id == n.id
    ensures m == n
  {
  }

  lemma KeptIsNotRecorded(w: Workflow, repl: Replacements, n: Node)
    requires UniqueIds(w.nodes) && Records(repl, w.nodes) && n in w.nodes && IterationOf(n).None?
    ensures n.id !in repl
  {
  }

  lemma NamedIsTarget(w: Workflow, repl: Replacements, n: Node, a: NodeId)
    requires UniqueIds(w.nodes) && NoClash(w) && Records(repl, w.nodes) && n in w.nodes && Names(n, a)
    ensures Origin(w.nodes, a) == n.id && a in Targets(repl, n.id)
  {
    if IterationOf(n).Some? {
      var k :| 0 <= k < IterationOf(n).value.max && a == CopyId(n.id, k);
      assert repl[n.id][k] == a;
      OriginOfCopy(w.nodes, n, a);
    } else {
      KeptIsNotRecorded(w, repl, n);
      OriginOfTarget(w, repl, a, a);
    }
  }

  lemma NamedIffMember(w: Workflow, catalog: Catalog, v: Workflow, a: NodeId)
    requires Expand(w, catalog) == Ok(v)
    ensures a in Ids(v.nodes) <==> exists n :: n in w.nodes && Names(n, a)
  {
    IdsBuilt(w, catalog, |w.nodes|, a);
    if a in Ids(v.nodes) { var j :| 0 <= j < |w.nodes| && Names(w.nodes[j], a); }
    if n :| n in w.nodes && Names(n, a) { var j :| 0 <= j < |w.nodes| && w.nodes[j] == n; }
  }

  /** Every node after expansion folds back to a node of the original workflow. */
  lemma MemberFolds(w: Workflow, catalog: Catalog, v: Workflow, a: NodeId)
    requires UniqueIds(w.nodes) && NoClash(w) && Expand(w, catalog) == Ok(v) && a in Ids(v.nodes)
    ensures Origin(w.nodes, a) in Ids(w.nodes)
    ensures a in Targets(ExpandUpTo(w, catalog, |w.nodes|).value.1, Origin(w.nodes, a))
  {
    Built(w, catalog, v);
    NamedIffMember(w, catalog, v, a);
    var n :| n in w.nodes && Names(n, a);
    NamedIsTarget(w, ExpandUpTo(w, catalog, |w.nodes|).value.1, n, a);
  }

  /** The fold is onto: every node has a copy that folds back to it. */
  lemma FoldIsOnto(w: Workflow, catalog: Catalog, v: Workflow, n: Node)
    requires UniqueIds(w.nodes) && NoClash(w) && Expand(w, catalog) == Ok(v) && n in w.nodes
    ensures Lift(ExpandUpTo(w, catalog, |w.nodes|).value.1, n.id) in Ids(v.nodes)
    ensures Origin(w.nodes, Lift(ExpandUpTo(w, catalog, |w.nodes|).value.1, n.id)) == n.id
  {
    Built(w, catalog, v);
    var repl := ExpandUpTo(w, catalog, |w.nodes|).value.1;
    var c := Lift(repl, n.id);
    NamedIffMember(w, catalog, v, c);
    LiftIsNamed(w, repl, n);
    NamedIsTarget(w, repl, n, c);
  }

  function Lift(repl: Replacements, id: NodeId): NodeId {
    if Targets(repl, id) == [] then id else Targets(repl, id)[0]
  }

  lemma LiftIsNamed(w: Workflow, repl: Replacements, n: Node)
    requires UniqueIds(w.nodes) && Records(repl, w.nodes) && n in w.nodes
    ensures Names(n, Lift(repl, n.id))
  {
    if IterationOf(n).None? {
      KeptIsNotRecorded(w, repl, n);
    } else {
      var ids := CopyIds(n.id, IterationOf(n).value.max);
      assert repl[n.id] == ids && ids[0] == CopyId(n.id, 0);
    }
  }

  /**
   * Between nodes of the expanded workflow there is an edge exactly when there is one, with
   * the same condition, between the nodes they fold back to: no edge is lost or invented.
   */
  lemma ExpansionFolds(w: Workflow, catalog: Catalog, v: Workflow, a: NodeId, b: NodeId, c: EdgeCondition)
    requires UniqueIds(w.nodes) && NoClash(w) && Expand(w, catalog) == Ok(v)
    requires a in Ids(v.nodes) && b in Ids(v.nodes)
    ensures Edge(a, b, c) in v.edges <==> Edge(Origin(w.nodes, a), Origin(w.nodes, b), c) in w.edges
  {
    var repl := ExpandUpTo(w, catalog, |w.nodes|).value.1;
    var e, o := Edge(a, b, c), Edge(Origin(w.nodes, a), Origin(w.nodes, b), c);
    Built(w, catalog, v);
    ExpandedEdges(w, catalog, v, e);
    MemberFolds(w, catalog, v, a);
    MemberFolds(w, catalog, v, b);
    assert StandsFor(repl, e, o);
    if e in v.edges {
      var x :| x in w.edges && StandsFor(repl, e, x);
      OriginOfTarget(w, repl, x.source, a);
      OriginOfTarget(w, repl, x.target, b);
      assert x == o;
    }
  }

  /** Some edge joins the two, whatever its condition. */
  ghost predicate Joined(w: Workflow, a: NodeId, b: NodeId) {
    exists c :: Edge(a, b, c) in w.edges
  }

  lemma ArcIffJoined(w: Workflow, a: NodeId, b: NodeId)
    requires a in Ids(w.nodes) && b in Ids(w.nodes)
    ensures (a, b) in GraphOf(w).arcs <==> Joined(w, a, b)
  {
    if (a, b) in GraphOf(w).arcs {
      var e :| e in w.edges && e.source == a && e.target == b;
      assert Edge(a, b, e.condition) in w.edges;
    }
  }

  lemma ArcsFold(w: Workflow, catalog: Catalog, v: Workflow, a: NodeId, b: NodeId)
    requires UniqueIds(w.nodes) && NoClash(w) && Expand(w, catalog) == Ok(v)
    requires a in Ids(v.nodes) && b in Ids(v.nodes)
    ensures (a, b) in GraphOf(v).arcs <==> (Origin(w.nodes, a), Origin(w.nodes, b)) in GraphOf(w).arcs
  {
    MemberFolds(w, catalog, v, a);
    MemberFolds(w, catalog, v, b);
    ArcIffJoined(v, a, b);
    ArcIffJoined(w, Origin(w.nodes, a), Origin(w.nodes, b));
    forall c { ExpansionFolds(w, catalog, v, a, b, c); }
  }

  lemma FoldIsHomomorphism(w: Workflow, catalog: Catalog, v: Workflow)
    requires UniqueIds(w.nodes) && NoClash(w) && Expand(w, catalog) == Ok(v)
    ensures IsHomomorphism(GraphOf(v), GraphOf(w), id => Origin(w.nodes, id))
  {
    forall a | a in Ids(v.nodes) { MemberFolds(w, catalog, v, a); }
    forall x | x in GraphOf(v).arcs { ArcsFold(w, catalog, v, x.0, x.1); }
  }

  lemma LiftIsHomomorphism(w: Workflow, catalog: Catalog, v: Workflow)
    requires UniqueIds(w.nodes) && NoClash(w) && Expand(w, catalog) == Ok(v)
    ensures
      var repl := ExpandUpTo(w, catalog, |w.nodes|).value.1;
      IsHomomorphism(GraphOf(w), GraphOf(v), id => Lift(repl, id))
  {
    var repl := ExpandUpTo(w, catalog, |w.nodes|).value.1;
    forall n | n in w.nodes { FoldIsOnto(w, catalog, v, n); }
    forall x | x in GraphOf(w).arcs ensures (Lift(repl, x.0), Lift(repl, x.1)) in GraphOf(v).arcs {
      ArcsFold(w, catalog, v, Lift(repl, x.0), Lift(repl, x.1));
    }
  }

  /** Expansion neither makes nor breaks a cycle. */
  lemma ExpansionKeepsAcyclicity(w: Workflow, catalog: Catalog, v: Workflow)
    requires UniqueIds(w.nodes) && NoClash(w) && Expand(w, catalog) == Ok(v)
    ensures Cyclic(GraphOf(v)) <==> Cyclic(GraphOf(w))
  {
    var repl := ExpandUpTo(w, catalog, |w.nodes|).value.1;
    if Cyclic(GraphOf(v)) {
      FoldIsHomomorphism(w, catalog, v);
      HomomorphismKeepsCycles(GraphOf(v), GraphOf(w), id => Origin(w.nodes, id));
    }
    if Cyclic(GraphOf(w)) {
      LiftIsHomomorphism(w, catalog, v);
      HomomorphismKeepsCycles(GraphOf(w), GraphOf(v), id => Lift(repl, id));
    }
  }

  /** The entry nodes after expansion are the copies of the entry nodes before it. */
  lemma EntriesFold(w: Workflow, catalog: Catalog, v: Workflow, a: NodeId)
    requires UniqueIds(w.nodes) && NoClash(w) && Expand(w, catalog) == Ok(v) && a in Ids(v.nodes)
    ensures IsEntry(GraphOf(v), a) <==> IsEntry(GraphOf(w), Origin(w.nodes, a))
  {
    var repl := ExpandUpTo(w, catalog, |w.nodes|).value.1;
    MemberFolds(w, catalog, v, a);
    if x :| x in GraphOf(v).arcs && x.1 == a {
      ArcsFold(w, catalog, v, x.0, a);
    }
    if x :| x in GraphOf(w).arcs && x.1 == Origin(w.nodes, a) {
      var n :| n in w.nodes && n.id == x.0;
      FoldIsOnto(w, catalog, v, n);
      ArcsFold(w, catalog, v, Lift(repl, x.0), a);
      assert (Lift(repl, x.0), a) in GraphOf(v).arcs;
    }
  }

  // --------------------------------------------------------- expansion against the verifier

  lemma CopyIsMember(w: Workflow, catalog: Catalog, v: Workflow, n: Node, k: nat)
    requires Expand(w, catalog) == Ok(v)
    requires n in w.nodes && IterationOf(n).Some? && k < IterationOf(n).value.max
    ensures CopyId(n.id, k) in Ids(v.nodes) && Origin(w.nodes, CopyId(n.id, k)) == n.id
  {
    assert Names(n, CopyId(n.id, k));
    NamedIffMember(w, catalog, v, CopyId(n.id, k));
    OriginOfCopy(w.nodes, n, CopyId(n.id, k));
  }

  lemma IteratedEntryIsTwo(w: Workflow, catalog: Catalog, v: Workflow, n: Node)
    requires UniqueIds(w.nodes) && NoClash(w) && Expand(w, catalog) == Ok(v)
    requires n in w.nodes && IterationOf(n).Some? && IterationOf(n).value.max > 1 && IsEntry(GraphOf(w), n.id)
    ensures !SingleEntry(v)
  {
    CopyIsMember(w, catalog, v, n, 0);
    CopyIsMember(w, catalog, v, n, 1);
    EntriesFold(w, catalog, v, CopyId(n.id, 0));
    EntriesFold(w, catalog, v, CopyId(n.id, 1));
    if CopyId(n.id, 0) == CopyId(n.id, 1) { CopyIdInjective(n.id, 0, n.id, 1); }
    assert CopyId(n.id, 0) in EntrySet(GraphOf(v)) && CopyId(n.id, 1) in EntrySet(GraphOf(v));
  }

  /**
   * A workflow of known edges whose entry is iterated more than once is never accepted: its
   * copies are several entries, unless one takes the id of a kept node, and then ids repeat.
   */
  lemma IteratedEntryIsRejected(w: Workflow, catalog: Catalog, v: Workflow, n: Node, principal: Principal,
                                order: seq<NodeId>)
    requires UniqueIds(w.nodes) && EdgesKnown(w) && Expand(w, catalog) == Ok(v)
    requires n in w.nodes && IterationOf(n).Some? && IterationOf(n).value.max > 1 && IsEntry(GraphOf(w), n.id)
    ensures !Accepted(v, principal, catalog, order)
  {
    NoClashIffIdsUnique(w, catalog, v);
    if Accepted(v, principal, catalog, order) {
      AcceptedIsWellShaped(v, principal, catalog, order);
      IteratedEntryIsTwo(w, catalog, v, n);
    }
  }

  /** The node refers to `id`: to branch on it, compose it, resume at it or read its output. */
  ghost predicate Mentions(m: Node, id: NodeId) {
    || id in References(m)
    || (m.kind.ClarificationInterrupt? && m.kind.resume == id)
    || (exists input :: input in m.inputs && ProducerOf(input.source) == Some(id))
  }

  /** The id of an iterated node lives on exactly if a copy of another one takes it. */
  lemma IteratedIdIsGone(w: Workflow, catalog: Catalog, v: Workflow, id: NodeId)
    requires UniqueIds(w.nodes) && Expand(w, catalog) == Ok(v) && Iterated(w.nodes, id)
    ensures id in Ids(v.nodes) <==> Copied(w.nodes, id)
  {
    NamedIffMember(w, catalog, v, id);
    var n :| n in w.nodes && n.id == id && IterationOf(n).Some?;
    if m :| m in w.nodes && Names(m, id) {
      if IterationOf(m).None? { SameIdSameNode(w.nodes, m, n); }
    }
  }

  lemma CheckedMention(m: Node, v: Workflow, order: seq<NodeId>, principal: Principal, catalog: Catalog, id: NodeId)
    requires CheckNode(m, v, order, principal, catalog).None?
    requires id in References(m) || (m.kind.ClarificationInterrupt? && m.kind.resume == id)
    ensures id in Ids(v.nodes)
  {
  }

  lemma MentionsAreKnown(v: Workflow, catalog: Catalog, principal: Principal, order: seq<NodeId>, m: Node, id: NodeId)
    requires Accepted(v, principal, catalog, order) && m in v.nodes && Mentions(m, id)
    ensures id in Ids(v.nodes)
  {
    AcceptedIsWellShaped(v, principal, catalog, order);
    EveryNodeChecked(v.nodes, m, v, order, principal, catalog);
    if input :| input in m.inputs && ProducerOf(input.source) == Some(id) {
      AcceptedProducersComeFirst(v, principal, catalog, order, m, input, id);
    } else {
      CheckedMention(m, v, order, principal, catalog, id);
    }
  }

  /**
   * Only edges are rewritten: a node that still mentions an iterated query, whose id no copy
   * took, mentions a node that no longer exists, so the verifier never accepts the result.
   */
  lemma MentionOfIteratedIsRejected(w: Workflow, catalog: Catalog, v: Workflow, m: Node, id: NodeId,
                                    principal: Principal, order: seq<NodeId>)
    requires UniqueIds(w.nodes) && Expand(w, catalog) == Ok(v)
    requires m in v.nodes && Iterated(w.nodes, id) && !Copied(w.nodes, id) && Mentions(m, id)
    ensures !Accepted(v, principal, catalog, order)
  {
    IteratedIdIsGone(w, catalog, v, id);
    if Accepted(v, principal, catalog, order) {
      MentionsAreKnown(v, catalog, principal, order, m, id);
    }
  }

  // ------------------------------------------------------------------------------- cost

  function Weight(n: Node): nat {
    match IterationOf(n) case None => 1 case Some(it) => it.max
  }

  function WeightedCost(nodes: seq<Node>): nat {
    if nodes == [] then 0
    else WeightedCost(nodes[..|nodes| - 1]) + Weight(nodes[|nodes| - 1]) * nodes[|nodes| - 1].budget.queryCost
  }

  lemma {:induction false} CostAppend(a: seq<Node>, b: seq<Node>)
    ensures Cost(a + b) == Cost(a) + Cost(b)
  {
    if b == [] {
      assert a + b == a;
    } else {
      assert (a + b)[..|a + b| - 1] == a + b[..|b| - 1];
      CostAppend(a, b[..|b| - 1]);
    }
  }

  lemma OneMore(count: nat, cost: nat)
    requires count > 0
    ensures count * cost == (count - 1) * cost + cost
  {
  }

  /** Nodes of one price cost it as often as there are nodes. */
  lemma {:induction false} CostOfEqual(nodes: seq<Node>, price: nat)
    requires forall i | 0 <= i < |nodes| :: nodes[i].budget.queryCost == price
    ensures Cost(nodes) == |nodes| * price
  {
    if nodes != [] {
      CostOfEqual(nodes[..|nodes| - 1], price);
      OneMore(|nodes|, price);
    }
  }

  lemma CopiesCostTheSame(n: Node, count: nat)
    ensures |Copies(n, count)| == count
    ensures forall i | 0 <= i < count :: Copies(n, count)[i].budget.queryCost == n.budget.queryCost
  {
    var copies := Copies(n, count);
    forall i | 0 <= i < count ensures copies[i].budget.queryCost == n.budget.queryCost {
      assert copies[i] == CopyOf(n, i);
    }
  }

  lemma CostOfPart(n: Node)
    ensures Cost(Part(n)) == Weight(n) * n.budget.queryCost
  {
    if IterationOf(n).Some? {
      CopiesCostTheSame(n, IterationOf(n).value.max);
      CostOfEqual(Copies(n, IterationOf(n).value.max), n.budget.queryCost);
    } else {
      assert [n][..0] == [];
    }
  }

  lemma {:induction false} CostBuilt(w: Workflow, catalog: Catalog, i: nat)
    requires i <= |w.nodes| && ExpandUpTo(w, catalog, i).Ok?
    ensures Cost(ExpandUpTo(w, catalog, i).value.0) == WeightedCost(w.nodes[..i])
  {
    if i > 0 {
      PartAppended(w, catalog, i);
      CostBuilt(w, catalog, i - 1);
      CostAppend(ExpandUpTo(w, catalog, i - 1).value.0, Part(w.nodes[i - 1]));
      CostOfPart(w.nodes[i - 1]);
      WeightedStep(w.nodes, i);
    }
  }

  lemma WeightedStep(nodes: seq<Node>, i: nat)
    requires 0 < i <= |nodes|
    ensures WeightedCost(nodes[..i]) ==
            WeightedCost(nodes[..i - 1]) + Weight(nodes[i - 1]) * nodes[i - 1].budget.queryCost
  {
    assert nodes[..i][..i - 1] == nodes[..i - 1];
  }

  /**
   * Each query is paid once per copy, and whenever anything was expanded the total fits the
   * query budget exactly when the u16 sum did not wrap.
   */
  lemma ExpansionCost(w: Workflow, catalog: Catalog, v: Workflow)
    requires Expand(w, catalog) == Ok(v)
    ensures Cost(v.nodes) == WeightedCost(w.nodes)
    ensures IteratesAny(w.nodes) ==> (Cost(v.nodes) <= w.budgets.maxQueryCount <==> WeightedCost(w.nodes) < U16_SPAN)
  {
    ReplacesIffIterates(w, catalog);
    if IteratesAny(w.nodes) { WrapFits(Cost(v.nodes), U16_SPAN, w.budgets.maxQueryCount); }
  }

  lemma DecimalIsShort(k: nat)
    requires k < 1000
    ensures |Decimal(k)| <= 3
  {
    assert k / 10 >= 10 ==> |Decimal(k / 10)| <= 2;
  }

  lemma ShortNamesAreValid(n: NodeId, count: nat)
    requires ValidName(n.name) && |n.name| <= 39 && count <= 1000
    ensures CopiesNamed(n, count)
  {
    forall k | 0 <= k < count ensures ValidName(CopyId(n, k).name) {
      DecimalIsShort(k);
      var s, d := CopyId(n, k).name, Decimal(k);
      forall i | 0 <= i < |s| ensures 'a' <= s[i] <= 'z' || '0' <= s[i] <= '9' || s[i] == '_' {
        if i < |n.name| { assert s[i] == n.name[i]; }
        else if i < |n.name| + 6 { assert s[i] == "_iter_"[i - |n.name|]; }
        else { assert s[i] == d[i - |n.name| - 6]; }
      }
    }
  }

  function Looping(name: string, max: u8, cost: u8): Node {
    Node(NodeId(name), ExecuteQuery(None, Some("d"), Some("s"), None, Some(IterateOver(NodeId("x"), "clients", max))),
         [], [], PolicyOf(None), NodeBudget(0, 0, cost), Pure)
  }

  const OneShape := Catalog([], [],
                            [Dataset("d", [Shape("s", Terminal, None, None, [])], [FilterSlot("f", true, false)],
                                     None)],
                            map[])

  lemma LoopingIsAllowed(name: string, max: u8, cost: u8, budgets: Budgets)
    requires ValidName(name) && |name| <= 39 && 0 < max <= budgets.maxQueryCount
    ensures Objection(Looping(name, max, cost), IterateOver(NodeId("x"), "clients", max), budgets, OneShape) == None
  {
    ShortNamesAreValid(NodeId(name), max);
    var dataset := OneShape.datasets[0];
    assert FindDataset(OneShape.datasets, "d") == Some(dataset);
    assert FindShape(dataset.shapes, "s") == Some(dataset.shapes[0]);
    assert dataset.filters[0] in dataset.filters;
  }

  lemma WeightOfTwo(m: Node, n: Node)
    ensures WeightedCost([m, n]) == Weight(m) * m.budget.queryCost + Weight(n) * n.budget.queryCost
  {
    assert [m, n][..1] == [m] && [m][..0] == [];
    assert WeightedCost([m]) == Weight(m) * m.budget.queryCost;
  }

  /** Two iterated queries are let through whenever their wrapped cost is small. */
  lemma TwoLoopsExpand(w: Workflow, m: Node, n: Node, catalog: Catalog)
    requires w.nodes == [m, n] && IterationOf(m).Some? && IterationOf(n).Some?
    requires Objection(m, IterationOf(m).value, w.budgets, catalog) == None
    requires Objection(n, IterationOf(n).value, w.budgets, catalog) == None
    requires (Weight(m) * m.budget.queryCost + Weight(n) * n.budget.queryCost) % U16_SPAN <= w.budgets.maxQueryCount
    ensures Expand(w, catalog).Ok?
    ensures Cost(Expand(w, catalog).value.nodes) == Weight(m) * m.budget.queryCost + Weight(n) * n.budget.queryCost
  {
    NoObjectionIff(m, w.budgets, catalog);
    NoObjectionIff(n, w.budgets, catalog);
    WeightOfTwo(m, n);
    ExpandSucceedsIff(w, catalog);
    ExpansionCost(w, catalog, Expand(w, catalog).value);
  }

  lemma TwoLoopings(max: u8, cost: u8, w: Workflow)
    requires 0 < max <= w.budgets.maxQueryCount
    requires w.nodes == [Looping("a", max, cost), Looping("b", max, cost)]
    requires (2 * (max * cost)) % U16_SPAN <= w.budgets.maxQueryCount
    ensures Expand(w, OneShape).Ok? && Cost(Expand(w, OneShape).value.nodes) == 2 * (max * cost)
  {
    LoopingIsAllowed("a", max, cost, w.budgets);
    LoopingIsAllowed("b", max, cost, w.budgets);
    TwoLoopsExpand(w, Looping("a", max, cost), Looping("b", max, cost), OneShape);
  }

  /** The wrapping sum lets a workflow through whose queries cost far more than its budget. */
  lemma OverspendingExpansion() returns (w: Workflow, v: Workflow)
    ensures Expand(w, OneShape) == Ok(v) && Cost(v.nodes) > w.budgets.maxQueryCount
  {
    w := Workflow(0, [Looping("a", 129, 255), Looping("b", 129, 255)], [], Budgets(0, 0, 255, 1), FailFast,
                  OutputContract(false, Pii));
    TwoLoopings(129, 255, w);
    v := Expand(w, OneShape).value;
  }

  // ------------------------------------------------------- compiled capabilities iterate nothing

  lemma {:induction false} NothingToExpand(w: Workflow, catalog: Catalog, i: nat)
    requires i <= |w.nodes| && forall n | n in w.nodes :: IterationOf(n).None?
    ensures ExpandUpTo(w, catalog, i) == Ok((w.nodes[..i], map[]))
  {
    if i > 0 {
      NothingToExpand(w, catalog, i - 1);
      assert w.nodes[..i] == w.nodes[..i - 1] + [w.nodes[i - 1]];
    }
  }

  /** Without an iterated node expansion changes nothing. */
  lemma ExpansionOfPlainIsIdentity(w: Workflow, catalog: Catalog)
    requires forall n | n in w.nodes :: IterationOf(n).None?
    ensures Expand(w, catalog) == Ok(w)
  {
    NothingToExpand(w, catalog, |w.nodes|);
    assert w.nodes[..|w.nodes|] == w.nodes;
  }

  /** Expanding twice is expanding once. */
  lemma ExpansionIsIdempotent(w: Workflow, catalog: Catalog, v: Workflow)
    requires Expand(w, catalog) == Ok(v)
    ensures Expand(v, catalog) == Ok(v)
  {
    forall m | m in v.nodes ensures IterationOf(m).None? { ExpandedNodes(w, catalog, v, m); }
    ExpansionOfPlainIsIdentity(v, catalog);
  }
}
