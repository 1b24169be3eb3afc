/**
 * Bounded iteration (compile.rs): a query that iterates over at most `max` values becomes
 * `max` sibling queries, and every edge is multiplied accordingly.
 */
module Iteration {
  import opened Wrappers
  import opened Contract
  import opened Catalogs
  import opened Compiler

  // ------------------------------------------------------------------ generated names

  function Decimal(k: nat): (s: string)
    ensures |s| >= 1 && forall i | 0 <= i < |s| :: '0' <= s[i] <= '9'
  {
    if k < 10 then [('0' as int + k) as char] else Decimal(k / 10) + [('0' as int + k % 10) as char]
  }

  lemma {:induction false} DecimalInjective(j: nat, k: nat)
    requires Decimal(j) == Decimal(k)
    ensures j == k
  {
    var s, t := Decimal(j), Decimal(k);
    assert s[|s| - 1] as int - '0' as int == j % 10 && t[|t| - 1] as int - '0' as int == k % 10;
    if j >= 10 && k >= 10 {
      assert s[..|s| - 1] == Decimal(j / 10) && t[..|t| - 1] == Decimal(k / 10);
      DecimalInjective(j / 10, k / 10);
    }
  }

  /** The number a string of digits stands for. */
  function Number(s: string): int {
    if s == "" then 0 else 10 * Number(s[..|s| - 1]) + (s[|s| - 1] as int - '0' as int)
  }

  /** What is written is the number, without a leading zero. */
  lemma {:induction false} DecimalReadsBack(k: nat)
    ensures Number(Decimal(k)) == k && (k > 0 ==> Decimal(k)[0] != '0')
  {
    var s := Decimal(k);
    if k >= 10 {
      assert s[..|s| - 1] == Decimal(k / 10);
      DecimalReadsBack(k / 10);
    } else {
      assert s[..0] == "";
    }
  }

  function CopyId(n: NodeId, k: nat): NodeId {
    NodeId(n.name + "_iter_" + Decimal(k))
  }

  /** Digits hold no underscore, so the last underscore marks where the number begins. */
  lemma LastUnderscore(a: string, d: string, b: string, e: string)
    requires |d| < |e| && forall i | 0 <= i < |e| :: '0' <= e[i] <= '9'
    ensures a + "_iter_" + d != b + "_iter_" + e
  {
    var s, t, i := a + "_iter_" + d, b + "_iter_" + e, |a| + 5;
    assert s[i] == '_';
    if |s| == |t| { assert t[i] == e[i - |b| - 6]; }
  }

  /** Copies of different nodes, and different copies of one node, never share an id. */
  lemma CopyIdInjective(m: NodeId, j: nat, n: NodeId, k: nat)
    requires CopyId(m, j) == CopyId(n, k)
    ensures m == n && j == k
  {
    var d, e := Decimal(j), Decimal(k);
    if |d| < |e| { LastUnderscore(m.name, d, n.name, e); }
    if |e| < |d| { LastUnderscore(n.name, e, m.name, d); }
    var s := CopyId(m, j).name;
    assert s[|s| - |d|..] == d && s[|s| - |d|..] == e;
    assert s[..|s| - |d| - 6] == m.name && s[..|s| - |d| - 6] == n.name;
    DecimalInjective(j, k);
  }

  // ------------------------------------------------------------------------ the function

  function IterationOf(n: Node): Option<IterateOver> {
    if n.kind.ExecuteQuery? then n.kind.iterateOver else None
  }

  function CopyOf(n: Node, k: nat): Node {
    n.(id := CopyId(n.id, k), kind := if n.kind.ExecuteQuery? then n.kind.(iterateOver := None) else n.kind)
  }

  function Copies(n: Node, count: nat): (r: seq<Node>)
    ensures |r| == count && forall k | 0 <= k < count :: r[k] == CopyOf(n, k)
  {
    if count == 0 then [] else Copies(n, count - 1) + [CopyOf(n, count - 1)]
  }

  function CopyIds(n: NodeId, count: nat): (r: seq<NodeId>)
    ensures |r| == count && forall k | 0 <= k < count :: r[k] == CopyId(n, k)
  {
    if count == 0 then [] else CopyIds(n, count - 1) + [CopyId(n, count - 1)]
  }

  predicate CopiesNamed(n: NodeId, count: nat) {
    forall k | 0 <= k < count :: ValidName(CopyId(n, k).name)
  }

  function FindGrouped(shapes: seq<Shape>, slot: string): Option<string> {
    if shapes == [] then None
    else if shapes[0].groupedBy == Some(slot) then Some(shapes[0].id)
    else FindGrouped(shapes[1..], slot)
  }

  /** Why the query may not be expanded, if it may not. */
  function Objection(n: Node, it: IterateOver, budgets: Budgets, catalog: Catalog): Option<CompileError>
    requires n.kind.ExecuteQuery?
  {
    if it.max == 0 || it.max > budgets.maxQueryCount then Some(CompileError.BudgetExceeded)
    else if n.kind.dataset.None? || n.kind.shape.None? then Some(InvalidProposal)
    else
      match FindDataset(catalog.datasets, n.kind.dataset.value)
      case None => Some(InvalidProposal)
      case Some(d) =>
        if FindGrouped(d.shapes, it.slot).Some? then Some(GroupedQueryPreferred(FindGrouped(d.shapes, it.slot).value))
        else if FindShape(d.shapes, n.kind.shape.value).None? || !(exists f :: f in d.filters && f.listable)
        then Some(InvalidProposal)
        else if !CopiesNamed(n.id, it.max) then Some(InvalidProposal)
        else None
  }

  /** What stands for the node after expansion. */
  function Part(n: Node): seq<Node> {
    match IterationOf(n) case None => [n] case Some(it) => Copies(n, it.max)
  }

  type Replacements = map<NodeId, seq<NodeId>>

  /** The nodes built and the replacements recorded over the first `i` nodes. */
  function ExpandUpTo(w: Workflow, catalog: Catalog, i: nat): Result<(seq<Node>, Replacements), CompileError>
    requires i <= |w.nodes|
  {
    if i == 0 then Ok(([], map[]))
    else
      match ExpandUpTo(w, catalog, i - 1)
      case Err(e) => Err(e)
      case Ok((nodes, repl)) =>
        var n := w.nodes[i - 1];
        match IterationOf(n)
        case None => Ok((nodes + [n], repl))
        case Some(it) =>
          match Objection(n, it, w.budgets, catalog)
          case Some(e) => Err(e)
          case None => Ok((nodes + Copies(n, it.max), repl[n.id := CopyIds(n.id, it.max)]))
  }

  function Targets(repl: Replacements, n: NodeId): seq<NodeId> {
    if n in repl then repl[n] else [n]
  }

  function Fan(source: NodeId, targets: seq<NodeId>, condition: EdgeCondition): seq<Edge> {
    if targets == [] then []
    else Fan(source, targets[..|targets| - 1], condition) + [Edge(source, targets[|targets| - 1], condition)]
  }

  function Cross(sources: seq<NodeId>, targets: seq<NodeId>, condition: EdgeCondition): seq<Edge> {
    if sources == [] then []
    else Cross(sources[..|sources| - 1], targets, condition) + Fan(sources[|sources| - 1], targets, condition)
  }

  function ExpandEdges(edges: seq<Edge>, repl: Replacements): seq<Edge> {
    if edges == [] then []
    else
      var last := edges[|edges| - 1];
      ExpandEdges(edges[..|edges| - 1], repl)
      + Cross(Targets(repl, last.source), Targets(repl, last.target), last.condition)
  }

  function Cost(nodes: seq<Node>): nat {
    if nodes == [] then 0 else Cost(nodes[..|nodes| - 1]) + nodes[|nodes| - 1].budget.queryCost
  }

  /** `expand_iteration`; the cost is a sum of u16 values, which wraps in a release build. */
  function Expand(w: Workflow, catalog: Catalog): Result<Workflow, CompileError> {
    match ExpandUpTo(w, catalog, |w.nodes|)
    case Err(e) => Err(e)
    case Ok((nodes, repl)) =>
      if repl == map[] then Ok(w.(nodes := nodes))
      else if Cost(nodes) % U16_SPAN > w.budgets.maxQueryCount then Err(CompileError.BudgetExceeded)
      else Ok(w.(nodes := nodes, edges := ExpandEdges(w.edges, repl)))
  }

  // -------------------------------------------------------------- the loops of the source

  /** What the next node adds, or the objection that ends the expansion. */
  lemma NextNode(w: Workflow, catalog: Catalog, i: nat, nodes: seq<Node>, repl: Replacements)
    requires i < |w.nodes| && ExpandUpTo(w, catalog, i) == Ok((nodes, repl))
    ensures
      var n := w.nodes[i];
      match IterationOf(n)
      case None => ExpandUpTo(w, catalog, i + 1) == Ok((nodes + [n], repl))
      case Some(it) =>
        match Objection(n, it, w.budgets, catalog)
        case Some(e) => ExpandUpTo(w, catalog, |w.nodes|) == Err(e)
        case None =>
          ExpandUpTo(w, catalog, i + 1) == Ok((nodes + Copies(n, it.max), repl[n.id := CopyIds(n.id, it.max)]))
  {
    if ExpandUpTo(w, catalog, i + 1).Err? { ObjectionEnds(w, catalog, i + 1, |w.nodes|); }
  }

  method ExpandNodes(w: Workflow, catalog: Catalog) returns (r: Result<(seq<Node>, Replacements), CompileError>)
    ensures r == ExpandUpTo(w, catalog, |w.nodes|)
  {
    var expanded: seq<Node> := [];
    var replacements: Replacements := map[];
    for i := 0 to |w.nodes|
      invariant ExpandUpTo(w, catalog, i) == Ok((expanded, replacements))
    {
      var node := w.nodes[i];
      NextNode(w, catalog, i, expanded, replacements);
      match IterationOf(node) {
        case None => expanded := expanded + [node];
        case Some(it) =>
          var objection := Objection(node, it, w.budgets, catalog);
          if objection.Some? {
            return Err(objection.value);
          }
          expanded := PushCopies(expanded, node, it.max);
          replacements := replacements[node.id := CopyIds(node.id, it.max)];
      }
    }
    r := Ok((expanded, replacements));
  }

  method PushCopies(nodes: seq<Node>, n: Node, count: nat) returns (r: seq<Node>)
    ensures r == nodes + Copies(n, count)
  {
    r := nodes;
    for k := 0 to count
      invariant r == nodes + Copies(n, k)
    {
      r := r + [CopyOf(n, k)];
    }
  }

  method WrappedCost(nodes: seq<Node>) returns (cost: u16)
    ensures cost == Cost(nodes) % U16_SPAN
  {
    cost := 0;
    for i := 0 to |nodes|
      invariant cost == Cost(nodes[..i]) % U16_SPAN
    {
      assert nodes[..i + 1][..i] == nodes[..i];
      cost := (cost + nodes[i].budget.queryCost) % U16_SPAN;
    }
    assert nodes[..|nodes|] == nodes;
  }

  method ExpandIteration(w: Workflow, catalog: Catalog) returns (r: Result<Workflow, CompileError>)
    ensures r == Expand(w, catalog)
  {
    var expansion := ExpandNodes(w, catalog);
    match expansion {
      case Err(e) => r := Err(e);
      case Ok((expanded, replacements)) =>
        if replacements == map[] {
          return Ok(w.(nodes := expanded));
        }
        var edges := MultiplyEdges(w.edges, replacements);
        var cost := WrappedCost(expanded);
        if cost > w.budgets.maxQueryCount {
          return Err(CompileError.BudgetExceeded);
        }
        r := Ok(w.(nodes := expanded, edges := edges));
    }
  }

  lemma {:induction false} ObjectionEnds(w: Workflow, catalog: Catalog, i: nat, j: nat)
    requires i <= j <= |w.nodes| && ExpandUpTo(w, catalog, i).Err?
    ensures ExpandUpTo(w, catalog, j) == ExpandUpTo(w, catalog, i)
    decreases j - i
  {
    if i < j { ObjectionEnds(w, catalog, i, j - 1); }
  }

  method MultiplyEdges(all: seq<Edge>, repl: Replacements) returns (edges: seq<Edge>)
    ensures edges == ExpandEdges(all, repl)
  {
    edges := [];
    for i := 0 to |all|
      invariant edges == ExpandEdges(all[..i], repl)
    {
      assert all[..i + 1][..i] == all[..i];
      edges := PushCross(edges, Targets(repl, all[i].source), Targets(repl, all[i].target), all[i].condition);
    }
    assert all[..|all|] == all;
  }

  method PushFan(edges: seq<Edge>, from: NodeId, to: seq<NodeId>, condition: EdgeCondition) returns (r: seq<Edge>)
    ensures r == edges + Fan(from, to, condition)
  {
    r := edges;
    for k := 0 to |to|
      invariant r == edges + Fan(from, to[..k], condition)
    {
      assert to[..k + 1][..k] == to[..k];
      r := r + [Edge(from, to[k], condition)];
    }
    assert to[..|to|] == to;
  }

  method PushCross(edges: seq<Edge>, from: seq<NodeId>, to: seq<NodeId>,
                   condition: EdgeCondition) returns (r: seq<Edge>)
    ensures r == edges + Cross(from, to, condition)
  {
    r := edges;
    for j := 0 to |from|
      invariant r == edges + Cross(from[..j], to, condition)
    {
      assert from[..j + 1][..j] == from[..j];
      r := PushFan(r, from[j], to, condition);
    }
    assert from[..|from|] == from;
  }
}
