/** Comparisons must compare like with like (compile.rs): one population, one time window. */
module Comparisons {
  import opened Wrappers
  import opened Contract
  import opened Catalogs
  import opened Compiler
  import opened Verifier
  import opened Iteration
  import opened Expansion
  import opened CompiledShape

  predicate IsScopeOrTemporal(parameter: string) {
    parameter in ["client_id", "office_ids", "product_ids", "from_date", "to_date"]
  }

  /** Where the scope and the time window of a query come from; the last binding of a name wins. */
  function FactsOf(inputs: seq<NodeInput>): map<string, BindingSource> {
    if inputs == [] then map[]
    else
      var rest, last := FactsOf(inputs[..|inputs| - 1]), inputs[|inputs| - 1];
      if IsScopeOrTemporal(last.parameter) then rest[last.parameter := last.source] else rest
  }

  /** The first node with the id. */
  function FirstNode(nodes: seq<Node>, id: NodeId): (found: Option<Node>)
    ensures found.Some? ==> found.value in nodes && found.value.id == id
    ensures found.None? <==> id !in Ids(nodes)
  {
    if nodes == [] then None
    else
      assert forall n :: n in nodes <==> n == nodes[0] || n in nodes[1..];
      if nodes[0].id == id then Some(nodes[0]) else FirstNode(nodes[1..], id)
  }

  type Reference = Option<map<string, BindingSource>>

  /** One composed node: every source against the facts of the first. */
  function CheckSources(nodes: seq<Node>, id: NodeId, sources: seq<NodeId>,
                        reference: Reference): Option<CompileError> {
    if sources == [] then None
    else
      match FirstNode(nodes, sources[0])
      case None => Some(InvalidProposal)
      case Some(n) =>
        if reference.Some? && reference.value != FactsOf(n.inputs) then Some(ComparisonFactsDiverge(id))
        else CheckSources(nodes, id, sources[1..], Some(FactsOf(n.inputs)))
  }

  predicate IsComparison(n: Node) {
    n.kind.ComposeResult? && n.kind.composition.Comparison?
  }

  function CheckFrom(nodes: seq<Node>, rest: seq<Node>): Option<CompileError> {
    if rest == [] then None
    else if IsComparison(rest[0]) && CheckSources(nodes, rest[0].id, rest[0].kind.sources, None).Some?
    then CheckSources(nodes, rest[0].id, rest[0].kind.sources, None)
    else CheckFrom(nodes, rest[1..])
  }

  method CheckComparisonFacts(nodes: seq<Node>) returns (r: Option<CompileError>)
    ensures r == CheckFrom(nodes, nodes)
  {
    for i := 0 to |nodes|
      invariant CheckFrom(nodes, nodes) == CheckFrom(nodes, nodes[i..])
    {
      var n := nodes[i];
      assert nodes[i..][1..] == nodes[i + 1..];
      if IsComparison(n) {
        var outcome := CompareSources(nodes, n.id, n.kind.sources);
        if outcome.Some? {
          return outcome;
        }
      }
    }
    r := None;
  }

  method CompareSources(nodes: seq<Node>, id: NodeId, sources: seq<NodeId>) returns (r: Option<CompileError>)
    ensures r == CheckSources(nodes, id, sources, None)
  {
    var reference: Reference := None;
    for i := 0 to |sources|
      invariant CheckSources(nodes, id, sources, None) == CheckSources(nodes, id, sources[i..], reference)
    {
      assert sources[i..][1..] == sources[i + 1..];
      match FirstNode(nodes, sources[i]) {
        case None => return Some(InvalidProposal);
        case Some(n) =>
          if reference.Some? && reference.value != FactsOf(n.inputs) {
            return Some(ComparisonFactsDiverge(id));
          }
          // The source keeps the first facts; the ones just read are equal to them.
          if reference.None? {
            reference := Some(FactsOf(n.inputs));
          }
      }
    }
    r := None;
  }

  /** The facts are, for each of the five names bound, the source of its last binding. */
  lemma {:induction false} FactsExact(inputs: seq<NodeInput>, name: string)
    ensures name in FactsOf(inputs) <==>
            name in {"client_id", "office_ids", "product_ids", "from_date", "to_date"}
            && exists i :: i in inputs && i.parameter == name
    ensures name in FactsOf(inputs) ==>
            exists k :: LastNamed(inputs, name, k) && FactsOf(inputs)[name] == inputs[k].source
  {
    if inputs != [] {
      var init, last := inputs[..|inputs| - 1], inputs[|inputs| - 1];
      assert inputs == init + [last];
      FactsExact(init, name);
      if last.parameter == name {
        assert LastNamed(inputs, name, |init|) && last in inputs;
      } else if name in FactsOf(init) {
        var k :| LastNamed(init, name, k) && FactsOf(init)[name] == init[k].source;
        assert LastNamed(inputs, name, k) && inputs[k] == init[k] && init[k] in inputs;
      }
    }
  }

  ghost predicate LastNamed(inputs: seq<NodeInput>, name: string, k: int) {
    0 <= k < |inputs| && inputs[k].parameter == name && forall j | k < j < |inputs| :: inputs[j].parameter != name
  }

  /** Where the last input of that name comes from. */
  ghost predicate LastSource(inputs: seq<NodeInput>, name: string, source: BindingSource) {
    exists k :: LastNamed(inputs, name, k) && inputs[k].source == source
  }

  /** In the five names that fix the population and the time window both lists end in the same sources. */
  ghost predicate SameWindow(a: seq<NodeInput>, b: seq<NodeInput>) {
    forall name, source | name in {"client_id", "office_ids", "product_ids", "from_date", "to_date"} ::
      LastSource(a, name, source) <==> LastSource(b, name, source)
  }

  lemma FactIsLast(inputs: seq<NodeInput>, name: string, source: BindingSource)
    requires name in {"client_id", "office_ids", "product_ids", "from_date", "to_date"}
    ensures LastSource(inputs, name, source) <==> name in FactsOf(inputs) && FactsOf(inputs)[name] == source
  {
    FactsExact(inputs, name);
    if k :| LastNamed(inputs, name, k) { assert inputs[k] in inputs; }
  }

  lemma SameWindowIff(a: seq<NodeInput>, b: seq<NodeInput>)
    ensures SameWindow(a, b) <==> FactsOf(a) == FactsOf(b)
  {
    forall name, source | name in {"client_id", "office_ids", "product_ids", "from_date", "to_date"}
      ensures LastSource(a, name, source) <==> name in FactsOf(a) && FactsOf(a)[name] == source
      ensures LastSource(b, name, source) <==> name in FactsOf(b) && FactsOf(b)[name] == source
    {
      FactIsLast(a, name, source);
      FactIsLast(b, name, source);
    }
    if SameWindow(a, b) {
      forall name ensures name in FactsOf(a) <==> name in FactsOf(b)
                  ensures name in FactsOf(a) ==> FactsOf(a)[name] == FactsOf(b)[name] {
        FactsExact(a, name);
        FactsExact(b, name);
        if name in FactsOf(a) { assert LastSource(a, name, FactsOf(a)[name]); }
        if name in FactsOf(b) { assert LastSource(b, name, FactsOf(b)[name]); }
      }
      assert FactsOf(a).Keys == FactsOf(b).Keys;
    }
  }

  lemma {:induction false} FirstNodeIsFirst(nodes: seq<Node>, id: NodeId)
    ensures FirstOf(nodes, (n: Node) => n.id == id, FirstNode(nodes, id))
  {
    if nodes != [] {
      FirstNodeIsFirst(nodes[1..], id);
      FirstOfNext(nodes, (n: Node) => n.id == id, FirstNode(nodes[1..], id));
    }
  }

  // --------------------------------------------------------------- what acceptance means

  /** The first nodes with these ids exist and take population and time window from the same places. */
  ghost predicate Alike(nodes: seq<Node>, a: NodeId, b: NodeId) {
    exists x, y ::
      && FirstOf(nodes, (n: Node) => n.id == a, Some(x)) && FirstOf(nodes, (n: Node) => n.id == b, Some(y))
      && SameWindow(x.inputs, y.inputs)
  }

  lemma AlikeIffAgree(nodes: seq<Node>, a: NodeId, b: NodeId)
    ensures Alike(nodes, a, b) <==> AgreeOn(nodes, a, b)
  {
    FirstNodeIsFirst(nodes, a);
    FirstNodeIsFirst(nodes, b);
    if AgreeOn(nodes, a, b) {
      SameWindowIff(FirstNode(nodes, a).value.inputs, FirstNode(nodes, b).value.inputs);
    }
    if Alike(nodes, a, b) {
      var x, y :|
        && FirstOf(nodes, (n: Node) => n.id == a, Some(x)) && FirstOf(nodes, (n: Node) => n.id == b, Some(y))
        && SameWindow(x.inputs, y.inputs);
      FirstIsDetermined(nodes, (n: Node) => n.id == a, FirstNode(nodes, a), Some(x));
      FirstIsDetermined(nodes, (n: Node) => n.id == b, FirstNode(nodes, b), Some(y));
      SameWindowIff(x.inputs, y.inputs);
    }
  }

  /** In every comparison of the list every two sources are alike. */
  ghost predicate ComparesLike(nodes: seq<Node>) {
    forall n, a, b |
      n in nodes && n.kind.ComposeResult? && n.kind.composition.Comparison? && a in n.kind.sources &&
          b in n.kind.sources
      :: Alike(nodes, a, b)
  }

  /** Both nodes exist and take their scope and time window from the same places. */
  ghost predicate AgreeOn(nodes: seq<Node>, a: NodeId, b: NodeId) {
    && FirstNode(nodes, a).Some? && FirstNode(nodes, b).Some?
    && FactsOf(FirstNode(nodes, a).value.inputs) == FactsOf(FirstNode(nodes, b).value.inputs)
  }

  ghost predicate AllMatch(nodes: seq<Node>, sources: seq<NodeId>, reference: Reference) {
    forall i | 0 <= i < |sources| ::
      FirstNode(nodes, sources[i]).Some? &&
      (reference.Some? ==> FactsOf(FirstNode(nodes, sources[i]).value.inputs) == reference.value)
  }

  lemma {:induction false} SourcesMatch(nodes: seq<Node>, id: NodeId, sources: seq<NodeId>, reference: Reference)
    requires reference.Some?
    ensures CheckSources(nodes, id, sources, reference).None? <==> AllMatch(nodes, sources, reference)
  {
    if sources != [] {
      SourcesMatch(nodes, id, sources[1..], reference);
      forall i | 0 < i < |sources| ensures sources[i] == sources[1..][i - 1] { }
    }
  }

  lemma MatchingFirstIsAgreeing(nodes: seq<Node>, first: NodeId, rest: seq<NodeId>)
    requires FirstNode(nodes, first).Some?
    ensures AllMatch(nodes, rest, Some(FactsOf(FirstNode(nodes, first).value.inputs))) <==>
            forall a, b | a in [first] + rest && b in [first] + rest :: AgreeOn(nodes, a, b)
  {
    if forall a, b | a in [first] + rest && b in [first] + rest :: AgreeOn(nodes, a, b) {
      forall i | 0 <= i < |rest| ensures AgreeOn(nodes, first, rest[i]) {
        assert first in [first] + rest && rest[i] in [first] + rest;
      }
    }
    if AllMatch(nodes, rest, Some(FactsOf(FirstNode(nodes, first).value.inputs))) {
      forall a | a in [first] + rest ensures AgreeOn(nodes, first, a) {
        if a != first { var i :| 0 <= i < |rest| && rest[i] == a; }
      }
    }
  }

  lemma SourcesAgree(nodes: seq<Node>, id: NodeId, sources: seq<NodeId>)
    ensures CheckSources(nodes, id, sources, None).None? <==>
            forall a, b | a in sources && b in sources :: AgreeOn(nodes, a, b)
  {
    if sources != [] {
      var first, rest := sources[0], sources[1..];
      assert sources == [first] + rest;
      if FirstNode(nodes, first).Some? {
        SourcesMatch(nodes, id, rest, Some(FactsOf(FirstNode(nodes, first).value.inputs)));
        MatchingFirstIsAgreeing(nodes, first, rest);
      } else {
        assert first in sources && !AgreeOn(nodes, first, first);
      }
    }
  }

  lemma {:induction false} EveryComparisonChecked(nodes: seq<Node>, rest: seq<Node>)
    ensures CheckFrom(nodes, rest).None? <==>
            forall n | n in rest && IsComparison(n) :: CheckSources(nodes, n.id, n.kind.sources, None).None?
  {
    if rest != [] {
      EveryComparisonChecked(nodes, rest[1..]);
      assert rest == [rest[0]] + rest[1..];
    }
  }

  /**
   * The check passes exactly when, in every comparison, every two sources exist and take
   * their scope and time window from the same places.
   */
  lemma ComparisonsAgree(nodes: seq<Node>)
    ensures CheckFrom(nodes, nodes).None? <==> ComparesLike(nodes)
  {
    EveryComparisonChecked(nodes, nodes);
    forall n | n in nodes && IsComparison(n) { SourcesAgree(nodes, n.id, n.kind.sources); }
    forall a, b ensures Alike(nodes, a, b) <==> AgreeOn(nodes, a, b) {
      AlikeIffAgree(nodes, a, b);
    }
  }

  /** Up to position `k` every source exists and is like the first. */
  ghost predicate AlikeBelow(nodes: seq<Node>, sources: seq<NodeId>, k: nat) {
    k <= |sources| && forall i | 0 <= i < k :: Alike(nodes, sources[0], sources[i])
  }

  lemma {:induction false} FirstDiffers(nodes: seq<Node>, id: NodeId, sources: seq<NodeId>, reference: Reference)
      returns (k: nat)
    requires CheckSources(nodes, id, sources, reference).Some?
    ensures k < |sources| && (k > 0 || reference.Some? || FirstNode(nodes, sources[0]).None?)
    ensures k > 0 ==> FirstNode(nodes, sources[0]).Some?
    ensures forall i | 0 <= i < k ::
              && FirstNode(nodes, sources[i]).Some?
              && (reference.Some? ==> reference.value == FactsOf(FirstNode(nodes, sources[i]).value.inputs))
              && AgreeOn(nodes, sources[0], sources[i])
    ensures
      match FirstNode(nodes, sources[k])
      case None => CheckSources(nodes, id, sources, reference) == Some(InvalidProposal)
      case Some(n) =>
        && CheckSources(nodes, id, sources, reference) == Some(ComparisonFactsDiverge(id))
        && (reference.Some? ==> reference.value != FactsOf(n.inputs))
        && (reference.None? ==> k > 0 && FactsOf(FirstNode(nodes, sources[0]).value.inputs) != FactsOf(n.inputs))
  {
    var found := FirstNode(nodes, sources[0]);
    if found.None? || (reference.Some? && reference.value != FactsOf(found.value.inputs)) {
      k := 0;
    } else {
      var rest := sources[1..];
      var j := FirstDiffers(nodes, id, rest, Some(FactsOf(found.value.inputs)));
      assert forall i | 0 < i < |sources| :: sources[i] == rest[i - 1];
      k := j + 1;
    }
  }

  /**
   * Why a comparison fails: its first source that is missing, or is not like those before it,
   * decides which of the two errors it is.
   */
  lemma WhyItFails(nodes: seq<Node>, id: NodeId, sources: seq<NodeId>) returns (k: nat)
    requires CheckSources(nodes, id, sources, None).Some?
    ensures k < |sources| && AlikeBelow(nodes, sources, k)
    ensures CheckSources(nodes, id, sources, None) ==
            if sources[k] in Ids(nodes) then Some(ComparisonFactsDiverge(id)) else Some(InvalidProposal)
    ensures !Alike(nodes, sources[0], sources[k])
  {
    k := FirstDiffers(nodes, id, sources, None);
    forall i | 0 <= i <= k ensures Alike(nodes, sources[0], sources[i]) <==> AgreeOn(nodes, sources[0], sources[i]) {
      AlikeIffAgree(nodes, sources[0], sources[i]);
    }
  }

  /** What is reported is the failure of the first comparison that fails. */
  lemma {:induction false} FirstFailureReported(nodes: seq<Node>, rest: seq<Node>) returns (j: nat)
    requires CheckFrom(nodes, rest).Some?
    ensures j < |rest| && rest[j].kind.ComposeResult? && rest[j].kind.composition == Comparison
    ensures CheckFrom(nodes, rest) == CheckSources(nodes, rest[j].id, rest[j].kind.sources, None)
    ensures forall i | 0 <= i < j && rest[i].kind.ComposeResult? && rest[i].kind.composition == Comparison ::
              CheckSources(nodes, rest[i].id, rest[i].kind.sources, None).None?
  {
    if IsComparison(rest[0]) && CheckSources(nodes, rest[0].id, rest[0].kind.sources, None).Some? {
      j := 0;
    } else {
      var i := FirstFailureReported(nodes, rest[1..]);
      assert forall k | 0 < k < |rest| :: rest[k] == rest[1..][k - 1];
      j := i + 1;
    }
  }

  /** A comparison over an iterated query never compiles: its source is gone, unless a copy took its id. */
  lemma ComparisonOfIteratedFails(w: Workflow, catalog: Catalog, v: Workflow, n: Node, id: NodeId)
    requires UniqueIds(w.nodes) && Expand(w, catalog) == Ok(v)
    requires n in v.nodes && IsComparison(n) && id in n.kind.sources
    requires Iterated(w.nodes, id) && !Copied(w.nodes, id)
    ensures CheckFrom(v.nodes, v.nodes).Some?
  {
    IteratedIdIsGone(w, catalog, v, id);
    ComparisonsAgree(v.nodes);
    AlikeIffAgree(v.nodes, id, id);
    assert !AgreeOn(v.nodes, id, id);
  }

  lemma GadgetNodeIsPlain(g: Gadget, n: Node)
    requires n in GadgetNodes(g) && (g.Probing? ==> g.probe.ResolveEntity?)
    ensures IterationOf(n).None? && !IsComparison(n)
  {
  }

  /**
   * The capability path never iterates or compares, so its two last stages return the
   * workflow as it was assembled.
   */
  lemma CompiledPassesThrough(id: WorkflowId, ids: seq<string>, catalog: Catalog, budgets: Budgets, facts: Facts,
                              w: Workflow)
    requires CompileCapability(id, ids, catalog, budgets, facts) == Ok(w)
    ensures Expand(w, catalog) == Ok(w) && CheckFrom(w.nodes, w.nodes).None?
  {
    var capability := FindApproved(catalog.capabilities, ids[0]).value;
    var (inputs, gadgets) := AcquireUpTo(capability, facts, catalog, |capability.policies|).value;
    AcquiredSoFar(capability, facts, catalog, |capability.policies|);
    forall n | n in w.nodes ensures IterationOf(n).None? && !IsComparison(n) {
      if n in AllNodes(gadgets) {
        NodeOfGadget(gadgets, n);
        var g :| g in gadgets && n in GadgetNodes(g);
        GadgetNodeIsPlain(g, n);
      }
    }
    ExpansionOfPlainIsIdentity(w, catalog);
    EveryComparisonChecked(w.nodes, w.nodes);
  }
}
