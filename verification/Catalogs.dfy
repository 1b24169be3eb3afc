/** The parts of the knowledge catalog that the compiler and the verifier read. */
module Catalogs {
  import opened Wrappers
  import opened Contract

  datatype QueryParameter = QueryParameter(name: string, kind: string, required: bool)

  datatype Query = Query(id: string, parameters: seq<QueryParameter>, timeoutMs: Option<u64>)

  datatype ShapeRole = Terminal | Resolver | Probe

  datatype ProducedSlot = ProducedSlot(slot: string, kind: string, sensitivity: Sensitivity)

  datatype Shape = Shape(
    id: string, role: ShapeRole, rowCap: Option<u32>, groupedBy: Option<string>, produces: seq<ProducedSlot>)

  /** `listable` is an integer filter with the `in` operator. */
  datatype FilterSlot = FilterSlot(id: string, listable: bool, exactIdentifier: bool)

  datatype Dataset = Dataset(id: string, shapes: seq<Shape>, filters: seq<FilterSlot>, timeoutMs: Option<u64>)

  datatype RecipeFilter = RecipeFilter(parameter: Option<string>, filterId: string)

  datatype Recipe = Recipe(datasetId: string, shapeId: string, filters: seq<RecipeFilter>)

  datatype Strategy =
    | FromScope | FromDefault | FromExtraction | FromUserText | FromSafePrior | FromPriorStep | FromProbe | Clarify

  datatype ProbeRef = ProbeRef(datasetId: string, shapeId: string, outputSlot: string)

  datatype ParameterPolicy = ParameterPolicy(
    name: string, kind: ParameterType, required: bool, hasDefault: bool, userRequired: bool,
    resolution: seq<Strategy>, probe: Option<ProbeRef>)

  datatype Capability = Capability(
    id: string, approved: bool, queryId: string, recipe: Option<Recipe>, policies: seq<ParameterPolicy>,
    maxLimit: Option<int>)

  datatype Catalog = Catalog(
    capabilities: seq<Capability>, queries: seq<Query>, datasets: seq<Dataset>,
    bindings: map<string, seq<ConstraintField>>)

  // Each lookup is the first match in list order.

  function FindCapability(all: seq<Capability>, id: string): Option<Capability> {
    if all == [] then None else if all[0].id == id then Some(all[0]) else FindCapability(all[1..], id)
  }

  function FindQuery(all: seq<Query>, id: string): Option<Query> {
    if all == [] then None else if all[0].id == id then Some(all[0]) else FindQuery(all[1..], id)
  }

  function FindDataset(all: seq<Dataset>, id: string): Option<Dataset> {
    if all == [] then None else if all[0].id == id then Some(all[0]) else FindDataset(all[1..], id)
  }

  function FindShape(all: seq<Shape>, id: string): Option<Shape> {
    if all == [] then None else if all[0].id == id then Some(all[0]) else FindShape(all[1..], id)
  }

  /** The shape of that id in the first dataset of that id. */
  function LookUpShape(catalog: Catalog, dataset: string, shape: string): Option<Shape> {
    match FindDataset(catalog.datasets, dataset) case None => None case Some(d) => FindShape(d.shapes, shape)
  }

  function FindSlot(all: seq<ProducedSlot>, slot: string): Option<ProducedSlot> {
    if all == [] then None else if all[0].slot == slot then Some(all[0]) else FindSlot(all[1..], slot)
  }

  /** The first capability with the id that is also approved. */
  function FindApproved(all: seq<Capability>, id: string): Option<Capability> {
    if all == [] then None
    else if all[0].id == id && all[0].approved then Some(all[0])
    else FindApproved(all[1..], id)
  }

  lemma {:induction false} FindCapabilityIsFirst(all: seq<Capability>, id: string)
    ensures FirstOf(all, (c: Capability) => c.id == id, FindCapability(all, id))
  {
    if all != [] {
      FindCapabilityIsFirst(all[1..], id);
      FirstOfNext(all, (c: Capability) => c.id == id, FindCapability(all[1..], id));
    }
  }

  lemma {:induction false} FindApprovedIsFirst(all: seq<Capability>, id: string)
    ensures FirstOf(all, (c: Capability) => c.id == id && c.approved, FindApproved(all, id))
  {
    if all != [] {
      FindApprovedIsFirst(all[1..], id);
      FirstOfNext(all, (c: Capability) => c.id == id && c.approved, FindApproved(all[1..], id));
    }
  }

  lemma {:induction false} FindQueryIsFirst(all: seq<Query>, id: string)
    ensures FirstOf(all, (q: Query) => q.id == id, FindQuery(all, id))
  {
    if all != [] {
      FindQueryIsFirst(all[1..], id);
      FirstOfNext(all, (q: Query) => q.id == id, FindQuery(all[1..], id));
    }
  }

  lemma {:induction false} FindDatasetIsFirst(all: seq<Dataset>, id: string)
    ensures FirstOf(all, (d: Dataset) => d.id == id, FindDataset(all, id))
  {
    if all != [] {
      FindDatasetIsFirst(all[1..], id);
      FirstOfNext(all, (d: Dataset) => d.id == id, FindDataset(all[1..], id));
    }
  }

  lemma {:induction false} FindShapeIsFirst(all: seq<Shape>, id: string)
    ensures FirstOf(all, (s: Shape) => s.id == id, FindShape(all, id))
  {
    if all != [] {
      FindShapeIsFirst(all[1..], id);
      FirstOfNext(all, (s: Shape) => s.id == id, FindShape(all[1..], id));
    }
  }

  lemma {:induction false} FindSlotIsFirst(all: seq<ProducedSlot>, slot: string)
    ensures FirstOf(all, (s: ProducedSlot) => s.slot == slot, FindSlot(all, slot))
  {
    if all != [] {
      FindSlotIsFirst(all[1..], slot);
      FirstOfNext(all, (s: ProducedSlot) => s.slot == slot, FindSlot(all[1..], slot));
    }
  }

  /** The first shape of that id in the first dataset of that id. */
  ghost predicate IsShapeAt(catalog: Catalog, dataset: string, shape: string, x: Shape) {
    exists d :: FirstOf(catalog.datasets, (y: Dataset) => y.id == dataset, Some(d)) &&
                FirstOf(d.shapes, (y: Shape) => y.id == shape, Some(x))
  }

  lemma ShapeAtIff(catalog: Catalog, dataset: string, shape: string, x: Shape)
    ensures IsShapeAt(catalog, dataset, shape, x) <==> LookUpShape(catalog, dataset, shape) == Some(x)
  {
    var found := FindDataset(catalog.datasets, dataset);
    FindDatasetIsFirst(catalog.datasets, dataset);
    if found.Some? {
      FindShapeIsFirst(found.value.shapes, shape);
      if LookUpShape(catalog, dataset, shape) == Some(x) {
        assert FirstOf(found.value.shapes, (y: Shape) => y.id == shape, Some(x));
      }
    }
    if IsShapeAt(catalog, dataset, shape, x) {
      var d :| FirstOf(catalog.datasets, (y: Dataset) => y.id == dataset, Some(d)) &&
               FirstOf(d.shapes, (y: Shape) => y.id == shape, Some(x));
      FirstIsDetermined(catalog.datasets, (y: Dataset) => y.id == dataset, found, Some(d));
      FirstIsDetermined(d.shapes, (y: Shape) => y.id == shape, FindShape(d.shapes, shape), Some(x));
    }
  }

  lemma SomeShapeIff(catalog: Catalog, dataset: string, shape: string)
    ensures forall x :: IsShapeAt(catalog, dataset, shape, x) <==> LookUpShape(catalog, dataset, shape) == Some(x)
    ensures LookUpShape(catalog, dataset, shape).Some? <==> exists x :: IsShapeAt(catalog, dataset, shape, x)
  {
    forall x ensures IsShapeAt(catalog, dataset, shape, x) <==> LookUpShape(catalog, dataset, shape) == Some(x) {
      ShapeAtIff(catalog, dataset, shape, x);
    }
    if LookUpShape(catalog, dataset, shape).Some? {
      assert IsShapeAt(catalog, dataset, shape, LookUpShape(catalog, dataset, shape).value);
    }
  }
}
