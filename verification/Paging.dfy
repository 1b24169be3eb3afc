/** Cursor paging over the knowledge catalog (management/knowledge.rs). */
module Paging {
  import opened Wrappers

  datatype Id = Id(text: string)

  datatype Availability = Available | Deferred | Unavailable

  datatype Domain = Domain(name: string)

  /** A capability as the catalog holds it; `title` stands for the fields listing only copies. */
  datatype Entry = Entry(id: string, status: string, domain: Domain, title: string)

  datatype Item = Item(id: Id, status: Availability, domain: Domain, title: string)

  datatype Query = Query(reference: bool, status: Option<Availability>, domain: Option<Domain>, cursor: Option<Id>,
                         limit: Option<nat>)

  datatype Listing = Disabled | Page(items: seq<Item>, next: Option<Id>)

  /** `Panics`: the request does not return, an index lies below zero. */
  datatype LookupError = InvalidCursor | Panics

  function AvailabilityOf(status: string): Availability {
    if status == "approved_mvp" then Available else if status == "deferred" then Deferred else Unavailable
  }

  function ItemOf(e: Entry): Item {
    Item(Id("catalog:" + e.id), AvailabilityOf(e.status), e.domain, e.title)
  }

  predicate Matches(item: Item, query: Query) {
    && (query.status.Some? ==> item.status == query.status.value)
    && (query.domain.Some? ==> item.domain == query.domain.value)
  }

  function Selected(entries: seq<Entry>, query: Query): seq<Item> {
    if entries == [] then []
    else
      var before, last := Selected(entries[..|entries| - 1], query), ItemOf(entries[|entries| - 1]);
      if Matches(last, query) then before + [last] else before
  }

  // ------------------------------------------------------------------------------ order

  /** Strings are compared character by character; a prefix comes first. */
  predicate Below(a: string, b: string) {
    if a == "" then b != ""
    else b != "" && (a[0] < b[0] || (a[0] == b[0] && Below(a[1..], b[1..])))
  }

  /** The order of dictionaries: at the first difference the smaller character or the end comes first. */
  lemma {:induction false} BelowIsLexicographic(a: string, b: string)
    ensures Below(a, b) <==>
            exists k | 0 <= k <= |a| && k < |b| :: a[..k] == b[..k] && (k == |a| || a[k] < b[k])
  {
    if Below(a, b) {
      if a == "" || a[0] < b[0] {
        assert a[..0] == b[..0];
      } else {
        BelowIsLexicographic(a[1..], b[1..]);
        var k :| 0 <= k <= |a| - 1 && k < |b| - 1 && a[1..][..k] == b[1..][..k]
                 && (k == |a| - 1 || a[1..][k] < b[1..][k]);
        assert a[..k + 1] == [a[0]] + a[1..][..k] && b[..k + 1] == [b[0]] + b[1..][..k];
      }
    }
    if k :| 0 <= k <= |a| && k < |b| && a[..k] == b[..k] && (k == |a| || a[k] < b[k]) {
      if k > 0 {
        assert a[..k][0] == b[..k][0];
        assert a[1..][..k - 1] == a[..k][1..] && b[1..][..k - 1] == b[..k][1..];
        BelowIsLexicographic(a[1..], b[1..]);
        assert k == |a| || a[1..][k - 1] < b[1..][k - 1];
      }
    }
  }

  lemma {:induction false} BelowIsTotal(a: string, b: string)
    ensures a == b || Below(a, b) || Below(b, a)
  {
    if a != "" && b != "" && a[0] == b[0] {
      BelowIsTotal(a[1..], b[1..]);
      assert a == [a[0]] + a[1..] && b == [b[0]] + b[1..];
    }
  }

  lemma {:induction false} BelowIsStrict(a: string, b: string)
    ensures !(Below(a, b) && Below(b, a)) && !Below(a, a)
  {
    if a != "" {
      BelowIsStrict(a[1..], if b == "" then "" else b[1..]);
    }
  }

  lemma {:induction false} BelowIsTransitive(a: string, b: string, c: string)
    requires Below(a, b) && Below(b, c)
    ensures Below(a, c)
  {
    if a != "" && a[0] == b[0] == c[0] {
      BelowIsTransitive(a[1..], b[1..], c[1..]);
    }
  }

  predicate Before(a: Item, b: Item) {
    Below(a.id.text, b.id.text)
  }

  /** Not after, in a total order: before or with the same id. */
  predicate Sorted(items: seq<Item>) {
    forall i, j | 0 <= i < j < |items| :: !Before(items[j], items[i])
  }

  function Insert(items: seq<Item>, x: Item): seq<Item> {
    if items == [] || !Before(x, items[|items| - 1]) then items + [x]
    else Insert(items[..|items| - 1], x) + [items[|items| - 1]]
  }

  /** The stable sort by id. */
  function SortById(items: seq<Item>): seq<Item> {
    if items == [] then [] else Insert(SortById(items[..|items| - 1]), items[|items| - 1])
  }

  lemma {:induction false} InsertKeeps(items: seq<Item>, x: Item)
    requires Sorted(items)
    ensures Sorted(Insert(items, x)) && multiset(Insert(items, x)) == multiset(items) + multiset{x}
  {
    if items != [] {
      var init, last := items[..|items| - 1], items[|items| - 1];
      assert items == init + [last];
      if Before(x, last) {
        InsertKeeps(init, x);
        InsertedBelow(init, last, x);
      } else {
        forall i | 0 <= i < |items| ensures !Before(x, items[i]) {
          if Before(x, items[i]) { NotAfter(x, items[i], last); }
        }
      }
    }
  }

  lemma NotAfter(x: Item, a: Item, b: Item)
    requires Before(x, a) && !Before(b, a)
    ensures Before(x, b)
  {
    BelowIsTotal(a.id.text, b.id.text);
    if Before(a, b) { BelowIsTransitive(x.id.text, a.id.text, b.id.text); }
  }

  lemma InsertedBelow(init: seq<Item>, last: Item, x: Item)
    requires Sorted(init + [last]) && Sorted(Insert(init, x)) && Before(x, last)
    requires multiset(Insert(init, x)) == multiset(init) + multiset{x}
    ensures Sorted(Insert(init, x) + [last])
  {
    var more := Insert(init, x);
    BelowIsStrict(x.id.text, last.id.text);
    forall i | 0 <= i < |more| ensures !Before(last, more[i]) {
      assert more[i] in multiset(more);
      if more[i] != x {
        assert more[i] in init;
        var j :| 0 <= j < |init| && init[j] == more[i];
        assert (init + [last])[j] == init[j] && (init + [last])[|init|] == last;
      }
    }
  }

  lemma LastCounts(items: seq<Item>)
    requires items != []
    ensures multiset(items) == multiset(items[..|items| - 1]) + multiset{items[|items| - 1]}
  {
    assert items == items[..|items| - 1] + [items[|items| - 1]];
  }

  /** Sorting loses and invents nothing. */
  lemma {:induction false} SortSorts(items: seq<Item>)
    ensures Sorted(SortById(items)) && multiset(SortById(items)) == multiset(items)
  {
    if items != [] {
      var init := items[..|items| - 1];
      SortSorts(init);
      InsertKeeps(SortById(init), items[|items| - 1]);
      LastCounts(items);
    }
  }

  // ------------------------------------------------------------------------------- a page

  function Position(items: seq<Item>, id: Id): Option<nat> {
    if items == [] then None
    else if items[0].id == id then Some(0)
    else match Position(items[1..], id) case None => None case Some(i) => Some(i + 1)
  }

  /** Where the page after the cursor begins. */
  function StartOf(items: seq<Item>, cursor: Option<Id>): Option<nat> {
    match cursor
    case None => Some(0)
    case Some(id) => match Position(items, id) case None => None case Some(i) => Some(i + 1)
  }

  function Least(a: nat, b: nat): nat { if a < b then a else b }

  /** The next cursor is the item before the first that was left out, which may not exist. */
  function PageAt(items: seq<Item>, start: nat, limit: nat): Result<Listing, LookupError> {
    if start + limit >= |items| then Ok(Page(items[Least(start, |items|)..], None))
    else if start + limit == 0 then Err(Panics)
    else Ok(Page(items[start..start + limit], Some(items[start + limit - 1].id)))
  }

  /** One request, for any limit. */
  method List(entries: seq<Entry>, query: Query) returns (r: Result<Listing, LookupError>)
    ensures
      var items := SortById(Selected(entries, query));
      r == if query.reference then Ok(Disabled)
           else match StartOf(items, query.cursor)
                case None => Err(InvalidCursor)
                case Some(start) => PageAt(items, start, if query.limit.Some? then query.limit.value else 50)
  {
    if query.reference {
      return Ok(Disabled);
    }
    var items: seq<Item> := [];
    for i := 0 to |entries|
      invariant items == Selected(entries[..i], query)
    {
      assert entries[..i + 1][..i] == entries[..i];
      if Matches(ItemOf(entries[i]), query) {
        items := items + [ItemOf(entries[i])];
      }
    }
    assert entries[..|entries|] == entries;
    items := SortById(items);
    var start := StartOf(items, query.cursor);
    if start.None? {
      return Err(InvalidCursor);
    }
    var limit := if query.limit.Some? then query.limit.value else 50;
    if start.value + limit >= |items| {
      return Ok(Page(items[Least(start.value, |items|)..], None));
    }
    if start.value + limit == 0 {
      return Err(Panics);
    }
    r := Ok(Page(items[start.value..start.value + limit], Some(items[start.value + limit - 1].id)));
  }

  // ------------------------------------------------------------------------ following cursors

  ghost predicate UniqueItems(items: seq<Item>) {
    forall i, j | 0 <= i < j < |items| :: items[i].id != items[j].id
  }

  lemma {:induction false} PositionOf(items: seq<Item>, k: nat)
    requires UniqueItems(items) && k < |items|
    ensures Position(items, items[k].id) == Some(k)
  {
    if k > 0 { PositionOf(items[1..], k - 1); }
  }

  /** Request validation asks for at least one item; the listing itself does not. */
  type PageSize = n: int | 0 < n witness 1

  lemma NextStart(items: seq<Item>, start: nat, limit: PageSize)
    requires UniqueItems(items) && PageAt(items, start, limit).value.next.Some?
    ensures StartOf(items, PageAt(items, start, limit).value.next) == Some(start + limit) && start + limit < |items|
  {
    PositionOf(items, start + limit - 1);
  }

  lemma {:induction false} PositionIsIndex(items: seq<Item>, id: Id)
    requires Position(items, id).Some?
    ensures Position(items, id).value < |items| && items[Position(items, id).value].id == id
  {
    if items[0].id != id { PositionIsIndex(items[1..], id); }
  }

  /**
   * What a limit of zero does: nothing but an empty page when nothing is left, a panic on the
   * first page of a non-empty listing, and otherwise the caller's own cursor back for ever.
   */
  lemma EmptyPagesNeverAdvance(items: seq<Item>, cursor: Option<Id>)
    requires StartOf(items, cursor).Some?
    ensures
      var page := PageAt(items, StartOf(items, cursor).value, 0);
      && (page == Err(Panics) <==> cursor.None? && items != [])
      && (page.Ok? ==> page.value.items == [] && (page.value.next.Some? ==> page.value.next == cursor))
      && (page.Ok? && page.value.next.None? <==> StartOf(items, cursor).value == |items|)
  {
    if cursor.Some? { PositionIsIndex(items, cursor.value); }
  }

  /**
   * All items met by asking for page after page, where page number `k` is asked with
   * `limits(k)` and each request passes the cursor of the page before.
   */
  ghost function Follow(items: seq<Item>, cursor: Option<Id>, limits: nat -> PageSize, k: nat): Option<seq<Item>>
    requires UniqueItems(items)
    decreases Remaining(items, cursor)
  {
    match StartOf(items, cursor)
    case None => None
    case Some(start) =>
      var page := PageAt(items, start, limits(k)).value;
      if page.next.None? then Some(page.items)
      else
        NextStart(items, start, limits(k));
        match Follow(items, page.next, limits, k + 1)
        case None => None
        case Some(rest) => Some(page.items + rest)
  }

  function Remaining(items: seq<Item>, cursor: Option<Id>): int {
    match StartOf(items, cursor) case None => 0 case Some(start) => |items| - start
  }

  lemma PageAndRest(items: seq<Item>, start: nat, limit: PageSize)
    requires start <= |items|
    ensures PageAt(items, start, limit).Ok?
    ensures
      var page := PageAt(items, start, limit).value;
      && (page.next.Some? ==> start + limit < |items| && page.items + items[start + limit..] == items[start..])
      && (page.next.None? ==> page.items == items[start..])
  {
  }

  lemma FollowStep(items: seq<Item>, cursor: Option<Id>, limits: nat -> PageSize, k: nat, start: nat)
    requires UniqueItems(items) && StartOf(items, cursor) == Some(start) && start <= |items|
    requires PageAt(items, start, limits(k)).value.next.Some?
    requires
      var rest := start + limits(k);
      rest < |items| && Follow(items, PageAt(items, start, limits(k)).value.next, limits, k + 1) == Some(items[rest..])
    ensures Follow(items, cursor, limits, k) == Some(items[start..])
  {
    PageAndRest(items, start, limits(k));
  }

  lemma {:induction false} FollowFrom(items: seq<Item>, cursor: Option<Id>, limits: nat -> PageSize, k: nat, start: nat)
    requires UniqueItems(items) && StartOf(items, cursor) == Some(start) && start <= |items|
    ensures Follow(items, cursor, limits, k) == Some(items[start..])
    decreases |items| - start
  {
    var page := PageAt(items, start, limits(k)).value;
    if page.next.Some? {
      NextStart(items, start, limits(k));
      FollowFrom(items, page.next, limits, k + 1, start + limits(k));
      FollowStep(items, cursor, limits, k, start);
    } else {
      PageAndRest(items, start, limits(k));
    }
  }

  /**
   * Following the cursors from the first page visits the sorted items once each, in order,
   * whatever the page sizes, and never meets an invalid cursor.
   */
  lemma FollowingVisitsAll(items: seq<Item>, limits: nat -> PageSize)
    requires UniqueItems(items)
    ensures Follow(items, None, limits, 0) == Some(items)
  {
    FollowFrom(items, None, limits, 0, 0);
    assert items[0..] == items;
  }

  ghost predicate UniqueEntries(entries: seq<Entry>) {
    forall i, j | 0 <= i < j < |entries| :: entries[i].id != entries[j].id
  }

  lemma {:induction false} SelectedExact(entries: seq<Entry>, query: Query)
    ensures forall x :: x in Selected(entries, query) <==>
            Matches(x, query) && exists e :: e in entries && ItemOf(e) == x
    ensures UniqueEntries(entries) ==> UniqueItems(Selected(entries, query))
  {
    if entries != [] {
      var init, last := entries[..|entries| - 1], entries[|entries| - 1];
      assert entries == init + [last];
      SelectedExact(init, query);
      if UniqueEntries(entries) {
        assert UniqueEntries(init);
        forall x | x in Selected(init, query) ensures x.id != ItemOf(last).id {
          var e :| e in init && ItemOf(e) == x;
          PrefixedDiffer(e, last);
        }
      }
    }
  }

  lemma PrefixedDiffer(a: Entry, b: Entry)
    requires a.id != b.id
    ensures ItemOf(a).id != ItemOf(b).id
  {
    assert a.id == ("catalog:" + a.id)[8..] && b.id == ("catalog:" + b.id)[8..];
  }

  lemma UniqueCounts(items: seq<Item>, sorted: seq<Item>)
    requires UniqueItems(items) && multiset(sorted) == multiset(items) && Sorted(sorted)
    ensures UniqueItems(sorted)
  {
    forall i, j | 0 <= i < j < |sorted| ensures sorted[i].id != sorted[j].id {
      if sorted[i].id == sorted[j].id {
        TwiceCounts(sorted, i, j);
        OnceCounts(items, sorted[i]);
      }
    }
  }

  lemma TwiceCounts(s: seq<Item>, i: nat, j: nat)
    requires i < j < |s|
    ensures s[i] in multiset(s) && s[j] in multiset(s)
    ensures s[i] == s[j] ==> multiset(s)[s[i]] >= 2
  {
    assert s == s[..i] + [s[i]] + s[i + 1..j] + [s[j]] + s[j + 1..];
  }

  lemma {:induction false} OnceCounts(items: seq<Item>, x: Item)
    requires UniqueItems(items)
    ensures multiset(items)[x] <= 1
  {
    if items != [] {
      var init, last := items[..|items| - 1], items[|items| - 1];
      assert items == init + [last];
      OnceCounts(init, x);
      if x == last { assert x !in init; }
    }
  }

  /**
   * The item that a listing shows for an entry. An entry is asked for by its own status text
   * and domain: approved ones are available, deferred ones deferred, all others unavailable.
   */
  predicate IsShownAs(e: Entry, x: Item) {
    && x.id.text == "catalog:" + e.id && x.domain == e.domain && x.title == e.title
    && (x.status.Available? <==> e.status == "approved_mvp") && (x.status.Deferred? <==> e.status == "deferred")
  }

  predicate AskedFor(e: Entry, query: Query) {
    && (query.domain == None || query.domain == Some(e.domain))
    && (query.status == Some(Available) ==> e.status == "approved_mvp")
    && (query.status == Some(Deferred) ==> e.status == "deferred")
    && (query.status == Some(Unavailable) ==> e.status != "approved_mvp" && e.status != "deferred")
  }

  lemma MatchesIffAskedFor(e: Entry, query: Query)
    ensures Matches(ItemOf(e), query) <==> AskedFor(e, query)
    ensures forall x :: IsShownAs(e, x) <==> x == ItemOf(e)
  {
    assert "approved_mvp"[0] != "deferred"[0];
    forall x | IsShownAs(e, x) ensures x == ItemOf(e) {
      assert x.id == Id("catalog:" + e.id);
    }
  }

  lemma SortKeepsMembers(items: seq<Item>)
    ensures forall x :: x in SortById(items) <==> x in items
  {
    SortSorts(items);
    var sorted := SortById(items);
    forall x ensures x in sorted <==> x in items {
      assert x in sorted <==> x in multiset(sorted);
    }
  }

  lemma InOrderOfIds(items: seq<Item>)
    requires Sorted(items) && UniqueItems(items)
    ensures forall i, j | 0 <= i < j < |items| :: Before(items[i], items[j])
  {
    forall i, j | 0 <= i < j < |items| ensures Before(items[i], items[j]) {
      BelowIsTotal(items[i].id.text, items[j].id.text);
    }
  }

  lemma SelectedAsAsked(entries: seq<Entry>, query: Query)
    ensures forall x :: x in Selected(entries, query) <==>
              exists e :: e in entries && AskedFor(e, query) && IsShownAs(e, x)
  {
    SelectedExact(entries, query);
    forall e, x ensures AskedFor(e, query) && IsShownAs(e, x) <==> Matches(x, query) && ItemOf(e) == x {
      MatchesIffAskedFor(e, query);
    }
  }

  /**
   * Over a catalog with unique ids, following the cursors visits exactly the capabilities of
   * the status and the domain asked for, each once and in increasing order of id.
   */
  lemma PagingIsComplete(entries: seq<Entry>, query: Query, limits: nat -> PageSize)
    requires UniqueEntries(entries)
    ensures
      var items := SortById(Selected(entries, query));
      && UniqueItems(items) && Follow(items, None, limits, 0) == Some(items)
      && (forall i, j | 0 <= i < j < |items| :: Before(items[i], items[j]))
      && (forall x :: x in items <==> exists e :: e in entries && AskedFor(e, query) && IsShownAs(e, x))
  {
    var selected := Selected(entries, query);
    var items := SortById(selected);
    SelectedExact(entries, query);
    SortSorts(selected);
    UniqueCounts(selected, items);
    FollowingVisitsAll(items, limits);
    InOrderOfIds(items);
    SelectedAsAsked(entries, query);
    SortKeepsMembers(selected);
  }
}
