/** Failure-compatible datatypes shared by the other modules. */
module Wrappers {
  datatype Option<+T> = None | Some(value: T)

  datatype Result<+T, +E> = Ok(value: T) | Err(error: E)

  /** The first member of the list that fits, if any does. */
  ghost predicate FirstOf<T(!new)>(all: seq<T>, fits: T -> bool, found: Option<T>) {
    match found
    case None => forall x :: x in all ==> !fits(x)
    case Some(x) => fits(x) && exists k :: 0 <= k < |all| && all[k] == x && forall j | 0 <= j < k :: !fits(all[j])
  }

  lemma FirstOfNext<T(!new)>(all: seq<T>, fits: T -> bool, later: Option<T>)
    requires all != [] && FirstOf(all[1..], fits, later)
    ensures FirstOf(all, fits, if fits(all[0]) then Some(all[0]) else later)
  {
    if !fits(all[0]) && later.Some? {
      var rest := all[1..];
      var k :| 0 <= k < |rest| && rest[k] == later.value && forall j | 0 <= j < k :: !fits(rest[j]);
      assert forall j | 0 <= j < |rest| :: all[j + 1] == rest[j];
      assert forall j | 0 < j < k + 1 :: all[j] == rest[j - 1];
    }
  }

  lemma FirstOfMore<T(!new)>(all: seq<T>, x: T, fits: T -> bool, found: Option<T>)
    requires FirstOf(all, fits, found)
    ensures FirstOf(all + [x], fits, if found.Some? then found else if fits(x) then Some(x) else None)
  {
    var more := all + [x];
    assert forall j | 0 <= j < |all| :: more[j] == all[j];
    if found.Some? {
      var k :| 0 <= k < |all| && all[k] == found.value && forall j | 0 <= j < k :: !fits(all[j]);
      assert more[k] == found.value;
    } else {
      assert more[|all|] == x && forall j | 0 <= j < |all| :: all[j] in all;
    }
  }

  lemma FirstIsDetermined<T(!new)>(all: seq<T>, fits: T -> bool, a: Option<T>, b: Option<T>)
    requires FirstOf(all, fits, a) && FirstOf(all, fits, b)
    ensures a == b
  {
  }
}
