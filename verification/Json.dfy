/**
 * JSON values and the redaction that keeps exact sensitive inputs out of durable
 * node output (state.rs `redact_fields`).
 */
module Json {
  import opened Wrappers

  datatype Json =
    | Null
    | Bool(b: bool)
    | Integer(n: int)
    | Float(f: real)
    | String(s: string)
    | Array(items: seq<Json>)
    | Object(fields: map<string, Json>)

  /** `Value::get` with a string key. */
  function Get(value: Json, key: string): Option<Json> {
    if value.Object? && key in value.fields then Some(value.fields[key]) else None
  }

  function Redact(value: Json, keys: set<string>): (r: Json)
    decreases value
  {
    match value
    case Array(items) => Array(seq(|items|, i requires 0 <= i < |items| => Redact(items[i], keys)))
    case Object(fields) => Object(map k | k in fields && k !in keys :: Redact(fields[k], keys))
    case _ => value
  }

  /** One step into a value: into an object member or an array element. */
  datatype Step = Member(key: string) | Element(index: nat)

  function Lookup(value: Json, path: seq<Step>): Option<Json>
    decreases |path|
  {
    if path == [] then Some(value)
    else
      match (value, path[0])
      case (Object(fields), Member(key)) => if key in fields then Lookup(fields[key], path[1..]) else None
      case (Array(items), Element(i)) => if i < |items| then Lookup(items[i], path[1..]) else None
      case _ => None
  }

  /** The path steps over one of the named members. */
  predicate Crosses(path: seq<Step>, keys: set<string>) {
    exists i :: 0 <= i < |path| && path[i].Member? && path[i].key in keys
  }

  function Transform(found: Option<Json>, keys: set<string>): Option<Json> {
    match found
    case None => None
    case Some(value) => Some(Redact(value, keys))
  }

  /**
   * Complete and minimal at every depth: a path through a named key finds nothing,
   * and every other path finds exactly what it found before, itself redacted.
   */
  lemma {:induction false} RedactedLookup(value: Json, keys: set<string>, path: seq<Step>)
    ensures Lookup(Redact(value, keys), path) ==
            if Crosses(path, keys) then None else Transform(Lookup(value, path), keys)
    decreases |path|
  {
    if path != [] {
      var rest := path[1..];
      assert path == [path[0]] + rest;
      assert Crosses(path, keys) <==> (path[0].Member? && path[0].key in keys) || Crosses(rest, keys) by {
        if Crosses(rest, keys) {
          var i :| 0 <= i < |rest| && rest[i].Member? && rest[i].key in keys;
          assert path[i + 1] == rest[i];
        }
      }
      match (value, path[0])
      case (Object(fields), Member(key)) =>
        if key in fields { RedactedLookup(fields[key], keys, rest); }
      case (Array(items), Element(i)) =>
        if i < |items| { RedactedLookup(items[i], keys, rest); }
      case _ =>
    }
  }

  /** Redacting by one set of keys and then another is redacting by their union. */
  lemma {:induction false} RedactUnion(value: Json, a: set<string>, b: set<string>)
    ensures Redact(Redact(value, a), b) == Redact(value, a + b)
    decreases value
  {
    match value
    case Array(items) =>
      forall i | 0 <= i < |items| ensures Redact(Redact(items[i], a), b) == Redact(items[i], a + b) {
        RedactUnion(items[i], a, b);
      }
    case Object(fields) =>
      forall k | k in fields ensures Redact(Redact(fields[k], a), b) == Redact(fields[k], a + b) {
        RedactUnion(fields[k], a, b);
      }
    case _ =>
  }

  /** No object at any depth keeps one of the keys. */
  predicate Clean(value: Json, keys: set<string>)
    decreases value
  {
    match value
    case Array(items) => forall i | 0 <= i < |items| :: Clean(items[i], keys)
    case Object(fields) => forall k | k in fields :: k !in keys && Clean(fields[k], keys)
    case _ => true
  }

  /** Redaction cleans, and it leaves exactly the clean values alone. */
  lemma {:induction false} RedactFixesClean(value: Json, keys: set<string>)
    ensures Clean(Redact(value, keys), keys)
    ensures Redact(value, keys) == value <==> Clean(value, keys)
    decreases value
  {
    match value
    case Array(items) =>
      forall i | 0 <= i < |items|
        ensures Clean(Redact(items[i], keys), keys)
        ensures Redact(items[i], keys) == items[i] <==> Clean(items[i], keys)
      {
        RedactFixesClean(items[i], keys);
      }
      var after := Redact(value, keys).items;
      if after == items {
        forall i | 0 <= i < |items| ensures Clean(items[i], keys) { assert after[i] == Redact(items[i], keys); }
      }
    case Object(fields) =>
      forall k | k in fields
        ensures Clean(Redact(fields[k], keys), keys)
        ensures Redact(fields[k], keys) == fields[k] <==> Clean(fields[k], keys)
      {
        RedactFixesClean(fields[k], keys);
      }
      var after := Redact(value, keys).fields;
      if after == fields {
        forall k | k in fields ensures k !in keys && Clean(fields[k], keys) {
          assert k in after && after[k] == Redact(fields[k], keys);
        }
      }
    case _ =>
  }

  /** A second redaction by the same keys changes nothing. */
  lemma RedactIdempotent(value: Json, keys: set<string>)
    ensures Redact(Redact(value, keys), keys) == Redact(value, keys)
  {
  }
}
