/** Decoded JSON documents, as `json.loads` hands them to the lab-test code, and
    the dictionary subscripting (`doc['lab']['build_requirements']...`) done on them. */
module Json {
  import opened Wrappers

  /** A decoded JSON value. Numbers keep their literal text: nothing in the
      core computes with them, they are only passed through to the runner. */
  datatype Json =
    | JNull
    | JBool(b: bool)
    | JNumber(literal: string)
    | JString(s: string)
    | JArray(items: seq<Json>)
    | JObject(members: map<string, Json>)

  /** Python's `j[key]` on a decoded document: a value only when `j` is an
      object holding `key`; a `KeyError` (missing key) or a `TypeError`
      (list, string, number, ...) otherwise, both shown as `None`. */
  function Member(j: Json, key: string): Option<Json>
  {
    if j.JObject? && key in j.members then Some(j.members[key]) else None
  }

  /** `j[path[0]][path[1]]...[path[n-1]]`: `None` as soon as one subscript raises. */
  function Lookup(j: Json, path: seq<string>): (r: Option<Json>)
    ensures path == [] ==> r == Some(j)
    ensures path != [] && r.Some? ==> j.JObject? && path[0] in j.members
    decreases |path|
  {
    if path == [] then Some(j)
    else
      var child :- Member(j, path[0]);
      Lookup(child, path[1..])
  }

  /** The document `{path[0]: {path[1]: ... {path[n-1]: leaf}}}`. */
  function Nest(path: seq<string>, leaf: Json): (doc: Json)
    ensures path != [] ==> doc.JObject? && doc.members.Keys == {path[0]}
    decreases |path|
  {
    if path == [] then leaf else JObject(map[path[0] := Nest(path[1..], leaf)])
  }

  /** Subscripting along a path undoes nesting along the same path. */
  lemma {:induction false} LookupNest(path: seq<string>, leaf: Json)
    ensures Lookup(Nest(path, leaf), path) == Some(leaf)
    decreases |path|
  {
    if path != [] {
      LookupNest(path[1..], leaf);
    }
  }

  /** Subscripting along `p + q` is subscripting along `p`, then along `q`. */
  lemma {:induction false} LookupAppend(j: Json, p: seq<string>, q: seq<string>)
    ensures Lookup(j, p + q) == match Lookup(j, p) case None => None case Some(c) => Lookup(c, q)
    decreases |p|
  {
    if p != [] {
      assert (p + q)[0] == p[0];
      assert (p + q)[1..] == p[1..] + q;
      match Member(j, p[0])
      case None =>
      case Some(c) => LookupAppend(c, p[1..], q);
    } else {
      assert p + q == q;
    }
  }

  /** Once a subscript raises, every longer path through it raises too. */
  lemma LookupMissingPrefix(j: Json, p: seq<string>, q: seq<string>)
    requires Lookup(j, p).None?
    ensures Lookup(j, p + q).None?
  {
    LookupAppend(j, p, q);
  }
}
