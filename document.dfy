/**
 The value model shared by the deep merge and the deep revert: a settings
 document is a JSON object (section 3 of RFC 8259) whose members are looked up
 by string key.  Both algorithms only ever ask of a value "is it an object?"
 and "is it null?", so every other kind of value is carried through unchanged.
 */
module Document {

  datatype Option<+T> = None | Some(value: T)

  datatype Result<+T, +E> = Success(value: T) | Failure(error: E)

  /** A JSON value; `Obj` is a Python `dict`, everything else is opaque to the core. */
  datatype Json =
    | Null
    | Bool(b: bool)
    | Number(literal: string)
    | Str(s: string)
    | Array(elems: seq<Json>)
    | Obj(fields: map<string, Json>)

  /** One level of a settings document: a `dict` from keys to values. */
  type Settings = map<string, Json>

  /** `settings.get(key, None)`: a missing key and a stored `null` look the same. */
  function Lookup(m: Settings, key: string): (v: Json)
    ensures v == Null <==> key !in m || m[key] == Null
    ensures v != Null ==> key in m && m[key] == v
  {
    if key in m then m[key] else Null
  }

  /** The member `key` of `m`, if there is one (a stored `null` is a member). */
  function Entry(m: Settings, key: string): (e: Option<Json>)
    ensures e.Some? <==> key in m
    ensures e.Some? ==> e.value == m[key]
  {
    if key in m then Some(m[key]) else None
  }

  /** The value reached from `j` by following the keys of `path`, if every step is an object member. */
  function At(j: Json, path: seq<string>): Option<Json>
  {
    if path == [] then Some(j)
    else if j.Obj? && path[0] in j.fields then At(j.fields[path[0]], path[1..])
    else None
  }

  /**
   The overlay `o` leaves `path` alone: walking `path` through `o`, one reaches
   an object of `o` that does not name the next key, before `path` ends.
   */
  predicate Untouched(o: Json, path: seq<string>)
  {
    path != [] && o.Obj? &&
    (path[0] !in o.fields || Untouched(o.fields[path[0]], path[1..]))
  }
}
