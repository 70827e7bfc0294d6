/** Parsed JSON documents as the migration script sees them, and the library that reads and
    prints them (left abstract). */
module Json {
  import opened Wrappers

  datatype Json =
    | JNull
    | JBool(b: bool)
    | JNum(n: real)
    | JStr(s: string)
    | JArr(items: seq<Json>)
    | JObj(fields: seq<(string, Json)>)

  /** `loads`, `dumps` at the two call sites, and the text an f-string gives a value. */
  datatype Codec = Codec(
    parse: string -> Option<Json>,
    dumps: Json -> string,
    dumpTenant: Json -> string,
    show: Json -> string)

  function Lookup(fields: seq<(string, Json)>, key: string): Option<Json> {
    if fields == [] then None
    else if fields[0].0 == key then Some(fields[0].1)
    else Lookup(fields[1..], key)
  }

  function Get(j: Json, key: string): Option<Json> {
    if j.JObj? then Lookup(j.fields, key) else None
  }

  function Replace(fields: seq<(string, Json)>, key: string, value: Json): seq<(string, Json)> {
    if fields == [] then []
    else if fields[0].0 == key then [(key, value)] + fields[1..]
    else [fields[0]] + Replace(fields[1..], key, value)
  }

  lemma {:induction false} LookupReplaced(fields: seq<(string, Json)>, key: string, value: Json)
    requires Lookup(fields, key).Some?
    ensures Lookup(Replace(fields, key, value), key) == Some(value)
  {
    if fields[0].0 != key { LookupReplaced(fields[1..], key, value); }
  }

  predicate Falsy(j: Json) {
    match j
    case JNull => true
    case JBool(b) => !b
    case JNum(n) => n == 0.0
    case JStr(s) => s == ""
    case JArr(items) => items == []
    case JObj(fields) => fields == []
  }

  /** What a `for` loop over the value yields; `None` when it cannot be iterated. */
  function Elements(j: Json): Option<seq<Json>> {
    match j
    case JStr(s) => Some(seq(|s|, i requires 0 <= i < |s| => JStr([s[i]])))
    case JArr(items) => Some(items)
    case JObj(fields) => Some(seq(|fields|, i requires 0 <= i < |fields| => JStr(fields[i].0)))
    case _ => None
  }
}
