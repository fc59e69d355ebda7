/**
 * JSON values as the exporter sees them after `response.json()`, with the
 * two Python tests the poll loop applies to them: truthiness (`if x:`) and
 * the identity test `x is False`.
 */
module Json {
  import opened Wrappers

  /** A decoded JSON document. Numbers are kept as reals (Python decodes them
      to `int` or `float`; only whether they are zero matters here). An object
      keeps its members in document order, duplicates included. */
  datatype JsonValue =
    | JNull
    | JBool(b: bool)
    | JNumber(n: real)
    | JString(s: string)
    | JArray(items: seq<JsonValue>)
    | JObject(members: seq<(string, JsonValue)>)

  /** Python truthiness of the decoded value: `None`, `False`, zero, and empty
      strings, lists and dicts are false; everything else is true. */
  predicate Truthy(v: JsonValue) {
    match v
    case JNull => false
    case JBool(b) => b
    case JNumber(n) => n != 0.0
    case JString(s) => |s| > 0
    case JArray(items) => |items| > 0
    case JObject(members) => |members| > 0
  }

  /** `v is False`: only the boolean `false` is the `False` object; `0`, `""`
      and `{}` are equal to it in truthiness but are not it. */
  predicate IsFalse(v: JsonValue) {
    v == JBool(false)
  }

  /** `key in d` for a decoded dict `d`. */
  predicate HasKey(members: seq<(string, JsonValue)>, key: string) {
    exists i :: 0 <= i < |members| && members[i].0 == key
  }

  /** `d.get(key)` for a decoded dict: Python's decoder keeps the LAST
      occurrence of a repeated key. */
  function Lookup(members: seq<(string, JsonValue)>, key: string): (r: Option<JsonValue>)
    ensures r.Some? <==> HasKey(members, key)
  {
    if members == [] then None
    else if members[|members| - 1].0 == key then Some(members[|members| - 1].1)
    else Lookup(members[..|members| - 1], key)
  }

  /** The value `Lookup` finds is the one paired with the last occurrence
      of the key. */
  lemma {:induction false} LookupIsLast(members: seq<(string, JsonValue)>, key: string, i: nat)
    requires i < |members| && members[i].0 == key
    requires forall j :: i < j < |members| ==> members[j].0 != key
    ensures Lookup(members, key) == Some(members[i].1)
  {
    if i < |members| - 1 {
      LookupIsLast(members[..|members| - 1], key, i);
    }
  }
}
