/** Decoded JSON values, standing for the `Any` trees `JSONSerialization` returns, and the
    `as?` casts the app applies to them. */
module Json {
  import opened Wrappers

  datatype Json =
    | JNull
    | JBool(b: bool)
    | JNumber(n: int)
    | JString(str: string)
    | JArray(items: seq<Json>)
    | JObject(fields: map<string, Json>)

  /** `as? [String: Any]`. */
  function AsObject(j: Json): (r: Option<map<string, Json>>)
    ensures r.Some? <==> j.JObject?
    ensures r.Some? ==> r.value == j.fields
  {
    match j
    case JObject(fields) => Some(fields)
    case _ => None
  }

  predicate AllStrings(items: seq<Json>) {
    forall k :: 0 <= k < |items| ==> items[k].JString?
  }

  /** `as? [String]`: an array all of whose items are strings. */
  function AsStringList(j: Json): (r: Option<seq<string>>)
    ensures r.Some? <==> j.JArray? && AllStrings(j.items)
    ensures r.Some? ==> |r.value| == |j.items| && forall k :: 0 <= k < |r.value| ==> j.items[k] == JString(r.value[k])
  {
    match j
    case JArray(items) =>
      if AllStrings(items) then Some(seq(|items|, k requires 0 <= k < |items| => items[k].str)) else None
    case _ => None
  }

  /** `as? [String: String]`: an object all of whose values are strings. */
  function AsStringMap(j: Json): (r: Option<map<string, string>>)
    ensures r.Some? <==> j.JObject? && forall k :: k in j.fields ==> j.fields[k].JString?
    ensures r.Some? ==> r.value.Keys == j.fields.Keys && forall k :: k in r.value ==> j.fields[k] == JString(r.value[k])
  {
    match j
    case JObject(fields) =>
      if forall k :: k in fields ==> fields[k].JString? then Some(map k | k in fields :: fields[k].str) else None
    case _ => None
  }
}
