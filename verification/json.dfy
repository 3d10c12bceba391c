/** Decoded JSON values, as `json.loads` produces them. Numbers are integers. */
module Json {
  import opened Results

  datatype Json =
    | JNull
    | JBool(b: bool)
    | JNum(n: int)
    | JStr(s: string)
    | JArray(items: seq<Json>)
    | JObject(fields: map<string, Json>)

  /** A raw HTTP body: either it decodes as JSON or `json.loads` raises. */
  datatype Body = Parsed(value: Json) | Unparsable

  /** `v[key]`: present only when `v` is an object holding `key`. */
  function Field(v: Json, key: string): (r: Option<Json>)
    ensures r.Some? <==> v.JObject? && key in v.fields
    ensures r.Some? ==> r.value == v.fields[key]
  {
    if v.JObject? && key in v.fields then Some(v.fields[key]) else None
  }

  /** `v.get(key)` on an object: the value, or `null` when the key is absent. */
  function GetOrNull(v: Json, key: string): Json
    requires v.JObject?
  {
    if key in v.fields then v.fields[key] else JNull
  }
}
