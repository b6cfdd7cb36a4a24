/**
 * A parsed JSON value, as `JSON.parse` hands it to the schema generators.
 * Object member order is not modelled: an object is a map from keys to values.
 */
module Json {

  datatype Json =
    | JNull
    | JBool(b: bool)
    | JNumber(n: real)
    | JString(s: string)
    | JArray(elems: seq<Json>)
    | JObject(fields: map<string, Json>)

  /** The value holds further values: the builders recurse into it. */
  predicate Nested(v: Json) {
    v.JArray? || v.JObject?
  }
}
