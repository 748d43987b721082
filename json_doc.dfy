/** The structured document the phase exporter produces. It stands in for the
    subset of JSON values the exporter writes: objects are keyed maps, as in a
    JSON object, and numbers keep the integer/floating distinction the
    exporter's writer makes. */
module JsonDoc {
  datatype Json =
    | JNull
    | JInt(i: int)
    | JFloat(f: real)
    | JString(s: string)
    | JArray(elems: seq<Json>)
    | JObject(fields: map<string, Json>)
}
