/** JSON values, as the metadata document and the request bodies carry them. */
module Json {

  datatype Json =
    | JNull
    | JBool(b: bool)
    | JNumber(n: real)
    | JString(s: string)
    | JArray(items: seq<Json>)
    | JObject(fields: map<string, Json>)

  /** The empty object `{}`, the record every route uses as a default. */
  const EmptyObject: Json := JObject(map[])
}
