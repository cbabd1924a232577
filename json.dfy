/** JSON documents as `encoding/json` decodes them into `interface{}`: objects are
    kept as sequences of (key, value) pairs in whatever order a Go map happens to
    iterate them, so nothing proved about them depends on that order. */
module Json {

  datatype Json =
    | JNull
    | JBool(b: bool)
    | JNumber(n: real)
    | JString(s: string)
    | JArray(items: seq<Json>)
    | JObject(members: seq<(string, Json)>)

  /** The outcome of `json.Unmarshal` on a piece of text. */
  datatype Decoded = Malformed | Parsed(value: Json)
}
