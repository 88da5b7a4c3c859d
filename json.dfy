/** Values shared by the registry's modules: optional values and JSON documents. */
module Options {
  datatype Option<T> = None | Some(value: T)
}

/**
 * A JSON value, as produced by parsing a request body or the stored links file.
 * Numbers are kept as integers: no member of the registry inspects them beyond
 * "this is not a string".
 */
module Json {
  datatype Json =
    | JNull
    | JBool(b: bool)
    | JNum(n: int)
    | JStr(s: string)
    | JArr(items: seq<Json>)
    | JObj(members: map<string, Json>)
}
