/** A JSON value as `json.loads` hands it to the storefront (section 4 of
    RFC 8259 for objects). Numbers are integers in this model. An object keeps
    its members in text order, as a Python dict keeps insertion order, and
    names each member once. */
module Json {

  datatype Json =
    | JNull
    | JBool(b: bool)
    | JNum(n: int)
    | JStr(s: string)
    | JArr(elems: seq<Json>)
    | JObj(members: seq<(string, Json)>)
}
