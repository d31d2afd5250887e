/** JSON-shaped values: what a Python view puts in a response dictionary and what
    the dashboard sends as a request body. Object members keep their order, as
    Python dicts and JavaScript object literals do. */
module JsonModel {
  datatype Json =
    | JNull
    | JBool(b: bool)
    | JInt(i: int)
    | JStr(s: string)
    | JArray(items: seq<Json>)
    | JObject(members: seq<(string, Json)>)
}
