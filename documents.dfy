/** JSON documents as the API returns them and `json.loads` reads them back from storage. */
module Documents {

  /** A JSON value. Numbers with a fraction part are not modelled. */
  datatype Json =
    | JNull
    | JBool(b: bool)
    | JInt(i: int)
    | JStr(s: string)
    | JArray(items: seq<Json>)
    | JObject(fields: map<string, Json>)
}
