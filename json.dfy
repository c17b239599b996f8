/**
 * The JSON values the integration passes around: the SMB/NFS client
 * lists stored as sensor attributes, and the replies of the on-device
 * backup API. `json.loads` and `json.dumps` are not modelled as text;
 * where the source parses, the model receives the parse result.
 */
module Json {
  import opened Text

  datatype Json =
    | JNull
    | JBool(b: bool)
    | JInt(i: int)
    | JFloat(raw: string)
    | JStr(s: string)
    | JList(items: seq<Json>)
    | JObj(fields: map<string, Json>)

  /** Python's truth value of the decoded object. */
  predicate Truthy(j: Json) {
    match j
    case JNull => false
    case JBool(b) => b
    case JInt(i) => i != 0
    case JFloat(raw) => ParseDecimal(raw).Some? && ParseDecimal(raw).value.mantissa != 0
    case JStr(s) => s != ""
    case JList(items) => items != []
    case JObj(fields) => fields != map[]
  }

  /** `obj.get(key)` on a decoded object; `None` when the key is absent or `j` is no object. */
  function Get(j: Json, key: string): (r: Option<Json>)
    ensures r.Some? <==> j.JObj? && key in j.fields
    ensures r.Some? ==> r.value == j.fields[key]
  {
    if j.JObj? && key in j.fields then Some(j.fields[key]) else None
  }
}
