/** The JavaScript values that flow through the handlers untyped: stored-procedure rows,
    parsed service-account files and OAuth responses. */
module Json {
  import opened Wrappers

  datatype Value =
    | JNull
    | JBool(b: bool)
    | JNum(n: int)
    | JStr(s: string)
    | JArr(items: seq<Value>)
    | JObj(fields: map<string, Value>)

  /** Why a property read threw. The engine's own message names the property and says
      whether the value was `null` or `undefined`; this fixed text stands for all of them. */
  const ReadOfNothing := "TypeError: cannot read properties of null or undefined"

  /** The field `key` of a value that can be read from: only objects carry the fields the
      handlers read. */
  function Field(v: Value, key: string): (r: Option<Value>)
    ensures r.Some? <==> v.JObj? && key in v.fields
    ensures r.Some? ==> r.value == v.fields[key]
  {
    if v.JObj? && key in v.fields then Some(v.fields[key]) else None
  }
}
