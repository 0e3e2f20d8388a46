/** The values `json.loads` produces, and Python's truthiness of them. The
    parser itself is not modelled: callers receive it as a function. */
module Json {
  import Wrappers

  /** A JSON value. Numbers are modelled as integers: only whether a number
      is zero matters anywhere in app.py. */
  datatype Value =
    | JNull
    | JBool(b: bool)
    | JNum(n: int)
    | JStr(s: string)
    | JArr(items: seq<Value>)
    | JObj(fields: map<string, Value>)

  /** Python's `bool(v)` for the value `json.loads` maps `v` to: None, False,
      zero and empty strings, lists and dicts are false. */
  predicate Truthy(v: Value)
  {
    match v
    case JNull => false
    case JBool(b) => b
    case JNum(n) => n != 0
    case JStr(s) => s != []
    case JArr(items) => items != []
    case JObj(fields) => |fields| > 0
  }

  /** `d.get(key)` on a dict. */
  function Get(fields: map<string, Value>, key: string): (r: Wrappers.Option<Value>)
    ensures r.Some? <==> key in fields
    ensures r.Some? ==> r.value == fields[key]
  {
    if key in fields then Wrappers.Some(fields[key]) else Wrappers.None
  }
}
