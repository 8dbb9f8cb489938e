/**
 * JSON values as the scripts see them after `json.load`, together with the
 * few pieces of Python semantics the scripts rely on: truthiness, `dict.get`
 * and the kinds of exception that abort a run.
 */
module Json {

  /** A JSON value. Numbers are kept as integers: the scripts only pass them through. */
  datatype Value =
    | JNull
    | JBool(b: bool)
    | JNum(n: int)
    | JStr(s: string)
    | JArr(items: seq<Value>)
    | JObj(fields: map<string, Value>)

  /** The Python exceptions that the modelled code can raise. */
  datatype Failure =
    | KeyError        // `d[k]` with `k` not a key of `d`
    | AttributeError  // a method (`lower`, `get`) called on a value of the wrong type
    | IndexError      // `random.choice` on an empty list
    | TypeError       // indexing a non-object with a string key, or iterating a value that is not iterable

  /** Python truthiness of a loaded JSON value (`if x:`). */
  function Truthy(v: Value): (b: bool)
    ensures !b <==> v in {JNull, JBool(false), JNum(0), JStr(""), JArr([]), JObj(map[])}
  {
    match v
    case JNull => false
    case JBool(b) => b
    case JNum(n) => n != 0
    case JStr(s) => s != ""
    case JArr(items) => items != []
    case JObj(fields) => fields != map[]
  }

  /** `d.get(k)`: the value under `k`, or `None` (written out as JSON null) when `k` is absent. */
  function Get(d: map<string, Value>, k: string): (v: Value)
    ensures k !in d ==> v == JNull
    ensures k in d ==> v == d[k]
  {
    if k in d then d[k] else JNull
  }
}
