/** The part of `serde_json::Value` the relay touches. Numbers are reals:
    the model does not track IEEE-754 rounding or the integer/float split
    of `serde_json::Number`. */
module Json {
  import opened Base

  datatype Value =
    | JNull
    | JBool(b: bool)
    | JNum(n: real)
    | JStr(s: string)
    | JArr(items: seq<Value>)
    | JObj(fields: map<string, Value>)

  /** `Value::get(key)`: a field of an object; nothing for any other value. */
  function Get(v: Value, key: string): Option<Value>
  {
    if v.JObj? && key in v.fields then Some(v.fields[key]) else None
  }

  /** `Value::as_str`. */
  function AsStr(v: Value): Option<string>
  {
    if v.JStr? then Some(v.s) else None
  }

  /** `Value::as_object`. */
  function AsObject(v: Value): Option<map<string, Value>>
  {
    if v.JObj? then Some(v.fields) else None
  }

  /** `Value::as_f64`: every JSON number converts, nothing else does. */
  function AsF64(v: Value): Option<real>
  {
    if v.JNum? then Some(v.n) else None
  }

  /** Indexing an object with `obj["key"]`: a missing key reads as `null`. */
  function Field(obj: map<string, Value>, key: string): Value
  {
    if key in obj then obj[key] else JNull
  }
}
