/** JSON values as the crate handles them (`serde_json::Value`). A number is its text and
    whether it has no fractional part; the order of an object's members is not kept. */
module Json {
  import opened Text

  datatype Number = Number(text: string, integral: bool)

  datatype Value =
    | Null
    | Bool(b: bool)
    | Num(n: Number)
    | Str(s: string)
    | Arr(items: seq<Value>)
    | Obj(fields: map<string, Value>)

  /** `Value::get` with a string key. */
  function Get(v: Value, key: string): Option<Value> {
    if v.Obj? && key in v.fields then Some(v.fields[key]) else None
  }
}
