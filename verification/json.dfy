/** The JSON values a request body carries, with JavaScript's truthiness and
    string conversion. A body is an object; an absent key is `undefined`. */
module Json {
  import opened Wrappers
  import opened Text

  datatype Value = Null | Bool(b: bool) | Number(n: int) | Str(s: string)

  type Object = map<string, Value>

  /** `obj[key]`, with `None` for `undefined`. */
  function Get(obj: Object, key: string): Option<Value> {
    if key in obj then Some(obj[key]) else None
  }

  /** JavaScript truthiness: null, false, 0 and "" are falsy. */
  predicate Truthy(v: Value) {
    match v
    case Null => false
    case Bool(b) => b
    case Number(n) => n != 0
    case Str(s) => s != ""
  }

  /** Truthiness of a possibly absent property (`undefined` is falsy). */
  predicate TruthyField(v: Option<Value>) {
    v.Some? && Truthy(v.value)
  }

  /** `typeof`-style name used in zod's "Expected …, received …" messages. */
  function TypeName(v: Value): string {
    match v
    case Null => "null"
    case Bool(_) => "boolean"
    case Number(_) => "number"
    case Str(_) => "string"
  }

  /** `String(v)`, which is also what the PostgreSQL driver sends for a scalar parameter. */
  function ToJsString(v: Value): string {
    match v
    case Null => "null"
    case Bool(b) => if b then "true" else "false"
    case Number(n) => NumberToString(n)
    case Str(s) => s
  }
}
