/**
 * JavaScript values as the message builder handles them. Numbers are exact
 * rationals; `NaN` is kept as its own value because it is the one number other
 * than zero that is falsy and that every numeric comparison rejects.
 * Infinity and negative zero are not represented.
 */
module JsValues {

  /** A value that may be absent: a lookup that finds nothing, an argument left undefined. */
  datatype Option<T> = None | Some(value: T)

  datatype JsValue =
    | Undefined
    | Null
    | Bool(b: bool)
    | Num(n: real)
    | NaN
    | Str(s: string)
    | Arr(items: seq<JsValue>)
    | Obj(props: map<string, JsValue>)

  /** The string JavaScript's `typeof` operator yields. */
  function TypeOf(v: JsValue): string
  {
    match v
    case Undefined => "undefined"
    case Null => "object"
    case Bool(_) => "boolean"
    case Num(_) => "number"
    case NaN => "number"
    case Str(_) => "string"
    case Arr(_) => "object"
    case Obj(_) => "object"
  }

  /** JavaScript truthiness, the test behind `if (v)` and `!v`. */
  predicate Truthy(v: JsValue)
  {
    match v
    case Undefined => false
    case Null => false
    case NaN => false
    case Bool(b) => b
    case Num(n) => n != 0.0
    case Str(s) => s != ""
    case Arr(_) => true
    case Obj(_) => true
  }

  /** Property read `o[k]` on a plain object: a missing key reads as `undefined`. */
  function Get(props: map<string, JsValue>, k: string): JsValue
  {
    if k in props then props[k] else Undefined
  }
}
