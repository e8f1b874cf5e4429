/** ECMAScript values as they reach the application from JSON bodies, stored
    documents and configuration objects. Numbers are integral here. An object
    or array is kept opaque: it is truthy, is not a string, and renders under
    ToString as the text it carries. */
module JsValue {
  import JsNumber

  datatype Value = Undefined | Null | Bool(b: bool) | Num(n: int) | Str(s: string)
    | Composite(rendered: string)

  /** A plain object's own properties; a missing key reads as undefined. */
  type Object = map<string, Value>

  function Get(obj: Object, key: string): Value {
    if key in obj then obj[key] else Undefined
  }

  /** ToBoolean (section 7.1.2 of ECMA-262) on the values modelled. */
  predicate Truthy(v: Value) {
    match v
    case Undefined => false
    case Null => false
    case Bool(b) => b
    case Num(n) => n != 0
    case Str(s) => s != ""
    case Composite(_) => true
  }

  /** The expression `a || b`. */
  function Or(a: Value, b: Value): Value {
    if Truthy(a) then a else b
  }

  /** ToString (section 7.1.17 of ECMA-262), as a template literal applies it. */
  function ToString(v: Value): string {
    match v
    case Undefined => "undefined"
    case Null => "null"
    case Bool(b) => if b then "true" else "false"
    case Num(n) => JsNumber.IntToString(n)
    case Str(s) => s
    case Composite(rendered) => rendered
  }

  /** How Array.prototype.join renders one element: undefined and null as "". */
  function JoinElement(v: Value): string {
    if v == Undefined || v == Null then "" else ToString(v)
  }

  /** `x || d` with a truthy default is always truthy and keeps x when x is truthy. */
  lemma {:induction false} OrWithTruthyDefault(x: Value, d: Value)
    requires Truthy(d)
    ensures Truthy(Or(x, d))
    ensures Or(x, d) == (if Truthy(x) then x else d)
  {
  }
}
