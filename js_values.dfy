/**
 * The JavaScript values that the backend rules inspect, with JavaScript's notion
 * of truthiness. Numbers are integers here: NaN and fractional values are not
 * modelled.
 */
module JsValues {

  datatype Value =
    | Undefined
    | Null
    | Bool(b: bool)
    | Number(n: int)
    | Str(s: string)
    | Array(items: seq<Value>)
    | Object(props: seq<Prop>)

  /** One own enumerable property, in `Object.entries` order. */
  datatype Prop = Prop(key: string, value: Value)

  /** JavaScript truthiness: `undefined`, `null`, `false`, `0` and `''` are falsy. */
  predicate Truthy(v: Value)
  {
    match v
    case Undefined => false
    case Null => false
    case Bool(b) => b
    case Number(n) => n != 0
    case Str(s) => s != ""
    case Array(_) => true
    case Object(_) => true
  }

  /** `typeof v === 'object'`: true of `null`, arrays and plain objects. */
  predicate TypeofObject(v: Value)
  {
    v.Null? || v.Array? || v.Object?
  }
}
