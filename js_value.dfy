/** JSON-like JavaScript values, as the Redux store and the query results hold them. */
module JsValue {
  /** A JavaScript value; objects are maps from property names to values. */
  datatype Value =
    | Undefined
    | Null
    | Bool(b: bool)
    | Number(n: real)
    | Str(s: string)
    | Arr(items: seq<Value>)
    | Obj(props: map<string, Value>)

  /** The own properties `{...v}` copies: an object's properties, nothing for the rest. */
  function OwnProps(v: Value): map<string, Value>
  {
    if v.Obj? then v.props else map[]
  }

  /** `obj[key]`: a missing property reads as `undefined`. */
  function Get(obj: map<string, Value>, key: string): Value
  {
    if key in obj then obj[key] else Undefined
  }

  /** JavaScript truthiness. */
  predicate Truthy(v: Value)
  {
    match v
    case Undefined => false
    case Null => false
    case Bool(b) => b
    case Number(n) => n != 0.0
    case Str(s) => |s| > 0
    case Arr(_) => true
    case Obj(_) => true
  }

  /** `{...a, ...b}`: the properties of both, those of `b` winning. */
  function Overlay(a: map<string, Value>, b: map<string, Value>): (m: map<string, Value>)
    ensures m.Keys == a.Keys + b.Keys
    ensures forall k :: k in b ==> m[k] == b[k]
    ensures forall k :: k in a && k !in b ==> m[k] == a[k]
  {
    a + b
  }
}
