/**
 * A JSON / JavaScript value. `Undefined` only arises on the JavaScript side
 * (a field missing from a request body); serde's values never hold it.
 * Numbers are integers: fractional values are not part of this model.
 */
module JsonValue {

  datatype Json =
    | Undefined
    | Null
    | Bool(b: bool)
    | Num(n: int)
    | Str(s: string)
    | Array(items: seq<Json>)
    | Object(fields: seq<(string, Json)>)

  /** JavaScript truthiness: `undefined`, `null`, `false`, `0` and `""` are falsy, everything else is truthy. */
  predicate Truthy(v: Json) {
    match v
    case Undefined => false
    case Null => false
    case Bool(b) => b
    case Num(n) => n != 0
    case Str(s) => s != ""
    case Array(_) => true
    case Object(_) => true
  }
}
