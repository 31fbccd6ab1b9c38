/**
 * The untyped values a storage row can hold, as JavaScript sees them after the client
 * library has decoded the response: a missing field is `undefined`.
 */
module Json {
  import opened Wrappers

  datatype Json =
    | Undefined
    | Null
    | Bool(boolean: bool)
    | Number(number: real)
    | Str(text: string)
    | Arr(items: seq<Json>)
    | Obj(members: seq<(string, Json)>)

  /** JavaScript truthiness (NaN is not among the numbers modelled). */
  predicate Truthy(v: Json) {
    match v
    case Undefined => false
    case Null => false
    case Bool(b) => b
    case Number(n) => n != 0.0
    case Str(s) => s != ""
    case Arr(_) => true
    case Obj(_) => true
  }

  /** `typeof v === 'object'`: null, arrays and plain objects. */
  predicate IsObjectType(v: Json) {
    v.Null? || v.Arr? || v.Obj?
  }

  /** `v ?? fallback`: only `undefined` and `null` are replaced. */
  function Coalesce(v: Json, fallback: Json): (r: Json)
    ensures v != Undefined && v != Null ==> r == v
    ensures v == Undefined || v == Null ==> r == fallback
  {
    if v == Undefined || v == Null then fallback else v
  }
}
