/** Decoded JSON, as the source sees it through `unknown`: the result of `JSON.parse`
    or of `response.json()`. Numbers are kept as integers; no decoded number is ever
    inspected beyond its type. */
module JsValue {
  import opened Wrappers

  datatype Value =
    | Undefined
    | Null
    | Bool(b: bool)
    | Num(n: int)
    | Str(s: string)
    | Arr(items: seq<Value>)
    | Obj(fields: map<string, Value>)

  /** Property access `v.key`. Reading a property of `null` or `undefined` throws a
      `TypeError` (`None`); an object gives the property or `undefined`, and any other
      value has none of the record keys read here, so gives `undefined`. */
  function Field(v: Value, key: string): (r: Option<Value>)
    ensures r.None? <==> v.Null? || v.Undefined?
    ensures r.Some? && v.Obj? && key in v.fields ==> r.value == v.fields[key]
    ensures r.Some? && !(v.Obj? && key in v.fields) ==> r.value == Undefined
  {
    match v
    case Undefined => None
    case Null => None
    case Obj(fields) => Some(if key in fields then fields[key] else Undefined)
    case _ => Some(Undefined)
  }

  /** `Array.isArray(v) ? v : []`. */
  function ItemsOrEmpty(v: Value): (r: seq<Value>)
    ensures v.Arr? ==> r == v.items
    ensures !v.Arr? ==> r == []
  {
    if v.Arr? then v.items else []
  }
}
