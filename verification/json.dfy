/** Request payloads as JavaScript sees them after JSON parsing: the handlers
    read fields with property access and test them with JavaScript's
    truthiness and `typeof`. */
module Json {
  import opened Http

  /** A JSON-parsed value (`Undefined` is a missing property). NaN and the
      infinities cannot come out of JSON and are not represented. */
  datatype Value =
    | Undefined
    | Null
    | Bool(b: bool)
    | Num(x: real)
    | Str(s: string)
    | Arr(items: seq<Value>)
    | Obj(fields: map<string, Value>)

  /** Property access `v.k`: undefined for a missing key or a non-object. */
  function Get(v: Value, k: string): (r: Value)
    ensures r != Undefined ==> v.Obj? && k in v.fields && r == v.fields[k]
    ensures v.Obj? && k in v.fields ==> r == v.fields[k]
  {
    if v.Obj? && k in v.fields then v.fields[k] else Undefined
  }

  /** Destructuring `const { k } = v` throws a TypeError exactly for
      `undefined` and `null`. */
  predicate Destructurable(v: Value) {
    !v.Undefined? && !v.Null?
  }

  /** JavaScript truthiness (`!v` is false). */
  predicate Truthy(v: Value) {
    match v
    case Undefined => false
    case Null => false
    case Bool(b) => b
    case Num(x) => x != 0.0
    case Str(s) => s != ""
    case Arr(_) => true
    case Obj(_) => true
  }

  /** A number Prisma accepts for an `Int` column: one with no fractional part. */
  function AsInt(v: Value): (r: Option<int>)
    ensures r.Some? <==> v.Num? && v.x == v.x.Floor as real
    ensures r.Some? ==> r.value as real == v.x
  {
    if v.Num? && v.x == v.x.Floor as real then Some(v.x.Floor) else None
  }
}
