/** JSON values, as `json.loads` and the definition documents hold them. */
module Json {

  datatype Json =
    | Null
    | Bool(b: bool)
    | Num(n: real)
    | Infinite(negative: bool)  // Infinity, or 1e999
    | Str(s: string)
    | Arr(items: seq<Json>)
    | Obj(fields: map<string, Json>)

  /** Python's truth value of one. */
  predicate Truthy(j: Json) {
    match j
    case Null => false
    case Bool(b) => b
    case Num(n) => n != 0.0
    case Infinite(_) => true
    case Str(s) => s != ""
    case Arr(items) => items != []
    case Obj(fields) => fields != map[]
  }

  /** No set holds a list or a dict: to look one up raises TypeError. */
  predicate Unhashable(j: Json) {
    j.Arr? || j.Obj?
  }

  predicate Finite(j: Json) {
    match j
    case Infinite(_) => false
    case Arr(items) => forall i | 0 <= i < |items| :: Finite(items[i])
    case Obj(fields) => forall f | f in fields :: Finite(fields[f])
    case _ => true
  }
}
