/** The data a YAML or JSON document holds. */
module Values {
  datatype Value =
    | Null
    | Bool(b: bool)
    | Num(n: real)
    | Str(s: string)
    | List(items: seq<Value>)
    | Dict(entries: map<string, Value>)
  {
    /** Python's truth value. */
    predicate Truthy() {
      match this
      case Null => false
      case Bool(b) => b
      case Num(n) => n != 0.0
      case Str(s) => s != ""
      case List(items) => items != []
      case Dict(entries) => entries != map[]
    }
  }

  type Dictionary = map<string, Value>

  /** `d.get(key)`. */
  function Get(d: Dictionary, key: string): Value {
    if key in d then d[key] else Null
  }

  /** The values that count as nothing. */
  ghost predicate Falsy(v: Value) {
    v == Null || v == Bool(false) || v == Num(0.0) || v == Str("") || v == List([]) || v == Dict(map[])
  }

  lemma TruthyMeaning(v: Value)
    ensures v.Truthy() <==> !Falsy(v)
  {}
}
