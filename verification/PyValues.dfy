/** Python data as it crosses the assistant-history boundary and as JSON documents hold it. */
module PyValues {
  import opened Options

  datatype Field = Field(key: string, value: Value)

  /** `Proxy` is a read-only mapping; `Num` stands for an int, `Real` for any other number. */
  datatype Value =
    | Null
    | Bool(b: bool)
    | Num(n: int)
    | Real(r: real)
    | Str(s: string)
    | List(items: seq<Value>)
    | Tuple(items: seq<Value>)
    | Dict(fields: seq<Field>)
    | Proxy(fields: seq<Field>)

  /** The value of a key, if there is one. */
  function Lookup(fields: seq<Field>, key: string): Option<Value> {
    if fields == [] then None
    else if fields[0].key == key then Some(fields[0].value)
    else Lookup(fields[1..], key)
  }

  ghost predicate DistinctKeys(fields: seq<Field>) {
    forall i, j :: 0 <= i < j < |fields| ==> fields[i].key != fields[j].key
  }

  /** Whether Python takes the value for true. */
  predicate Truthy(v: Value) {
    match v
    case Null => false
    case Bool(b) => b
    case Num(n) => n != 0
    case Real(r) => r != 0.0
    case Str(s) => s != ""
    case List(items) => items != []
    case Tuple(items) => items != []
    case Dict(fields) => fields != []
    case Proxy(fields) => fields != []
  }

  /** Nothing, false, zero and whatever is empty are taken for false, and nothing else is. */
  lemma FalseValues(v: Value)
    ensures !Truthy(v) <==> v in {Null, Bool(false), Num(0), Real(0.0), Str(""), List([]), Tuple([]), Dict([]), Proxy([])}
  {
  }
}
