/** Freezing event-owned data before the send boundary and thawing it for storage. */
module Freezing {
  import opened PyValues

  function Freeze(v: Value): Value
    decreases v, 0
  {
    match v
    case Dict(fields) => Proxy(FreezeFields(fields))
    case List(items) => Tuple(FreezeAll(items))
    case Tuple(items) => Tuple(FreezeAll(items))
    case _ => v
  }

  function FreezeAll(items: seq<Value>): seq<Value>
    decreases items, 1
  {
    if items == [] then [] else [Freeze(items[0])] + FreezeAll(items[1..])
  }

  function FreezeFields(fields: seq<Field>): seq<Field>
    decreases fields, 1
  {
    if fields == [] then []
    else
      var f := fields[0];
      [Field(f.key, Freeze(f.value))] + FreezeFields(fields[1..])
  }

  function Thaw(v: Value): Value
    decreases v, 0
  {
    match v
    case Dict(fields) => Dict(ThawFields(fields))
    case Proxy(fields) => Dict(ThawFields(fields))
    case Tuple(items) => List(ThawAll(items))
    case _ => v
  }

  function ThawAll(items: seq<Value>): seq<Value>
    decreases items, 1
  {
    if items == [] then [] else [Thaw(items[0])] + ThawAll(items[1..])
  }

  function ThawFields(fields: seq<Field>): seq<Field>
    decreases fields, 1
  {
    if fields == [] then []
    else
      var f := fields[0];
      [Field(f.key, Thaw(f.value))] + ThawFields(fields[1..])
  }

  /** Only dicts, lists and scalars: what JSON storage can hold. */
  predicate Plain(v: Value)
    decreases v, 0
  {
    match v
    case Dict(fields) => PlainFields(fields)
    case List(items) => PlainAll(items)
    case Tuple(_) => false
    case Proxy(_) => false
    case _ => true
  }

  predicate PlainAll(items: seq<Value>)
    decreases items, 1
  {
    items == [] || (Plain(items[0]) && PlainAll(items[1..]))
  }

  predicate PlainFields(fields: seq<Field>)
    decreases fields, 1
  {
    fields == [] || (Plain(fields[0].value) && PlainFields(fields[1..]))
  }

  /** Nothing in the value can be changed in place. */
  predicate Immutable(v: Value)
    decreases v, 0
  {
    match v
    case Dict(_) => false
    case List(_) => false
    case Tuple(items) => ImmutableAll(items)
    case Proxy(fields) => ImmutableFields(fields)
    case _ => true
  }

  predicate ImmutableAll(items: seq<Value>)
    decreases items, 1
  {
    items == [] || (Immutable(items[0]) && ImmutableAll(items[1..]))
  }

  predicate ImmutableFields(fields: seq<Field>)
    decreases fields, 1
  {
    fields == [] || (Immutable(fields[0].value) && ImmutableFields(fields[1..]))
  }

  /** The snapshot comes back exactly as it went in if and only if it is plain JSON data,
      and a plain snapshot is immutable while frozen. */
  lemma {:induction false} FreezeThawRoundTrip(v: Value)
    ensures Thaw(Freeze(v)) == v <==> Plain(v)
    ensures Plain(v) ==> Immutable(Freeze(v))
    decreases v, 0
  {
    match v
    case Dict(fields) => FreezeThawFields(fields);
    case List(items) => FreezeThawAll(items);
    case Tuple(items) =>
    case Proxy(fields) =>
    case _ =>
  }

  lemma {:induction false} FreezeThawAll(items: seq<Value>)
    ensures ThawAll(FreezeAll(items)) == items <==> PlainAll(items)
    ensures PlainAll(items) ==> ImmutableAll(FreezeAll(items))
    decreases items, 1
  {
    if items != [] {
      FreezeThawRoundTrip(items[0]);
      FreezeThawAll(items[1..]);
      var f := FreezeAll(items);
      assert f[0] == Freeze(items[0]) && f[1..] == FreezeAll(items[1..]);
      var t := ThawAll(f);
      assert t[0] == Thaw(f[0]) && t[1..] == ThawAll(f[1..]);
      assert items == [items[0]] + items[1..];
    }
  }

  lemma {:induction false} FreezeThawFields(fields: seq<Field>)
    ensures ThawFields(FreezeFields(fields)) == fields <==> PlainFields(fields)
    ensures PlainFields(fields) ==> ImmutableFields(FreezeFields(fields))
    decreases fields, 1
  {
    if fields != [] {
      FreezeThawRoundTrip(fields[0].value);
      FreezeThawFields(fields[1..]);
      var f := FreezeFields(fields);
      assert f[0] == Field(fields[0].key, Freeze(fields[0].value)) && f[1..] == FreezeFields(fields[1..]);
      var t := ThawFields(f);
      assert t[0] == Field(f[0].key, Thaw(f[0].value)) && t[1..] == ThawFields(f[1..]);
      assert fields == [fields[0]] + fields[1..];
    }
  }
}
