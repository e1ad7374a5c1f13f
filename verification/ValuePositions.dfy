/** Positions in a JSON document. */
module ValuePositions {
  import opened Options
  import opened PyValues

  /** One step down: into a mapping's field or a list's item, by number. */
  datatype Down = FieldAt(i: nat) | ItemAt(i: nat)

  /** What stands at a position of a value, if anything does. */
  function At(v: Value, position: seq<Down>): Option<Value>
    decreases |position|
  {
    if position == [] then Some(v)
    else
      match (v, position[0])
      case (Dict(fields), FieldAt(i)) => if i < |fields| then At(fields[i].value, position[1..]) else None
      case (List(items), ItemAt(i)) => if i < |items| then At(items[i], position[1..]) else None
      case _ => None
  }
}
