/** Which places of a schema are retyped, by position. */
module SchemaPositions {
  import opened Options
  import opened PyValues
  import opened ValuePositions
  import opened SchemaNormalizer

  /** What a value is to the pass: a schema, with the name it has as a property, or a mapping of schemas, which are
      properties if `named`. */
  datatype Role = Schema(name: Option<string>) | Children(named: bool)

  /** The role of what stands one step below. */
  function RoleBelow(v: Value, role: Role, down: Down): Role {
    match (v, down)
    case (Dict(fields), FieldAt(i)) =>
      if i >= |fields| then Schema(None)
      else if role.Children? then Schema(if role.named then Some(fields[i].key) else None)
      else if fields[i].value.Dict? && fields[i].key == "properties" then Children(true)
      else if fields[i].value.Dict? && fields[i].key in {"definitions", "$defs", "patternProperties"} then Children(false)
      else Schema(None)
    case _ => Schema(None)
  }

  function RoleAt(v: Value, role: Role, position: seq<Down>): Role
    decreases |position|
  {
    if position == [] || At(v, [position[0]]).None? then role
    else RoleAt(At(v, [position[0]]).value, RoleBelow(v, role, position[0]), position[1..])
  }

  /** The pass on a value in its role. */
  function PassOn(v: Value, role: Role): Value {
    match role
    case Schema(name) => Normalize(v, name).0
    case Children(named) => if v.Dict? then Dict(NormalizeChildren(v.fields, named).0) else Normalize(v, None).0
  }

  lemma AtOne(v: Value, down: Down)
    ensures At(v, [down]) == match (v, down)
                             case (Dict(fields), FieldAt(i)) => if i < |fields| then Some(fields[i].value) else None
                             case (List(items), ItemAt(i)) => if i < |items| then Some(items[i]) else None
                             case _ => None
  {
    assert [down][1..] == [];
  }

  lemma AtCons(v: Value, position: seq<Down>)
    requires position != []
    ensures At(v, position) == match At(v, [position[0]]) case None => None case Some(w) => At(w, position[1..])
  {
    AtOne(v, position[0]);
  }

  lemma {:induction false} FieldsBelow(fields: seq<Field>, here: bool, i: nat)
    requires i < |fields| && (here ==> Lookup(fields, "type") == Some(Str("number")))
    ensures var after := NormalizeFields(fields, here).0;
            && |after| == |fields| && after[i].key == fields[i].key
            && (fields[i] != Field("type", Str("number")) ==>
                  after[i].value == NormalizeValue(fields[i].key, fields[i].value).0)
  {
    var still := here && fields[0].key != "type";
    if i > 0 {
      FieldsBelow(fields[1..], still, i - 1);
    }
    LengthKept(fields, here);
  }

  lemma {:induction false} LengthKept(fields: seq<Field>, here: bool)
    ensures |NormalizeFields(fields, here).0| == |fields|
  {
    if fields != [] {
      LengthKept(fields[1..], here && fields[0].key != "type");
    }
  }

  lemma {:induction false} ChildrenBelow(children: seq<Field>, named: bool, i: nat)
    requires i < |children|
    ensures var after := NormalizeChildren(children, named).0;
            && |after| == |children| && after[i].key == children[i].key
            && after[i].value == Normalize(children[i].value, if named then Some(children[i].key) else None).0
  {
    ChildrenLength(children, named);
    if i > 0 {
      ChildrenBelow(children[1..], named, i - 1);
    }
  }

  lemma {:induction false} ChildrenLength(children: seq<Field>, named: bool)
    ensures |NormalizeChildren(children, named).0| == |children|
  {
    if children != [] {
      ChildrenLength(children[1..], named);
    }
  }

  lemma {:induction false} ItemsBelow(items: seq<Value>, i: nat)
    requires i < |items|
    ensures |NormalizeItems(items).0| == |items| && NormalizeItems(items).0[i] == Normalize(items[i], None).0
  {
    ItemsLength(items);
    if i > 0 {
      ItemsBelow(items[1..], i - 1);
    }
  }

  lemma {:induction false} ItemsLength(items: seq<Value>)
    ensures |NormalizeItems(items).0| == |items|
  {
    if items != [] {
      ItemsLength(items[1..]);
    }
  }

  /** A step into the "type" of a schema of numbers. */
  predicate IntoType(v: Value, role: Role, down: Down) {
    && role.Schema? && v.Dict? && down.FieldAt?
    && down.i < |v.fields| && v.fields[down.i] == Field("type", Str("number"))
  }

  /** Below, the pass goes on in the role of what is there. */
  lemma PassBelow(v: Value, role: Role, down: Down)
    requires !IntoType(v, role, down)
    ensures At(PassOn(v, role), [down])
            == match At(v, [down]) case None => None case Some(w) => Some(PassOn(w, RoleBelow(v, role, down)))
  {
    AtOne(v, down);
    AtOne(PassOn(v, role), down);
    match v
    case Dict(fields) =>
      match role {
        case Schema(name) =>
          LengthKept(fields, ShouldUseIntegerType(name, fields));
          if down.FieldAt? && down.i < |fields| {
            FieldsBelow(fields, ShouldUseIntegerType(name, fields), down.i);
          }
        case Children(named) =>
          ChildrenLength(fields, named);
          if down.FieldAt? && down.i < |fields| {
            ChildrenBelow(fields, named, down.i);
          }
      }
    case List(items) =>
      ItemsLength(items);
      if down.ItemAt? && down.i < |items| {
        ItemsBelow(items, down.i);
      }
    case _ =>
  }

  /** The position does not end at the "type" of a schema of numbers. */
  predicate AwayFromTypes(v: Value, role: Role, position: seq<Down>)
    decreases |position|
  {
    position == [] || At(v, [position[0]]).None? ||
    (&& !IntoType(v, role, position[0])
     && AwayFromTypes(At(v, [position[0]]).value, RoleBelow(v, role, position[0]), position[1..]))
  }

  /** Everywhere in the document the pass does what it does to a value in that place's role. */
  lemma {:induction false} PassAt(v: Value, role: Role, position: seq<Down>)
    requires At(v, position).Some? && AwayFromTypes(v, role, position)
    ensures At(PassOn(v, role), position) == Some(PassOn(At(v, position).value, RoleAt(v, role, position)))
    decreases |position|
  {
    if position != [] {
      AtCons(v, position);
      AtCons(PassOn(v, role), position);
      PassBelow(v, role, position[0]);
      PassAt(At(v, [position[0]]).value, RoleBelow(v, role, position[0]), position[1..]);
    }
  }

  // ---------------------------------------------------------------- which schemas are retyped

  /** A property of this name counts something or is an id. */
  ghost predicate NamesInteger(name: Option<string>) {
    && name.Some? && name.value != "timeout"
    && ((exists stem :: name.value == stem + "_id") || name.value in INTEGER_FIELD_NAMES)
  }

  /** The schema admits certain integers only. */
  ghost predicate ListsIntegers(fields: seq<Field>) {
    match Lookup(fields, "enum")
    case Some(List(values)) => values != [] && forall x :: x in values ==> x.Num?
    case _ => false
  }

  lemma {:induction false} AllIntsIff(values: seq<Value>)
    ensures AllInts(values) <==> forall x :: x in values ==> x.Num?
  {
    if values != [] {
      AllIntsIff(values[1..]);
      assert values == [values[0]] + values[1..];
    }
  }

  lemma ShouldUseIff(name: Option<string>, fields: seq<Field>)
    ensures ShouldUseIntegerType(name, fields)
            <==> Lookup(fields, "type") == Some(Str("number")) && (ListsIntegers(fields) || NamesInteger(name))
  {
    match Lookup(fields, "enum") {
      case Some(List(values)) => AllIntsIff(values);
      case _ =>
    }
    if name.Some? {
      EndsWithIdIff(name.value);
    }
  }

  lemma EndsWithIdIff(name: string)
    ensures EndsWithId(name) <==> exists stem :: name == stem + "_id"
  {
    if EndsWithId(name) {
      assert name == name[..|name| - 3] + "_id";
    }
    if stem :| name == stem + "_id" {
      assert name[|name| - 3..] == "_id";
    }
  }

  lemma NumberBecomes(name: Option<string>, fields: seq<Field>)
    ensures var after := NormalizeFields(fields, ShouldUseIntegerType(name, fields)).0;
            Lookup(after, "type") == Some(Str("integer"))
            <==> || Lookup(fields, "type") == Some(Str("integer"))
                 || (Lookup(fields, "type") == Some(Str("number")) && (ListsIntegers(fields) || NamesInteger(name)))
  {
    hide ListsIntegers, NamesInteger, ShouldUseIntegerType;
    var here := ShouldUseIntegerType(name, fields);
    SameLookups(fields, here);
    ShouldUseIff(name, fields);
    match Lookup(fields, "type") {
      case Some(v) => IntegerStays(v);
      case None =>
    }
  }

  lemma IntegerStays(v: Value)
    ensures NormalizeValue("type", v).0 == Str("integer") <==> v == Str("integer")
  {
  }

  lemma {:induction false} ChildrenLookup(children: seq<Field>, named: bool, key: string)
    ensures Lookup(NormalizeChildren(children, named).0, key)
            == match Lookup(children, key)
               case None => None
               case Some(v) => Some(Normalize(v, if named then Some(key) else None).0)
  {
    if children != [] {
      ChildrenLookup(children[1..], named, key);
      assert NormalizeChildren(children, named).0[1..] == NormalizeChildren(children[1..], named).0;
    }
  }

  lemma {:induction false} MappingIsAway(v: Value, role: Role, position: seq<Down>)
    requires At(v, position).Some? && At(v, position).value.Dict?
    ensures AwayFromTypes(v, role, position)
    decreases |position|
  {
    if position != [] {
      AtCons(v, position);
      AtOne(v, position[0]);
      MappingIsAway(At(v, [position[0]]).value, RoleBelow(v, role, position[0]), position[1..]);
    }
  }

  /** Everywhere in the document a mapping stays a mapping, and it is of type "integer" afterwards if and only if it
      was before, or it is a schema of type "number" whose enum lists integers only or that is a property named like a
      count or an id. */
  lemma RetypedIff(v: Value, name: Option<string>, position: seq<Down>)
    requires At(v, position).Some? && At(v, position).value.Dict?
    ensures var (fields, role) := (At(v, position).value.fields, RoleAt(v, Schema(name), position));
            && At(Normalize(v, name).0, position).Some? && At(Normalize(v, name).0, position).value.Dict?
            && var after := At(Normalize(v, name).0, position).value.fields;
               (Lookup(after, "type") == Some(Str("integer"))
                <==> || Lookup(fields, "type") == Some(Str("integer"))
                     || (role.Schema? && Lookup(fields, "type") == Some(Str("number"))
                         && (ListsIntegers(fields) || NamesInteger(role.name))))
  {
    hide NormalizeFields, NormalizeChildren, ListsIntegers, NamesInteger, ShouldUseIntegerType, AwayFromTypes, RoleAt;
    MappingIsAway(v, Schema(name), position);
    PassAt(v, Schema(name), position);
    var fields := At(v, position).value.fields;
    match RoleAt(v, Schema(name), position) {
      case Schema(n) => NumberBecomes(n, fields);
      case Children(named) =>
        ChildrenLookup(fields, named, "type");
        if Lookup(fields, "type").Some? {
          PlainStays(Lookup(fields, "type").value, if named then Some("type") else None);
        }
    }
  }

  lemma PlainStays(v: Value, name: Option<string>)
    ensures Normalize(v, name).0 == Str("integer") <==> v == Str("integer")
  {
  }
}
