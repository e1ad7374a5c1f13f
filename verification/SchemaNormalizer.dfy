/** Turning "number" into "integer" in a JSON schema wherever the field name or the enum says so. */
module SchemaNormalizer {
  import opened Options
  import opened PyValues

  const FLOAT_FIELD_NAMES := {"timeout"}
  const INTEGER_FIELD_NAMES := {
    "age", "busid", "cache", "count", "duration", "font", "ignore", "interval", "level", "magic", "proxy", "seq",
    "size", "temp_source", "time"
  }

  predicate AllInts(values: seq<Value>) {
    values == [] || (values[0].Num? && AllInts(values[1..]))
  }

  predicate IsIntegerEnum(schema: seq<Field>) {
    match Lookup(schema, "enum")
    case Some(List(values)) => values != [] && AllInts(values)
    case _ => false
  }

  predicate EndsWithId(name: string) {
    |name| >= 3 && name[|name| - 3..] == "_id"
  }

  predicate ShouldUseIntegerType(name: Option<string>, schema: seq<Field>) {
    && Lookup(schema, "type") == Some(Str("number"))
    && (IsIntegerEnum(schema)
        || (name.Some? && name.value !in FLOAT_FIELD_NAMES
            && (EndsWithId(name.value) || name.value in INTEGER_FIELD_NAMES)))
  }

  predicate IsDefinitions(key: string) {
    key == "definitions" || key == "$defs" || key == "patternProperties"
  }

  /** The schema after one pass, and how many nodes the pass changed. */
  function Normalize(v: Value, name: Option<string>): (Value, nat)
    decreases v, 0
  {
    match v
    case Dict(fields) =>
      var here := ShouldUseIntegerType(name, fields);
      var (done, n) := NormalizeFields(fields, here);
      (Dict(done), n)
    case List(items) =>
      var (done, n) := NormalizeItems(items);
      (List(done), n)
    case _ => (v, 0)
  }

  /** The fields of one node; `here` while the node's own "type" is still to be rewritten. */
  function NormalizeFields(fields: seq<Field>, here: bool): (seq<Field>, nat)
    decreases fields, 1
  {
    if fields == [] then ([], 0)
    else
      var (k, v) := (fields[0].key, fields[0].value);
      if here && k == "type" then
        var (rest, n) := NormalizeFields(fields[1..], false);
        ([Field(k, Str("integer"))] + rest, n + 1)
      else
        var (w, m) := NormalizeValue(k, v);
        var (rest, n) := NormalizeFields(fields[1..], here);
        ([Field(k, w)] + rest, m + n)
  }

  function NormalizeValue(key: string, v: Value): (Value, nat)
    decreases v, 1
  {
    if key == "properties" && v.Dict? then
      var (cs, n) := NormalizeChildren(v.fields, true);
      (Dict(cs), n)
    else if IsDefinitions(key) && v.Dict? then
      var (cs, n) := NormalizeChildren(v.fields, false);
      (Dict(cs), n)
    else Normalize(v, None)
  }

  /** The schemas under "properties", which know their names, or under a definitions key, which do not. */
  function NormalizeChildren(children: seq<Field>, named: bool): (seq<Field>, nat)
    decreases children, 1
  {
    if children == [] then ([], 0)
    else
      var (k, v) := (children[0].key, children[0].value);
      var (w, m) := Normalize(v, if named then Some(k) else None);
      var (rest, n) := NormalizeChildren(children[1..], named);
      ([Field(k, w)] + rest, m + n)
  }

  function NormalizeItems(items: seq<Value>): (seq<Value>, nat)
    decreases items, 1
  {
    if items == [] then ([], 0)
    else
      var (w, m) := Normalize(items[0], None);
      var (rest, n) := NormalizeItems(items[1..]);
      ([w] + rest, m + n)
  }

  // ---------------------------------------------------------------- what changed

  /** How many times "type" went from "number" to "integer" between two values, if nothing else differs. */
  function Retyped(v: Value, w: Value): Option<nat>
    decreases v, 0
  {
    match (v, w)
    case (Dict(fs), Dict(gs)) => RetypedFields(fs, gs)
    case (List(xs), List(ys)) => RetypedItems(xs, ys)
    case _ => if v == w then Some(0) else None
  }

  function RetypedFields(fs: seq<Field>, gs: seq<Field>): Option<nat>
    decreases fs, 1
  {
    if fs == [] && gs == [] then Some(0)
    else if fs == [] || gs == [] || fs[0].key != gs[0].key then None
    else
      var first := if fs[0].key == "type" && fs[0].value == Str("number") && gs[0].value == Str("integer") then Some(1)
                   else Retyped(fs[0].value, gs[0].value);
      Both(first, RetypedFields(fs[1..], gs[1..]))
  }

  function RetypedItems(xs: seq<Value>, ys: seq<Value>): Option<nat>
    decreases xs, 1
  {
    if xs == [] && ys == [] then Some(0)
    else if xs == [] || ys == [] then None
    else Both(Retyped(xs[0], ys[0]), RetypedItems(xs[1..], ys[1..]))
  }

  function Both(a: Option<nat>, b: Option<nat>): Option<nat> {
    if a.Some? && b.Some? then Some(a.value + b.value) else None
  }

  /** The pass only turns "number" into "integer" under "type", and counts exactly those places. */
  lemma {:induction false} OnlyRetypes(v: Value, name: Option<string>)
    ensures Retyped(v, Normalize(v, name).0) == Some(Normalize(v, name).1)
    decreases v, 0
  {
    match v
    case Dict(fields) =>
      OnlyRetypesFields(fields, ShouldUseIntegerType(name, fields));
    case List(items) =>
      OnlyRetypesItems(items);
    case _ =>
  }

  lemma {:induction false} OnlyRetypesFields(fields: seq<Field>, here: bool)
    requires here ==> Lookup(fields, "type") == Some(Str("number"))
    ensures RetypedFields(fields, NormalizeFields(fields, here).0) == Some(NormalizeFields(fields, here).1)
    decreases fields, 1
  {
    if fields != [] {
      var (k, v) := (fields[0].key, fields[0].value);
      var result := NormalizeFields(fields, here).0;
      if here && k == "type" {
        OnlyRetypesFields(fields[1..], false);
        assert result[1..] == NormalizeFields(fields[1..], false).0;
      } else {
        OnlyRetypesValue(k, v);
        OnlyRetypesFields(fields[1..], here);
        assert result[1..] == NormalizeFields(fields[1..], here).0;
        assert result[0] == Field(k, NormalizeValue(k, v).0);
      }
    }
  }

  lemma {:induction false} OnlyRetypesValue(key: string, v: Value)
    ensures Retyped(v, NormalizeValue(key, v).0) == Some(NormalizeValue(key, v).1)
    ensures v == Str("number") ==> NormalizeValue(key, v).0 == v
    decreases v, 1
  {
    if key == "properties" && v.Dict? {
      OnlyRetypesChildren(v.fields, true);
    } else if IsDefinitions(key) && v.Dict? {
      OnlyRetypesChildren(v.fields, false);
    } else {
      OnlyRetypes(v, None);
    }
  }

  lemma {:induction false} OnlyRetypesChildren(children: seq<Field>, named: bool)
    ensures RetypedFields(children, NormalizeChildren(children, named).0) == Some(NormalizeChildren(children, named).1)
    decreases children, 1
  {
    if children != [] {
      var (k, v) := (children[0].key, children[0].value);
      OnlyRetypes(v, if named then Some(k) else None);
      OnlyRetypesChildren(children[1..], named);
      var result := NormalizeChildren(children, named).0;
      assert result[1..] == NormalizeChildren(children[1..], named).0;
    }
  }

  lemma {:induction false} OnlyRetypesItems(items: seq<Value>)
    ensures RetypedItems(items, NormalizeItems(items).0) == Some(NormalizeItems(items).1)
    decreases items, 1
  {
    if items != [] {
      OnlyRetypes(items[0], None);
      OnlyRetypesItems(items[1..]);
      assert NormalizeItems(items).0[1..] == NormalizeItems(items[1..]).0;
    }
  }

  /** A count of zero means that the value is the same. */
  lemma {:induction false} NothingRetyped(v: Value, w: Value)
    ensures Retyped(v, w) == Some(0) ==> v == w
    decreases v, 0
  {
    match (v, w)
    case (Dict(fs), Dict(gs)) => NothingRetypedFields(fs, gs);
    case (List(xs), List(ys)) => NothingRetypedItems(xs, ys);
    case _ =>
  }

  lemma {:induction false} NothingRetypedFields(fs: seq<Field>, gs: seq<Field>)
    ensures RetypedFields(fs, gs) == Some(0) ==> fs == gs
    decreases fs, 1
  {
    if fs != [] && gs != [] {
      NothingRetyped(fs[0].value, gs[0].value);
      NothingRetypedFields(fs[1..], gs[1..]);
      assert fs == [fs[0]] + fs[1..] && gs == [gs[0]] + gs[1..];
    }
  }

  lemma {:induction false} NothingRetypedItems(xs: seq<Value>, ys: seq<Value>)
    ensures RetypedItems(xs, ys) == Some(0) ==> xs == ys
    decreases xs, 1
  {
    if xs != [] && ys != [] {
      NothingRetyped(xs[0], ys[0]);
      NothingRetypedItems(xs[1..], ys[1..]);
      assert xs == [xs[0]] + xs[1..] && ys == [ys[0]] + ys[1..];
    }
  }

  // ---------------------------------------------------------------- a second pass

  /** What the test looks at does not change, except the node's own "type" when the pass rewrites it. */
  lemma {:induction false} SameLookups(fields: seq<Field>, here: bool)
    ensures var after := NormalizeFields(fields, here).0;
            && Lookup(after, "type") == (if here && Lookup(fields, "type").Some? then Some(Str("integer"))
                                         else match Lookup(fields, "type")
                                              case None => None
                                              case Some(v) => Some(NormalizeValue("type", v).0))
            && Lookup(after, "enum") == (match Lookup(fields, "enum")
                                         case None => None
                                         case Some(v) => Some(NormalizeValue("enum", v).0))
    decreases fields
  {
    if fields != [] {
      var after := NormalizeFields(fields, here).0;
      if here && fields[0].key == "type" {
        SameLookups(fields[1..], false);
        assert after[1..] == NormalizeFields(fields[1..], false).0;
      } else {
        SameLookups(fields[1..], here);
        assert after[1..] == NormalizeFields(fields[1..], here).0;
      }
    }
  }

  lemma {:induction false} SameInts(items: seq<Value>)
    ensures AllInts(NormalizeItems(items).0) == AllInts(items) && |NormalizeItems(items).0| == |items|
    decreases |items|
  {
    if items != [] {
      SameInts(items[1..]);
      assert NormalizeItems(items).0[1..] == NormalizeItems(items[1..]).0;
    }
  }

  /** A value keeps being the text "number", and a list keeps being a list of integers. */
  lemma SameKind(key: string, v: Value)
    requires key == "type" || key == "enum"
    ensures NormalizeValue(key, v).0 == Str("number") <==> v == Str("number")
    ensures NormalizeValue(key, v).0.List? <==> v.List?
    ensures v.List? ==> AllInts(NormalizeValue(key, v).0.items) == AllInts(v.items)
                        && (NormalizeValue(key, v).0.items == [] <==> v.items == [])
  {
    if v.List? {
      SameInts(v.items);
    }
  }

  lemma SecondTestFails(name: Option<string>, fields: seq<Field>)
    ensures !ShouldUseIntegerType(name, NormalizeFields(fields, ShouldUseIntegerType(name, fields)).0)
  {
    hide NormalizeFields, NormalizeValue, AllInts;
    SameLookups(fields, ShouldUseIntegerType(name, fields));
    match Lookup(fields, "type") {
      case Some(v) => SameKind("type", v);
      case None =>
    }
    match Lookup(fields, "enum") {
      case Some(v) => SameKind("enum", v);
      case None =>
    }
  }

  /** A second pass changes nothing and returns zero. */
  lemma {:induction false} Idempotent(v: Value, name: Option<string>)
    ensures Normalize(Normalize(v, name).0, name) == (Normalize(v, name).0, 0)
    decreases v, 0
  {
    match v
    case Dict(fields) =>
      SecondTestFails(name, fields);
      IdempotentFields(fields, ShouldUseIntegerType(name, fields));
    case List(items) =>
      IdempotentItems(items);
    case _ =>
  }

  lemma {:induction false} IdempotentFields(fields: seq<Field>, here: bool)
    ensures var after := NormalizeFields(fields, here).0; NormalizeFields(after, false) == (after, 0)
    decreases fields, 1
  {
    if fields != [] {
      var (k, v) := (fields[0].key, fields[0].value);
      var after := NormalizeFields(fields, here).0;
      if here && k == "type" {
        IdempotentFields(fields[1..], false);
        assert after[1..] == NormalizeFields(fields[1..], false).0;
        assert NormalizeValue("type", Str("integer")) == (Str("integer"), 0);
      } else {
        IdempotentValue(k, v);
        IdempotentFields(fields[1..], here);
        assert after[1..] == NormalizeFields(fields[1..], here).0;
      }
      assert after == [after[0]] + after[1..];
    }
  }

  lemma {:induction false} IdempotentValue(key: string, v: Value)
    ensures NormalizeValue(key, NormalizeValue(key, v).0) == (NormalizeValue(key, v).0, 0)
    decreases v, 1
  {
    if key == "properties" && v.Dict? {
      IdempotentChildren(v.fields, true);
    } else if IsDefinitions(key) && v.Dict? {
      IdempotentChildren(v.fields, false);
    } else {
      Idempotent(v, None);
    }
  }

  lemma {:induction false} IdempotentChildren(children: seq<Field>, named: bool)
    ensures var after := NormalizeChildren(children, named).0; NormalizeChildren(after, named) == (after, 0)
    decreases children, 1
  {
    if children != [] {
      var (k, v) := (children[0].key, children[0].value);
      Idempotent(v, if named then Some(k) else None);
      IdempotentChildren(children[1..], named);
      var after := NormalizeChildren(children, named).0;
      assert after[1..] == NormalizeChildren(children[1..], named).0;
      assert after == [after[0]] + after[1..];
    }
  }

  lemma {:induction false} IdempotentItems(items: seq<Value>)
    ensures var after := NormalizeItems(items).0; NormalizeItems(after) == (after, 0)
    decreases items, 1
  {
    if items != [] {
      Idempotent(items[0], None);
      IdempotentItems(items[1..]);
      var after := NormalizeItems(items).0;
      assert after[1..] == NormalizeItems(items[1..]).0;
      assert after == [after[0]] + after[1..];
    }
  }

  /** The pass reports zero if and only if it leaves the schema as it was. */
  lemma CountIsZeroIff(v: Value, name: Option<string>)
    ensures Normalize(v, name).1 == 0 <==> Normalize(v, name).0 == v
  {
    OnlyRetypes(v, name);
    NothingRetyped(v, Normalize(v, name).0);
    if Normalize(v, name).0 == v {
      Idempotent(v, name);
    }
  }
}
