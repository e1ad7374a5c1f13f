/** Pruning an OpenAPI document to the components its public paths reach. */
module OpenApiRefs {
  import opened Options
  import opened PyValues

  const COMPONENT_REF_PREFIX := "#/components/"

  /** A component's section and name. */
  type Key = (string, string)

  function RefOf(fields: seq<Field>): seq<string> {
    match Lookup(fields, "$ref")
    case Some(Str(ref)) => if COMPONENT_REF_PREFIX <= ref then [ref] else []
    case _ => []
  }

  /** The local references in a value, in the order the generator yields them. */
  function IterRefs(v: Value): seq<string>
    decreases v, 1
  {
    match v
    case Dict(fields) => RefOf(fields) + FieldRefs(fields)
    case List(items) => ItemRefs(items)
    case _ => []
  }

  function FieldRefs(fields: seq<Field>): seq<string>
    decreases fields, 0
  {
    if fields == [] then []
    else
      var f := fields[0];
      IterRefs(f.value) + FieldRefs(fields[1..])
  }

  function ItemRefs(items: seq<Value>): seq<string>
    decreases items, 0
  {
    if items == [] then [] else IterRefs(items[0]) + ItemRefs(items[1..])
  }

  function SlashAt(s: string): (i: nat)
    ensures i <= |s|
  {
    if s == "" || s[0] == '/' then 0 else 1 + SlashAt(s[1..])
  }

  /** Section and name of a component reference; the name keeps any further slashes. */
  function ParseRef(ref: string): Option<Key> {
    if !(COMPONENT_REF_PREFIX <= ref) then None
    else
      var rest := ref[|COMPONENT_REF_PREFIX|..];
      var slash := SlashAt(rest);
      if slash == |rest| then None else Some((rest[..slash], rest[slash + 1..]))
  }

  lemma {:induction false} SlashIsFirst(s: string, a: string, b: string)
    requires s == a + "/" + b && '/' !in a
    ensures SlashAt(s) == |a|
  {
    if a != "" {
      assert s[1..] == a[1..] + "/" + b;
      SlashIsFirst(s[1..], a[1..], b);
    }
  }

  lemma ParsedRef(ref: string, section: string, name: string)
    requires ParseRef(ref) == Some((section, name))
    ensures '/' !in section && ref == COMPONENT_REF_PREFIX + section + "/" + name
  {
    var rest := ref[|COMPONENT_REF_PREFIX|..];
    SlashSplits(rest);
    assert rest == section + "/" + name;
    assert ref == COMPONENT_REF_PREFIX + rest;
    assert COMPONENT_REF_PREFIX + (section + "/" + name) == COMPONENT_REF_PREFIX + section + "/" + name;
  }

  lemma RenderedRefParses(section: string, name: string)
    requires '/' !in section
    ensures ParseRef(COMPONENT_REF_PREFIX + section + "/" + name) == Some((section, name))
  {
    var rest := section + "/" + name;
    var ref := COMPONENT_REF_PREFIX + section + "/" + name;
    assert ref == COMPONENT_REF_PREFIX + rest;
    assert ref[|COMPONENT_REF_PREFIX|..] == rest;
    SlashIsFirst(rest, section, name);
    assert rest[..|section|] == section && rest[|section| + 1..] == name;
  }

  /** A reference parses to a component exactly when it is the prefix, a slash-free section, a slash and a name. */
  lemma ParseRefIff(ref: string, section: string, name: string)
    ensures ParseRef(ref) == Some((section, name))
            <==> '/' !in section && ref == COMPONENT_REF_PREFIX + section + "/" + name
  {
    if ParseRef(ref) == Some((section, name)) {
      ParsedRef(ref, section, name);
    }
    if '/' !in section {
      RenderedRefParses(section, name);
    }
  }

  lemma {:induction false} SlashSplits(s: string)
    ensures '/' !in s[..SlashAt(s)]
    ensures SlashAt(s) < |s| ==> s[SlashAt(s)] == '/'
  {
    if s != "" && s[0] != '/' {
      SlashSplits(s[1..]);
      assert s[..SlashAt(s)] == [s[0]] + s[1..][..SlashAt(s[1..])];
    }
  }

  /** The components a list of references points at. */
  function Targets(refs: seq<string>): set<Key> {
    set ref | ref in refs && ParseRef(ref).Some? :: ParseRef(ref).value
  }

  /** A missing section reads as an empty one, and one that is not a mapping cannot be asked for a name. */
  predicate SectionReadable(components: seq<Field>, section: string) {
    var s := Lookup(components, section);
    s == None || s.value.Dict?
  }

  function ComponentOf(components: seq<Field>, k: Key): Option<Value> {
    match Lookup(components, k.0)
    case Some(Dict(values)) => Lookup(values, k.1)
    case _ => None
  }

  /** The components one component refers to. */
  function Successors(components: seq<Field>, k: Key): set<Key> {
    Targets(IterRefs(ComponentOf(components, k).GetOr(Null)))
  }

  // ---------------------------------------------------------------- reachability

  ghost predicate IsChain(components: seq<Field>, roots: set<Key>, chain: seq<Key>) {
    && chain != [] && chain[0] in roots
    && forall i :: 1 <= i < |chain| ==> chain[i] in Successors(components, chain[i - 1])
  }

  /** A component is reachable when references lead to it from the kept paths. */
  ghost predicate Reachable(components: seq<Field>, roots: set<Key>, k: Key) {
    exists chain :: IsChain(components, roots, chain) && chain[|chain| - 1] == k
  }

  lemma ReachableRoot(components: seq<Field>, roots: set<Key>, k: Key)
    requires k in roots
    ensures Reachable(components, roots, k)
  {
    assert IsChain(components, roots, [k]);
    assert [k][|[k]| - 1] == k;
  }

  lemma ReachableNext(components: seq<Field>, roots: set<Key>, j: Key, k: Key)
    requires Reachable(components, roots, j) && k in Successors(components, j)
    ensures Reachable(components, roots, k)
  {
    var chain :| IsChain(components, roots, chain) && chain[|chain| - 1] == j;
    hide Successors;
    var longer := chain + [k];
    forall i | 1 <= i < |longer| ensures longer[i] in Successors(components, longer[i - 1]) {
      assert i < |chain| ==> longer[i] == chain[i];
    }
    assert IsChain(components, roots, longer);
    assert longer[|longer| - 1] == k;
  }

  lemma {:induction false} ClosedContainsReachable(components: seq<Field>, roots: set<Key>, closed: set<Key>,
                                                   chain: seq<Key>)
    requires IsChain(components, roots, chain) && roots <= closed
    requires forall k :: k in closed ==> Successors(components, k) <= closed
    ensures chain[|chain| - 1] in closed
  {
    if |chain| > 1 {
      var shorter := chain[..|chain| - 1];
      ClosedContainsReachable(components, roots, closed, shorter);
    }
  }

  // ---------------------------------------------------------------- the worklist

  /** Everything any reference of the document can point at. */
  function AllTargets(components: seq<Field>, roots: set<Key>): set<Key> {
    roots + Targets(FieldRefs(components))
  }

  lemma {:induction false} LookupRefs(fields: seq<Field>, key: string)
    requires Lookup(fields, key).Some?
    ensures forall ref :: ref in IterRefs(Lookup(fields, key).value) ==> ref in FieldRefs(fields)
  {
    if fields[0].key != key {
      LookupRefs(fields[1..], key);
    }
  }

  lemma SuccessorsAreTargets(components: seq<Field>, k: Key)
    ensures Successors(components, k) <= Targets(FieldRefs(components))
  {
    match Lookup(components, k.0)
    case Some(Dict(values)) =>
      LookupRefs(components, k.0);
      if Lookup(values, k.1).Some? {
        LookupRefs(values, k.1);
      }
    case _ =>
  }

  lemma TargetsAppend(a: seq<string>, b: seq<string>)
    ensures Targets(a + b) == Targets(a) + Targets(b)
  {
  }

  /** The used components (the source keeps them as a set of names per section), or the failure of looking
      up a name in a section that is not a mapping. */
  datatype Outcome = Closed(used: set<Key>) | AttributeError

  /** What holds between rounds: everything noted is reachable, and everything a noted component or the paths
      point at is noted or pending. */
  ghost predicate Progress(components: seq<Field>, roots: set<Key>, used: set<Key>, pending: set<Key>) {
    && (forall k :: k in pending ==> Reachable(components, roots, k))
    && (forall k :: k in used ==> Reachable(components, roots, k) && SectionReadable(components, k.0))
    && roots <= used + pending
    && (forall k :: k in used ==> Successors(components, k) <= used + pending)
    && used + pending <= AllTargets(components, roots)
  }

  lemma ProgressStarts(components: seq<Field>, roots: set<Key>)
    ensures Progress(components, roots, {}, roots)
  {
    forall k | k in roots ensures Reachable(components, roots, k) {
      ReachableRoot(components, roots, k);
    }
  }

  lemma ProgressNotes(components: seq<Field>, roots: set<Key>, used: set<Key>, pending: set<Key>, k: Key)
    requires Progress(components, roots, used, pending + {k}) && SectionReadable(components, k.0)
    ensures Progress(components, roots, used + {k}, pending + Successors(components, k))
    ensures k in AllTargets(components, roots)
  {
    assert k in pending + {k};
    forall j | j in Successors(components, k) ensures Reachable(components, roots, j) {
      ReachableNext(components, roots, k, j);
    }
    SuccessorsAreTargets(components, k);
  }

  lemma ProgressPops(components: seq<Field>, roots: set<Key>, used: set<Key>, pending: set<Key>, k: Key)
    requires Progress(components, roots, used, pending + {k})
    ensures Reachable(components, roots, k)
    ensures k in used ==> Progress(components, roots, used, pending)
  {
    assert k in pending + {k};
  }

  lemma ProgressEnds(components: seq<Field>, roots: set<Key>, used: set<Key>)
    requires Progress(components, roots, used, {})
    ensures forall k :: k in used <==> Reachable(components, roots, k)
    ensures forall k :: k in used ==> SectionReadable(components, k.0)
  {
    forall k | Reachable(components, roots, k) ensures k in used {
      var chain :| IsChain(components, roots, chain) && chain[|chain| - 1] == k;
      ClosedContainsReachable(components, roots, used, chain);
    }
  }

  /** The closure of the kept paths' references: it ends on every document, cyclic references included, with
      exactly the reachable components, unless a reference leads into a section that is not a mapping. */
  method CollectUsedRefs(pathRefs: seq<string>, components: seq<Field>) returns (r: Outcome)
    ensures r.Closed? ==> forall k :: k in r.used <==> Reachable(components, Targets(pathRefs), k)
    ensures r.Closed? <==> forall k :: Reachable(components, Targets(pathRefs), k) ==> SectionReadable(components, k.0)
  {
    hide Progress, Reachable, SectionReadable, AllTargets;
    ghost var roots := Targets(pathRefs);
    var used: set<Key> := {};
    var pending := pathRefs;
    ProgressStarts(components, roots);
    while pending != []
      invariant Progress(components, roots, used, Targets(pending))
      decreases AllTargets(components, roots) - used, |pending|
    {
      var last := pending[|pending| - 1];
      assert pending == pending[..|pending| - 1] + [last];
      pending := pending[..|pending| - 1];
      TargetsPop(pending, last);
      var parsed := ParseRef(last);
      if parsed.None? {
        assert Targets(pending) + {} == Targets(pending);
        continue;
      }
      var (section, name) := parsed.value;
      ProgressPops(components, roots, used, Targets(pending), (section, name));
      if (section, name) in used {
        continue;
      }
      if !SectionReadable(components, section) {
        return AttributeError;
      }
      ProgressNotes(components, roots, used, Targets(pending), (section, name));
      var component := ComponentOf(components, (section, name)).GetOr(Null);
      used := used + {(section, name)};
      TargetsAppend(pending, IterRefs(component));
      pending := pending + IterRefs(component);
    }
    assert Targets(pending) == {};
    ProgressEnds(components, roots, used);
    return Closed(used);
  }

  lemma TargetsPop(pending: seq<string>, last: string)
    ensures Targets(pending + [last]) == Targets(pending) + match ParseRef(last) case None => {} case Some(k) => {k}
  {
    assert forall ref :: ref in [last] <==> ref == last;
    TargetsAppend(pending, [last]);
  }

  // ---------------------------------------------------------------- pruning

  /** The components of one section whose names are used, in their order. */
  function KeptValues(values: seq<Field>, section: string, used: set<Key>): seq<Field> {
    if values == [] then []
    else (if (section, values[0].key) in used then [values[0]] else []) + KeptValues(values[1..], section, used)
  }

  /** Security schemes and sections that are not mappings are kept whole. */
  predicate KeptWhole(section: Field) {
    section.key == "securitySchemes" || !section.value.Dict?
  }

  function PrunedSection(s: Field, used: set<Key>): seq<Field> {
    if KeptWhole(s) then [s]
    else
      var kept := KeptValues(s.value.fields, s.key, used);
      if kept == [] then [] else [Field(s.key, Dict(kept))]
  }

  function Pruned(components: seq<Field>, used: set<Key>): seq<Field> {
    if components == [] then [] else PrunedSection(components[0], used) + Pruned(components[1..], used)
  }

  lemma Associates<T>(a: seq<T>, b: seq<T>, c: seq<T>)
    ensures a + b + c == a + (b + c)
  {
  }

  method PruneComponents(components: seq<Field>, used: set<Key>) returns (pruned: seq<Field>)
    ensures pruned == Pruned(components, used)
  {
    pruned := [];
    var rest := components;
    while rest != []
      invariant pruned + Pruned(rest, used) == Pruned(components, used)
    {
      var s := rest[0];
      ghost var before := pruned;
      if KeptWhole(s) {
        pruned := pruned + [s];
      } else {
        var kept := KeptValues(s.value.fields, s.key, used);
        if kept != [] {
          pruned := pruned + [Field(s.key, Dict(kept))];
        }
      }
      assert pruned == before + PrunedSection(s, used);
      Associates(before, PrunedSection(s, used), Pruned(rest[1..], used));
      rest := rest[1..];
    }
  }

  lemma {:induction false} KeptLookup(values: seq<Field>, section: string, used: set<Key>, name: string)
    ensures Lookup(KeptValues(values, section, used), name)
            == if (section, name) in used then Lookup(values, name) else None
  {
    if values != [] {
      KeptLookup(values[1..], section, used, name);
      var rest := KeptValues(values[1..], section, used);
      if (section, values[0].key) in used {
        assert KeptValues(values, section, used)[1..] == rest;
      } else {
        assert KeptValues(values, section, used) == rest;
      }
    }
  }

  lemma {:induction false} NotLookedUp(fields: seq<Field>, key: string)
    requires forall f :: f in fields ==> f.key != key
    ensures Lookup(fields, key) == None
  {
    if fields != [] {
      NotLookedUp(fields[1..], key);
    }
  }

  lemma {:induction false} PrunedKeys(components: seq<Field>, used: set<Key>)
    ensures forall f :: f in Pruned(components, used) ==> exists s :: s in components && s.key == f.key
  {
    if components != [] {
      PrunedKeys(components[1..], used);
      forall f | f in Pruned(components, used) ensures exists s :: s in components && s.key == f.key {
        if f in Pruned(components[1..], used) {
          var s :| s in components[1..] && s.key == f.key;
          assert s in components;
        } else {
          assert components[0] in components;
        }
      }
    }
  }

  lemma SectionElsewhere(s: Field, rest: seq<Field>, used: set<Key>, k: Key)
    requires s.key != k.0
    ensures ComponentOf(PrunedSection(s, used) + rest, k) == ComponentOf(rest, k)
  {
    var p := PrunedSection(s, used);
    if p == [] {
      assert p + rest == rest;
    } else {
      assert (p + rest)[1..] == rest;
    }
  }

  lemma SectionHere(s: Field, rest: seq<Field>, used: set<Key>, k: Key)
    requires s.key == k.0 && Lookup(rest, k.0) == None
    ensures ComponentOf(PrunedSection(s, used) + rest, k)
            == if KeptWhole(s) || k in used then ComponentOf([s], k) else None
  {
    var p := PrunedSection(s, used);
    if !KeptWhole(s) {
      KeptLookup(s.value.fields, s.key, used, k.1);
    }
    if p == [] {
      assert p + rest == rest;
    } else {
      assert (p + rest)[0] == p[0];
    }
  }

  /** Each component of the input is in the output exactly if its section is kept whole or it is used, and
      unchanged. */
  lemma {:induction false} PrunedComponent(components: seq<Field>, used: set<Key>, k: Key)
    requires DistinctKeys(components)
    ensures var s := Lookup(components, k.0);
            ComponentOf(Pruned(components, used), k)
            == if s.Some? && (KeptWhole(Field(k.0, s.value)) || k in used) then ComponentOf(components, k) else None
  {
    if components != [] {
      var c := components[0];
      var rest := Pruned(components[1..], used);
      if c.key == k.0 {
        PrunedKeys(components[1..], used);
        forall f | f in components[1..] ensures f.key != c.key {
          var i :| 0 <= i < |components[1..]| && components[1..][i] == f;
          assert components[i + 1] == f && components[0].key != components[i + 1].key;
        }
        NotLookedUp(rest, k.0);
        SectionHere(c, rest, used, k);
      } else {
        PrunedComponent(components[1..], used, k);
        SectionElsewhere(c, rest, used, k);
      }
    }
  }

  /** Wherever a reference stands, in a security scheme for instance: it resolves in the output as in the input if
      and only if it did not resolve there either, its target's section is kept whole, or its target can be reached
      from the kept paths. */
  lemma ResolvesAlikeIff(pathRefs: seq<string>, components: seq<Field>, used: set<Key>, k: Key)
    requires DistinctKeys(components)
    requires forall j :: j in used <==> Reachable(components, Targets(pathRefs), j)
    ensures ComponentOf(Pruned(components, used), k) == ComponentOf(components, k)
            <==> || ComponentOf(components, k).None?
                 || KeptWhole(Field(k.0, Lookup(components, k.0).value))
                 || Reachable(components, Targets(pathRefs), k)
  {
    PrunedComponent(components, used, k);
  }

  lemma PrunedCons(s: Field, rest: seq<Field>, used: set<Key>)
    ensures Pruned([s] + rest, used) == PrunedSection(s, used) + Pruned(rest, used)
  {
    assert ([s] + rest)[1..] == rest;
  }

  /** The guarantee stops at security schemes: they are kept whole but their references are not followed. */
  lemma SecuritySchemeReferencesMayDangle()
    ensures var scheme := Dict([Field("$ref", Str("#/components/schemas/A"))]);
            var components := [Field("securitySchemes", Dict([Field("S", scheme)])),
                               Field("schemas", Dict([Field("A", Null)]))];
            && ComponentOf(Pruned(components, {}), ("securitySchemes", "S")) == Some(scheme)
            && ComponentOf(components, ("schemas", "A")) == Some(Null)
            && ComponentOf(Pruned(components, {}), ("schemas", "A")) == None
            && (forall k :: !Reachable(components, {}, k))
  {
    var scheme := Dict([Field("$ref", Str("#/components/schemas/A"))]);
    var s0 := Field("securitySchemes", Dict([Field("S", scheme)]));
    var s1 := Field("schemas", Dict([Field("A", Null)]));
    assert |s0.key| != |s1.key|;
    assert [s0, s1] == [s0] + ([s1] + []);
    PrunedCons(s1, [], {});
    PrunedCons(s0, [s1] + [], {});
    assert PrunedSection(s1, {}) == [] && PrunedSection(s0, {}) == [s0];
    assert Pruned([s0, s1], {}) == [s0];
    assert [s0][1..] == [] && Lookup([s0], "schemas") == None;
  }
}
