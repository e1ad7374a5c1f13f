/** Where references stand in a document, by position, and what that says about the pruned one. */
module OpenApiOccurrences {
  import opened Options
  import opened PyValues
  import opened ValuePositions
  import opened OpenApiRefs
  import opened Subsequences

  /** A mapping whose "$ref" is this text. */
  predicate RefersTo(v: Value, ref: string) {
    v.Dict? && Lookup(v.fields, "$ref") == Some(Str(ref))
  }

  /** Somewhere in the value a mapping refers to a component this way. */
  ghost predicate Occurs(v: Value, ref: string) {
    && COMPONENT_REF_PREFIX <= ref
    && exists position :: At(v, position).Some? && RefersTo(At(v, position).value, ref)
  }

  lemma OccursBelow(v: Value, w: Value, down: Down, ref: string)
    requires Occurs(w, ref) && At(v, [down]) == Some(w)
    ensures Occurs(v, ref)
  {
    var position :| At(w, position).Some? && RefersTo(At(w, position).value, ref);
    var longer := [down] + position;
    assert longer[1..] == position;
    assert [down][1..] == [];
    assert At(v, longer) == At(w, position);
  }

  lemma {:induction false} YieldedOccurs(v: Value, ref: string)
    requires ref in IterRefs(v)
    ensures Occurs(v, ref)
    decreases v, 1
  {
    match v
    case Dict(fields) =>
      if ref in RefOf(fields) {
        assert At(v, []) == Some(v) && RefersTo(v, ref);
      } else {
        var i := FieldYields(fields, ref);
        YieldedOccurs(fields[i].value, ref);
        assert [FieldAt(i)][1..] == [];
        OccursBelow(v, fields[i].value, FieldAt(i), ref);
      }
    case List(items) =>
      var i := ItemYields(items, ref);
      YieldedOccurs(items[i], ref);
      assert [ItemAt(i)][1..] == [];
      OccursBelow(v, items[i], ItemAt(i), ref);
    case _ =>
  }

  lemma {:induction false} FieldYields(fields: seq<Field>, ref: string) returns (i: nat)
    requires ref in FieldRefs(fields)
    ensures i < |fields| && ref in IterRefs(fields[i].value)
  {
    if ref in IterRefs(fields[0].value) {
      i := 0;
    } else {
      i := FieldYields(fields[1..], ref);
      i := i + 1;
    }
  }

  lemma {:induction false} ItemYields(items: seq<Value>, ref: string) returns (i: nat)
    requires ref in ItemRefs(items)
    ensures i < |items| && ref in IterRefs(items[i])
  {
    if ref in IterRefs(items[0]) {
      i := 0;
    } else {
      i := ItemYields(items[1..], ref);
      i := i + 1;
    }
  }

  lemma {:induction false} FieldRefsOf(fields: seq<Field>, i: nat)
    requires i < |fields|
    ensures forall ref | ref in IterRefs(fields[i].value) :: ref in FieldRefs(fields)
  {
    if i > 0 {
      FieldRefsOf(fields[1..], i - 1);
    }
  }

  lemma {:induction false} ItemRefsOf(items: seq<Value>, i: nat)
    requires i < |items|
    ensures forall ref | ref in IterRefs(items[i]) :: ref in ItemRefs(items)
  {
    if i > 0 {
      ItemRefsOf(items[1..], i - 1);
    }
  }

  lemma {:induction false} OccurrenceIsYielded(v: Value, ref: string, position: seq<Down>)
    requires COMPONENT_REF_PREFIX <= ref && At(v, position).Some? && RefersTo(At(v, position).value, ref)
    ensures ref in IterRefs(v)
    decreases |position|
  {
    if position != [] {
      match (v, position[0])
      case (Dict(fields), FieldAt(i)) =>
        OccurrenceIsYielded(fields[i].value, ref, position[1..]);
        FieldRefsOf(fields, i);
      case (List(items), ItemAt(i)) =>
        OccurrenceIsYielded(items[i], ref, position[1..]);
        ItemRefsOf(items, i);
    }
  }

  /** The generator yields a reference if and only if it occurs somewhere in the value. */
  lemma YieldedIffOccurs(v: Value, ref: string)
    ensures ref in IterRefs(v) <==> Occurs(v, ref)
  {
    if ref in IterRefs(v) {
      YieldedOccurs(v, ref);
    }
    if Occurs(v, ref) {
      var position :| At(v, position).Some? && RefersTo(At(v, position).value, ref);
      OccurrenceIsYielded(v, ref, position);
    }
  }

  // ---------------------------------------------------------------- what the paths need

  /** Somewhere in the value a reference to this component occurs. */
  ghost predicate Mentions(v: Value, k: Key) {
    '/' !in k.0 && Occurs(v, COMPONENT_REF_PREFIX + k.0 + "/" + k.1)
  }

  /** The one component is there and mentions the other. */
  ghost predicate LeadsTo(components: seq<Field>, j: Key, k: Key) {
    ComponentOf(components, j).Some? && Mentions(ComponentOf(components, j).value, k)
  }

  /** A chain of components: the paths mention the first, and each one mentions the next. */
  ghost predicate MentionChain(paths: Value, components: seq<Field>, chain: seq<Key>) {
    && chain != [] && Mentions(paths, chain[0])
    && forall i, j :: 0 <= i && j == i + 1 < |chain| ==> LeadsTo(components, chain[i], chain[j])
  }

  /** The paths need a component, directly or through others. */
  ghost predicate Needed(paths: Value, components: seq<Field>, k: Key) {
    exists chain :: MentionChain(paths, components, chain) && chain[|chain| - 1] == k
  }

  lemma MentionedIsTarget(v: Value, k: Key)
    ensures k in Targets(IterRefs(v)) <==> Mentions(v, k)
  {
    var ref := COMPONENT_REF_PREFIX + k.0 + "/" + k.1;
    YieldedIffOccurs(v, ref);
    ParseRefIff(ref, k.0, k.1);
    if k in Targets(IterRefs(v)) {
      var r :| r in IterRefs(v) && ParseRef(r) == Some(k);
      ParseRefIff(r, k.0, k.1);
    }
  }

  lemma SuccessorsAreMentioned(components: seq<Field>, j: Key, k: Key)
    ensures k in Successors(components, j) <==> LeadsTo(components, j, k)
  {
    MentionedIsTarget(ComponentOf(components, j).GetOr(Null), k);
    assert IterRefs(Null) == [];
  }

  lemma ChainIff(paths: Value, components: seq<Field>, chain: seq<Key>)
    ensures IsChain(components, Targets(IterRefs(paths)), chain) <==> MentionChain(paths, components, chain)
  {
    hide Successors, LeadsTo, Mentions;
    if chain != [] {
      MentionedIsTarget(paths, chain[0]);
      forall i, j | 0 <= i && j == i + 1 < |chain|
        ensures chain[j] in Successors(components, chain[i]) <==> LeadsTo(components, chain[i], chain[j])
      {
        SuccessorsAreMentioned(components, chain[i], chain[j]);
      }
      if MentionChain(paths, components, chain) {
        forall i | 1 <= i < |chain| ensures chain[i] in Successors(components, chain[i - 1]) {
          assert LeadsTo(components, chain[i - 1], chain[i]);
        }
      }
    }
  }

  lemma NeededIff(paths: Value, components: seq<Field>, k: Key)
    ensures Needed(paths, components, k) <==> Reachable(components, Targets(IterRefs(paths)), k)
  {
    if chain :| MentionChain(paths, components, chain) && chain[|chain| - 1] == k {
      ChainIff(paths, components, chain);
    }
    if chain :| IsChain(components, Targets(IterRefs(paths)), chain) && chain[|chain| - 1] == k {
      ChainIff(paths, components, chain);
    }
  }

  // ---------------------------------------------------------------- the pruned components

  /** What pruning to these paths makes of each component: it stays, unchanged, if the paths need it or if it is a
      security scheme. */
  ghost predicate IsPrunedTo(paths: Value, components: seq<Field>, pruned: seq<Field>) {
    forall k: Key ::
      ComponentOf(pruned, k)
      == if Needed(paths, components, k) || k.0 == "securitySchemes" then ComponentOf(components, k) else None
  }

  /** Pruning the components to what the kept paths need; it fails if and only if they need a component of a section
      that is not a mapping. */
  method PruneToPaths(paths: Value, components: seq<Field>) returns (pruned: Option<seq<Field>>)
    requires DistinctKeys(components)
    ensures pruned.None? <==> exists k :: Needed(paths, components, k) && !SectionReadable(components, k.0)
    ensures pruned.Some? ==> IsPrunedTo(paths, components, pruned.value)
    ensures pruned.Some? ==> forall section :: SectionIsPruned(paths, components, pruned.value, section)
  {
    hide Needed, Reachable, SectionReadable, ComponentOf, SectionIsPruned;
    forall k ensures Needed(paths, components, k) <==> Reachable(components, Targets(IterRefs(paths)), k) {
      NeededIff(paths, components, k);
    }
    var outcome := CollectUsedRefs(IterRefs(paths), components);
    match outcome
    case AttributeError => pruned := None;
    case Closed(used) =>
      var kept := PruneComponents(components, used);
      forall k: Key
        ensures ComponentOf(kept, k)
                == if Needed(paths, components, k) || k.0 == "securitySchemes" then ComponentOf(components, k) else None
      {
        PrunedOrScheme(components, used, k);
      }
      forall section ensures SectionIsPruned(paths, components, kept, section) {
        PrunedSectionFacts(paths, components, used, section);
      }
      pruned := Some(kept);
  }

  lemma PrunedOrScheme(components: seq<Field>, used: set<Key>, k: Key)
    requires DistinctKeys(components)
    ensures ComponentOf(Pruned(components, used), k)
            == if k in used || k.0 == "securitySchemes" then ComponentOf(components, k) else None
  {
    PrunedComponent(components, used, k);
  }

  /** A section is in the output if and only if it is the security schemes, not a mapping, or has a needed component;
      a pruned mapping keeps its needed components in their order, and the others are unchanged. */
  ghost predicate SectionIsPruned(paths: Value, components: seq<Field>, pruned: seq<Field>, section: string) {
    match Lookup(components, section)
    case None => Lookup(pruned, section).None?
    case Some(before) =>
      if section == "securitySchemes" || !before.Dict? then Lookup(pruned, section) == Some(before)
      else
        match Lookup(pruned, section)
        case None => forall f :: f in before.fields ==> !Needed(paths, components, (section, f.key))
        case Some(after) =>
          && after.Dict? && after.fields != [] && Sub(after.fields, before.fields)
          && forall f :: f in after.fields <==> f in before.fields && Needed(paths, components, (section, f.key))
  }

  lemma {:induction false} KeptValuesFacts(values: seq<Field>, section: string, used: set<Key>)
    ensures Sub(KeptValues(values, section, used), values)
    ensures forall f :: f in KeptValues(values, section, used) <==> f in values && (section, f.key) in used
  {
    if values != [] {
      KeptValuesFacts(values[1..], section, used);
      var rest := KeptValues(values[1..], section, used);
      if (section, values[0].key) in used {
        assert KeptValues(values, section, used)[1..] == rest;
      } else {
        assert KeptValues(values, section, used) == rest;
      }
      assert values == [values[0]] + values[1..];
    }
  }

  lemma {:induction false} PrunedLookup(components: seq<Field>, used: set<Key>, section: string)
    requires DistinctKeys(components)
    ensures Lookup(Pruned(components, used), section)
            == match Lookup(components, section)
               case None => None
               case Some(value) => Lookup(PrunedSection(Field(section, value), used), section)
  {
    if components != [] {
      var c := components[0];
      var rest := Pruned(components[1..], used);
      PrunedLookup(components[1..], used, section);
      if c.key == section {
        PrunedKeys(components[1..], used);
        forall f | f in components[1..] ensures f.key != c.key {
          var i :| 0 <= i < |components[1..]| && components[1..][i] == f;
          assert components[i + 1] == f && components[0].key != components[i + 1].key;
        }
        NotLookedUp(rest, section);
      }
      if PrunedSection(c, used) == [] {
        assert PrunedSection(c, used) + rest == rest;
      } else {
        assert (PrunedSection(c, used) + rest)[1..] == rest;
      }
    }
  }

  lemma PrunedSectionFacts(paths: Value, components: seq<Field>, used: set<Key>, section: string)
    requires DistinctKeys(components) && forall k :: k in used <==> Needed(paths, components, k)
    ensures SectionIsPruned(paths, components, Pruned(components, used), section)
  {
    hide Needed;
    PrunedLookup(components, used, section);
    match Lookup(components, section)
    case None =>
    case Some(before) =>
      if !KeptWhole(Field(section, before)) {
        KeptValuesFacts(before.fields, section, used);
      }
  }

  /** Every reference in the kept paths, and in every component kept in a pruned section, resolves in the output if
      and only if it did in the input, and to the same component. */
  lemma OccurrencesResolveAlike(paths: Value, components: seq<Field>, pruned: seq<Field>, holder: Option<Key>, k: Key)
    requires IsPrunedTo(paths, components, pruned)
    requires match holder
             case None => Mentions(paths, k)
             case Some(h) =>
               && h.0 != "securitySchemes" && ComponentOf(pruned, h).Some?
               && Mentions(ComponentOf(pruned, h).value, k)
    ensures ComponentOf(pruned, k) == ComponentOf(components, k)
  {
    hide Mentions;
    match holder
    case None =>
      assert MentionChain(paths, components, [k]) && [k][|[k]| - 1] == k;
    case Some(h) =>
      assert Needed(paths, components, h);
      var chain :| MentionChain(paths, components, chain) && chain[|chain| - 1] == h;
      var longer := chain + [k];
      forall i, j | 0 <= i && j == i + 1 < |longer| ensures LeadsTo(components, longer[i], longer[j]) {
        assert j < |chain| ==> longer[i] == chain[i] && longer[j] == chain[j];
      }
      assert MentionChain(paths, components, longer) && longer[|longer| - 1] == k;
  }
}
