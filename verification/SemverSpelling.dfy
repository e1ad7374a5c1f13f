/** Spelling a version of Semantic Versioning 2.0.0, with any letters, and what the parser makes of it. */
module SemverSpelling {
  import opened Options
  import opened VersionText
  import opened VersionComparator

  datatype Semver = Semver(major: nat, minor: nat, patch: nat, prerelease: Option<seq<Ident>>)

  predicate WellFormedIdent(i: Ident) {
    match i
    case Number(_) => true
    case Word(t) => t != [] && AllIdentChars(t) && !AllDigits(t)
  }

  predicate WellFormedIdents(ids: seq<Ident>) {
    ids == [] || (WellFormedIdent(ids[0]) && WellFormedIdents(ids[1..]))
  }

  predicate WellFormed(v: Semver) {
    v.prerelease.Some? ==> v.prerelease.value != [] && WellFormedIdents(v.prerelease.value)
  }

  /** Build metadata, if any, on one line. */
  predicate WellFormedBuild(build: string) {
    build == [] || (build[0] == '+' && |build| > 1 && '\n' !in build)
  }

  function IdentText(i: Ident): string {
    match i
    case Number(n) => Decimal(n)
    case Word(t) => t
  }

  function Texts(ids: seq<Ident>): (r: seq<string>)
    ensures |r| == |ids|
  {
    if ids == [] then [] else [IdentText(ids[0])] + Texts(ids[1..])
  }

  function Core(v: Semver): string {
    Join([Decimal(v.major), Decimal(v.minor), Decimal(v.patch)], '.')
  }

  function PrereleaseText(v: Semver): string
    requires WellFormed(v)
  {
    match v.prerelease
    case None => []
    case Some(ids) => ['-'] + Join(Texts(ids), '.')
  }

  function Spelled(v: Semver, build: string): string
    requires WellFormed(v)
  {
    Core(v) + PrereleaseText(v) + build
  }

  // ---------------------------------------------------------------- what is read

  /** An identifier whose every letter is dropped. */
  predicate Vanishes(i: Ident) {
    Normalize(IdentText(i)) == []
  }

  predicate SomeVanish(ids: seq<Ident>) {
    ids != [] && (Vanishes(ids[0]) || SomeVanish(ids[1..]))
  }

  /** An identifier as it is read: without letter case and without the letter v, perhaps as a number. */
  function Folded(i: Ident): Ident {
    ToIdent(Normalize(IdentText(i)))
  }

  function FoldedIdents(ids: seq<Ident>): (r: seq<Ident>)
    ensures |r| == |ids|
  {
    if ids == [] then [] else [Folded(ids[0])] + FoldedIdents(ids[1..])
  }

  predicate BuildSurvives(build: string) {
    build == [] || Normalize(build[1..]) != []
  }

  /** What the parser makes of a spelled version. */
  function ReadAs(v: Semver, build: string): Version {
    if !BuildSurvives(build) then NO_VERSION
    else
      match v.prerelease
      case None => Version([v.major, v.minor, v.patch], None)
      case Some(ids) =>
        if SomeVanish(ids) then NO_VERSION else Version([v.major, v.minor, v.patch], Some(FoldedIdents(ids)))
  }

  // ---------------------------------------------------------------- normalising the parts

  lemma {:induction false} NormalizeAppend(s: string, t: string)
    ensures Normalize(s + t) == Normalize(s) + Normalize(t)
  {
    if s == [] {
      assert s + t == t;
    } else {
      assert (s + t)[1..] == s[1..] + t;
      NormalizeAppend(s[1..], t);
    }
  }

  lemma {:induction false} NormalizeKeepsAway(s: string, c: char)
    requires c !in s && Lower(c) == c && !('a' <= c <= 'z')
    ensures c !in Normalize(s)
  {
    if s != [] {
      NormalizeKeepsAway(s[1..], c);
    }
  }

  lemma {:induction false} NormalizeIdentChars(s: string)
    requires AllIdentChars(s)
    ensures AllIdentChars(Normalize(s))
  {
    if s != [] {
      NormalizeIdentChars(s[1..]);
    }
  }

  lemma {:induction false} NormalizeDigits(s: string)
    requires AllDigits(s)
    ensures Normalize(s) == s && AllIdentChars(s) && forall c | c in s :: IsDigit(c)
  {
    if s != [] {
      NormalizeDigits(s[1..]);
      assert s == [s[0]] + s[1..];
    }
  }

  lemma {:induction false} IdentCharsIn(s: string, c: char)
    requires AllIdentChars(s) && c in s
    ensures IsIdentChar(c)
  {
    if c != s[0] {
      IdentCharsIn(s[1..], c);
    }
  }

  function NormalizedAll(parts: seq<string>): (r: seq<string>)
    ensures |r| == |parts|
  {
    if parts == [] then [] else [Normalize(parts[0])] + NormalizedAll(parts[1..])
  }

  lemma {:induction false} NormalizeJoin(parts: seq<string>)
    requires parts != []
    ensures Normalize(Join(parts, '.')) == Join(NormalizedAll(parts), '.')
    decreases |parts|
  {
    assert NormalizedAll(parts)[1..] == NormalizedAll(parts[1..]);
    if |parts| > 1 {
      var rest := Join(parts[1..], '.');
      NormalizeJoin(parts[1..]);
      NormalizeAppend(parts[0] + ['.'], rest);
      NormalizeAppend(parts[0], ['.']);
      assert Normalize(['.']) == ['.'] by {
        assert ['.'][1..] == [];
      }
    }
  }

  /** An identifier's normalised text, and how it is read. */
  lemma FoldedTextFacts(i: Ident)
    requires WellFormedIdent(i)
    ensures var t := Normalize(IdentText(i));
            && AllIdentChars(t) && '.' !in t && '+' !in t
            && '\n' !in IdentText(i)
  {
    var t := IdentText(i);
    if i.Number? {
      DecimalRoundTrip(i.n);
      NormalizeDigits(t);
    }
    NormalizeIdentChars(t);
    forall c | c in t ensures IsIdentChar(c) {
      IdentCharsIn(t, c);
    }
    forall c | c in Normalize(t) ensures IsIdentChar(c) {
      IdentCharsIn(Normalize(t), c);
    }
  }

  lemma {:induction false} FoldedTextsFacts(ids: seq<Ident>)
    requires WellFormedIdents(ids)
    ensures var parts := NormalizedAll(Texts(ids));
            && (IdentTexts(parts) <==> !SomeVanish(ids))
            && Idents(parts) == FoldedIdents(ids)
            && (forall p | p in parts :: '.' !in p && '+' !in p)
    ensures forall p | p in Texts(ids) :: '\n' !in p
  {
    if ids != [] {
      FoldedTextFacts(ids[0]);
      FoldedTextsFacts(ids[1..]);
      assert Texts(ids)[1..] == Texts(ids[1..]);
      assert NormalizedAll(Texts(ids))[1..] == NormalizedAll(Texts(ids[1..]));
    }
  }

  lemma {:induction false} JoinFacts(parts: seq<string>, x: char)
    requires parts != [] && x != '.' && forall p | p in parts :: x !in p
    ensures x !in Join(parts, '.')
    decreases |parts|
  {
    if |parts| > 1 {
      JoinFacts(parts[1..], x);
    }
  }

  lemma {:induction false} UpToAppend(s: string, t: string, stops: set<char>)
    requires (forall c | c in s :: c !in stops) && (t == [] || t[0] in stops)
    ensures UpTo(s + t, stops) == |s|
  {
    if s == [] {
      assert s + t == t;
    } else {
      assert (s + t)[1..] == s[1..] + t;
      UpToAppend(s[1..], t, stops);
    }
  }

  lemma CoreFacts(v: Semver)
    ensures var parts := [Decimal(v.major), Decimal(v.minor), Decimal(v.patch)];
            && Split(Core(v), '.') == parts && Numerals(parts) && Numbers(parts) == [v.major, v.minor, v.patch]
            && Normalize(Core(v)) == Core(v)
            && '-' !in Core(v) && '+' !in Core(v) && '\n' !in Core(v)
  {
    var parts := [Decimal(v.major), Decimal(v.minor), Decimal(v.patch)];
    DecimalRoundTrip(v.major);
    DecimalRoundTrip(v.minor);
    DecimalRoundTrip(v.patch);
    forall p | p in parts ensures Normalize(p) == p && forall c | c in p :: IsDigit(c) {
      NormalizeDigits(p);
    }
    SplitJoin(parts, '.');
    NormalizeJoin(parts);
    JoinFacts(parts, '-');
    JoinFacts(parts, '+');
    JoinFacts(parts, '\n');
    assert parts[1..] == [Decimal(v.minor), Decimal(v.patch)] && parts[1..][1..] == [Decimal(v.patch)];
    assert parts[1..][1..][1..] == [];
    assert Numerals(parts[1..][1..]) && Numbers(parts[1..][1..]) == [v.patch];
    assert Numerals(parts[1..]) && Numbers(parts[1..]) == [v.minor, v.patch];
    assert NormalizedAll(parts) == parts by {
      assert NormalizedAll(parts[1..][1..]) == parts[1..][1..];
      assert NormalizedAll(parts[1..]) == parts[1..];
    }
  }

  lemma BuildFacts(build: string)
    requires WellFormedBuild(build)
    ensures var n := Normalize(build);
            && (n == [] || n[0] == '+') && (IsBuild(n) <==> BuildSurvives(build))
  {
    if build != [] {
      var rest := build[1..];
      assert Lower('+') == '+' && Normalize(build) == ['+'] + Normalize(rest);
      assert '\n' !in rest;
      NormalizeKeepsAway(rest, '\n');
      assert Normalize(build)[1..] == Normalize(rest);
    }
  }

  lemma PrereleaseIsRead(numbers: seq<nat>, parts: seq<string>, build: string)
    requires parts != [] && forall p | p in parts :: '.' !in p && '+' !in p
    requires build == [] || build[0] == '+'
    ensures ParseTail(numbers, ['-'] + Join(parts, '.') + build)
            == if IdentTexts(parts) && IsBuild(build) then Version(numbers, Some(Idents(parts))) else NO_VERSION
  {
    hide Split, Join, IdentTexts, IsBuild;
    var t := Join(parts, '.');
    var s := ['-'] + t + build;
    SplitJoin(parts, '.');
    JoinFacts(parts, '+');
    assert s[0] == '-' && s[1..] == t + build;
    UpToAppend(t, build, {'+'});
    assert (t + build)[..|t|] == t && (t + build)[|t|..] == build;
  }

  /** What follows the numeric part, normalised. */
  function TailText(v: Semver, build: string): string
    requires WellFormed(v)
  {
    match v.prerelease
    case None => Normalize(build)
    case Some(ids) => ['-'] + Join(NormalizedAll(Texts(ids)), '.') + Normalize(build)
  }

  lemma TailIsRead(v: Semver, build: string)
    requires WellFormed(v) && WellFormedBuild(build)
    ensures ParseTail([v.major, v.minor, v.patch], TailText(v, build)) == ReadAs(v, build)
    ensures TailText(v, build) == [] || TailText(v, build)[0] == '-' || TailText(v, build)[0] == '+'
  {
    hide Join, NormalizedAll, Normalize, IsBuild, BuildSurvives, SomeVanish, IdentTexts;
    BuildFacts(build);
    match v.prerelease
    case None =>
    case Some(ids) =>
      FoldedTextsFacts(ids);
      PrereleaseIsRead([v.major, v.minor, v.patch], NormalizedAll(Texts(ids)), Normalize(build));
  }

  lemma SpelledNormalized(v: Semver, build: string)
    requires WellFormed(v) && WellFormedBuild(build)
    ensures Normalize(Spelled(v, build)) == Core(v) + TailText(v, build)
  {
    CoreFacts(v);
    NormalizeAppend(Core(v) + PrereleaseText(v), build);
    NormalizeAppend(Core(v), PrereleaseText(v));
    match v.prerelease
    case None =>
      assert Normalize([]) == [];
    case Some(ids) =>
      NormalizeJoin(Texts(ids));
      NormalizeAppend(['-'], Join(Texts(ids), '.'));
      assert ['-'][1..] == [] && Normalize(['-']) == ['-'];
  }

  lemma SpelledHasNoBreak(v: Semver, build: string)
    requires WellFormed(v) && WellFormedBuild(build)
    ensures '\n' !in Normalize(Spelled(v, build))
  {
    CoreFacts(v);
    if v.prerelease.Some? {
      FoldedTextsFacts(v.prerelease.value);
      JoinFacts(Texts(v.prerelease.value), '\n');
    }
    NormalizeKeepsAway(Spelled(v, build), '\n');
  }

  /** A spelled version, whatever its letters, is read as ReadAs says. */
  lemma SpelledIsReadAs(v: Semver, build: string)
    requires WellFormed(v) && WellFormedBuild(build)
    ensures SplitVersion(Normalize(Spelled(v, build))) == ReadAs(v, build)
  {
    hide Join, Spelled, TailText, ReadAs, Normalize, Split, ParseTail, WellFormed, WellFormedBuild;
    var (core, tail) := (Core(v), TailText(v, build));
    SpelledNormalized(v, build);
    SpelledHasNoBreak(v, build);
    CoreFacts(v);
    TailIsRead(v, build);
    UpToAppend(core, tail, {'-', '+'});
    assert (core + tail)[..|core|] == core && (core + tail)[|core|..] == tail;
  }
}
