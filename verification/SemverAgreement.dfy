/** Precedence as section 11 of Semantic Versioning 2.0.0 defines it, and where the comparator agrees with it. */
module SemverAgreement {
  import opened Options
  import opened VersionText
  import opened VersionComparator
  import opened SemverSpelling

  /** The texts first differ at `i`, or the first one ends there. */
  ghost predicate TextLessAt(s: string, t: string, i: nat) {
    && i <= |s| && i < |t| && s[..i] == t[..i]
    && (i == |s| || s[i] < t[i])
  }

  /** Section 11.4.1 to 11.4.3: numbers numerically, words in ASCII order, numbers below words. */
  ghost predicate IdentLess(a: Ident, b: Ident) {
    match (a, b)
    case (Number(m), Number(n)) => m < n
    case (Number(_), Word(_)) => true
    case (Word(_), Number(_)) => false
    case (Word(s), Word(t)) => exists i: nat :: TextLessAt(s, t, i)
  }

  /** Section 11.4: identifier by identifier until a difference; section 11.4.4: the larger set otherwise. */
  ghost predicate PrereleaseLessAt(a: seq<Ident>, b: seq<Ident>, i: nat) {
    && i <= |a| && i < |b| && a[..i] == b[..i]
    && (i == |a| || IdentLess(a[i], b[i]))
  }

  /** Section 11.2 and 11.3. */
  ghost predicate Precedes(a: Semver, b: Semver) {
    || a.major < b.major
    || (a.major == b.major && a.minor < b.minor)
    || (a.major == b.major && a.minor == b.minor && a.patch < b.patch)
    || (&& a.major == b.major && a.minor == b.minor && a.patch == b.patch && a.prerelease.Some?
        && (b.prerelease.None? || exists i: nat :: PrereleaseLessAt(a.prerelease.value, b.prerelease.value, i)))
  }

  // ---------------------------------------------------------------- the orders agree

  lemma {:induction false} TextLessIff(s: string, t: string)
    ensures CompareText(s, t) < 0 <==> exists i: nat :: TextLessAt(s, t, i)
  {
    if s == [] {
      if t != [] {
        assert TextLessAt(s, t, 0);
      }
    } else if t != [] {
      if s[0] < t[0] {
        assert TextLessAt(s, t, 0);
      } else if s[0] == t[0] {
        TextLessIff(s[1..], t[1..]);
        if i: nat :| TextLessAt(s[1..], t[1..], i) {
          assert s[..i + 1] == [s[0]] + s[1..][..i] && t[..i + 1] == [t[0]] + t[1..][..i];
          assert TextLessAt(s, t, i + 1);
        }
        if i: nat :| TextLessAt(s, t, i) {
          assert i > 0;
          assert s[1..][..i - 1] == s[..i][1..] && t[1..][..i - 1] == t[..i][1..];
          assert TextLessAt(s[1..], t[1..], i - 1);
        }
      } else {
        if i: nat :| TextLessAt(s, t, i) {
          assert false;
        }
      }
    }
  }

  lemma IdentLessIff(a: Ident, b: Ident)
    ensures CompareIdent(a, b) < 0 <==> IdentLess(a, b)
  {
    if a.Word? && b.Word? {
      TextLessIff(a.text, b.text);
    }
  }

  lemma {:induction false} PrereleaseLessIff(a: seq<Ident>, b: seq<Ident>)
    ensures CompareIdents(a, b) < 0 <==> exists i: nat :: PrereleaseLessAt(a, b, i)
  {
    hide CompareIdent, IdentLess;
    if a == [] {
      if b != [] {
        assert PrereleaseLessAt(a, b, 0);
      }
    } else if b != [] {
      IdentLessIff(a[0], b[0]);
      IdentAntisymmetric(a[0], b[0]);
      if CompareIdent(a[0], b[0]) < 0 {
        assert PrereleaseLessAt(a, b, 0);
      } else {
        PrereleaseLessIff(a[1..], b[1..]);
        if i: nat :| PrereleaseLessAt(a[1..], b[1..], i) && a[0] == b[0] {
          assert a[..i + 1] == [a[0]] + a[1..][..i] && b[..i + 1] == [b[0]] + b[1..][..i];
          assert PrereleaseLessAt(a, b, i + 1);
        }
        if i: nat :| PrereleaseLessAt(a, b, i) {
          assert i > 0;
          assert a[..i][0] == b[..i][0];
          assert a[1..][..i - 1] == a[..i][1..] && b[1..][..i - 1] == b[..i][1..];
          assert PrereleaseLessAt(a[1..], b[1..], i - 1);
        }
      }
    }
  }

  function Parsed(v: Semver): Version {
    Version([v.major, v.minor, v.patch], v.prerelease)
  }

  lemma ParsedOrderIff(a: Semver, b: Semver)
    ensures CompareParsed(Parsed(a), Parsed(b)) < 0 <==> Precedes(a, b)
    ensures CompareParsed(Parsed(a), Parsed(b)) == 0 <==> a == b
  {
    var (x, y) := (Parsed(a).numbers, Parsed(b).numbers);
    assert CompareNumbers(x, y) == if a.major != b.major then Sign(a.major, b.major)
                                   else CompareNumbers([a.minor, a.patch], [b.minor, b.patch]) by {
      assert x[1..] == [a.minor, a.patch] && y[1..] == [b.minor, b.patch];
    }
    assert CompareNumbers([a.minor, a.patch], [b.minor, b.patch])
           == if a.minor != b.minor then Sign(a.minor, b.minor) else CompareNumbers([a.patch], [b.patch]) by {
      assert [a.minor, a.patch][1..] == [a.patch] && [b.minor, b.patch][1..] == [b.patch];
    }
    assert CompareNumbers([a.patch], [b.patch]) == Sign(a.patch, b.patch) by {
      assert [a.patch][1..] == [] && [b.patch][1..] == [];
      assert CompareNumbers([], []) == 0;
    }
    if a.prerelease.Some? && b.prerelease.Some? {
      PrereleaseLessIff(a.prerelease.value, b.prerelease.value);
      IdentsAntisymmetric(a.prerelease.value, b.prerelease.value);
    }
  }

  // ---------------------------------------------------------------- plain versions

  /** Left alone by the normalisation: no upper-case letter and no `v`. */
  predicate IsPlainChar(c: char) {
    !('A' <= c <= 'Z') && c != 'v'
  }

  predicate Plain(s: string) {
    s == [] || (IsPlainChar(s[0]) && Plain(s[1..]))
  }

  predicate PlainIdents(ids: seq<Ident>) {
    ids == [] || ((ids[0].Word? ==> Plain(ids[0].text)) && PlainIdents(ids[1..]))
  }

  /** The pre-release, if any, has no upper-case letter and no `v`. */
  predicate PlainVersion(v: Semver) {
    WellFormed(v) && (v.prerelease.Some? ==> PlainIdents(v.prerelease.value))
  }

  lemma {:induction false} NormalizePlainIff(s: string)
    ensures Normalize(s) == s <==> Plain(s)
    ensures |Normalize(s)| <= |s| && Plain(Normalize(s))
  {
    if s != [] {
      NormalizePlainIff(s[1..]);
      assert s == [s[0]] + s[1..];
    }
  }

  lemma FoldedIff(i: Ident)
    requires WellFormedIdent(i) && !Vanishes(i)
    ensures Folded(i) == i <==> (i.Word? ==> Plain(i.text))
    ensures WellFormedIdent(Folded(i)) && (Folded(i).Word? ==> Plain(Folded(i).text))
  {
    NormalizePlainIff(IdentText(i));
    FoldedTextFacts(i);
    if i.Number? {
      DecimalRoundTrip(i.n);
      NormalizeDigits(IdentText(i));
    }
  }

  lemma {:induction false} FoldedIdentsIff(ids: seq<Ident>)
    requires WellFormedIdents(ids) && !SomeVanish(ids)
    ensures FoldedIdents(ids) == ids <==> PlainIdents(ids)
    ensures WellFormedIdents(FoldedIdents(ids)) && PlainIdents(FoldedIdents(ids))
  {
    if ids != [] {
      FoldedIff(ids[0]);
      FoldedIdentsIff(ids[1..]);
      assert FoldedIdents(ids)[1..] == FoldedIdents(ids[1..]);
      assert ids == [ids[0]] + ids[1..];
    }
  }

  lemma {:induction false} PlainDoNotVanish(ids: seq<Ident>)
    requires WellFormedIdents(ids) && PlainIdents(ids)
    ensures !SomeVanish(ids)
  {
    if ids != [] {
      PlainDoNotVanish(ids[1..]);
      NormalizePlainIff(IdentText(ids[0]));
      if ids[0].Number? {
        DecimalRoundTrip(ids[0].n);
        NormalizeDigits(IdentText(ids[0]));
      }
    }
  }

  /** A version is read back as it was spelled if and only if its pre-release is plain and its build metadata does
      not vanish. */
  lemma ReadBackIff(v: Semver, build: string)
    requires WellFormed(v) && WellFormedBuild(build)
    ensures SplitVersion(Normalize(Spelled(v, build))) == Parsed(v) <==> PlainVersion(v) && BuildSurvives(build)
  {
    SpelledIsReadAs(v, build);
    if v.prerelease.Some? {
      var ids := v.prerelease.value;
      if PlainIdents(ids) {
        PlainDoNotVanish(ids);
      }
      if !SomeVanish(ids) {
        FoldedIdentsIff(ids);
      }
    }
  }

  // ---------------------------------------------------------------- where the comparator agrees

  /** On these two the comparator is section 11: negative exactly when the first precedes the second, zero exactly
      when they differ in build metadata at most. */
  ghost predicate Agrees(a: Semver, buildA: string, b: Semver, buildB: string)
    requires WellFormed(a) && WellFormed(b)
  {
    var c := CompareVersion(Spelled(a, buildA), Spelled(b, buildB));
    (c < 0 <==> Precedes(a, b)) && (c == 0 <==> a == b)
  }

  ghost predicate IsPlain(v: Semver, build: string) {
    PlainVersion(v) && WellFormedBuild(build) && BuildSurvives(build)
  }

  /** Plain versions agree with each other. */
  lemma AgreesWithSection11(a: Semver, b: Semver, buildA: string, buildB: string)
    requires IsPlain(a, buildA) && IsPlain(b, buildB)
    ensures Agrees(a, buildA, b, buildB)
  {
    hide Spelled, Precedes, SplitVersion, CompareParsed, Parsed;
    ReadBackIff(a, buildA);
    ReadBackIff(b, buildB);
    ParsedOrderIff(a, b);
  }

  const ZERO := Semver(0, 0, 0, None)

  /** What is no version compares like 0.0.0. */
  lemma NoVersionIsZero(v: Version)
    requires |v.numbers| == 3
    ensures CompareParsed(NO_VERSION, v) == CompareParsed(Parsed(ZERO), v)
  {
    var (n, z) := (v.numbers, [0, 0, 0]);
    assert z[1..] == [0, 0] && z[1..][1..] == [0] && z[1..][1..][1..] == [];
    assert n[1..][1..][1..] == [];
    assert CompareNumbers([], n[1..][1..][1..]) == 0 == CompareNumbers([], []);
    assert CompareNumbers([], n[1..][1..]) == CompareNumbers([0], n[1..][1..]);
    assert CompareNumbers([], n[1..]) == CompareNumbers([0, 0], n[1..]);
  }

  ghost predicate AgreesWithAllPlain(a: Semver, buildA: string)
    requires WellFormed(a)
  {
    forall b, buildB | IsPlain(b, buildB) :: Agrees(a, buildA, b, buildB)
  }

  /** A version read as another plain one agrees with none but itself about that one. */
  lemma ReadAsAnother(a: Semver, buildA: string, b: Semver)
    requires WellFormed(a) && PlainVersion(b) && a != b
    requires CompareParsed(SplitVersion(Normalize(Spelled(a, buildA))), Parsed(b)) == 0
    ensures !AgreesWithAllPlain(a, buildA)
  {
    hide SplitVersion, Normalize, Spelled;
    ReadBackIff(b, "");
    assert IsPlain(b, "");
    assert !Agrees(a, buildA, b, "");
  }

  lemma ZeroWithoutBuildAgrees(buildA: string)
    requires WellFormedBuild(buildA)
    ensures AgreesWithAllPlain(ZERO, buildA)
  {
    hide SplitVersion, Normalize, Spelled, Precedes, CompareParsed;
    forall b, buildB | IsPlain(b, buildB) ensures Agrees(ZERO, buildA, b, buildB) {
      SpelledIsReadAs(ZERO, buildA);
      ReadBackIff(b, buildB);
      ParsedOrderIff(ZERO, b);
      NoVersionIsZero(Parsed(b));
    }
  }

  /** Whatever its letters, a version agrees with every plain version if and only if its own pre-release is plain
      and its build metadata does not vanish, or it is 0.0.0. */
  lemma AgreesWithAllPlainIff(a: Semver, buildA: string)
    requires WellFormed(a) && WellFormedBuild(buildA)
    ensures AgreesWithAllPlain(a, buildA) <==> (PlainVersion(a) && BuildSurvives(buildA)) || a == ZERO
  {
    hide SplitVersion, Normalize, Spelled, Agrees, CompareParsed;
    SpelledIsReadAs(a, buildA);
    if PlainVersion(a) && BuildSurvives(buildA) {
      forall b, buildB | IsPlain(b, buildB) ensures Agrees(a, buildA, b, buildB) {
        AgreesWithSection11(a, b, buildA, buildB);
      }
    } else if a == ZERO {
      ZeroWithoutBuildAgrees(buildA);
    } else if ReadAs(a, buildA) == NO_VERSION {
      NoVersionIsZero(Parsed(ZERO));
      ParsedOrderIff(ZERO, ZERO);
      ReadAsAnother(a, buildA, ZERO);
    } else {
      var ids := a.prerelease.value;
      FoldedIdentsIff(ids);
      var b := a.(prerelease := Some(FoldedIdents(ids)));
      ParsedOrderIff(b, b);
      ReadAsAnother(a, buildA, b);
    }
  }

  // ---------------------------------------------------------------- where it does not

  /** The version with a letter v put before its first identifier: it reads the same. */
  function WithV(a: Semver): Semver
    requires WellFormed(a) && a.prerelease.Some?
  {
    var ids := a.prerelease.value;
    a.(prerelease := Some([Word(['v'] + IdentText(ids[0]))] + ids[1..]))
  }

  lemma WithVReadsAlike(a: Semver)
    requires WellFormed(a) && a.prerelease.Some?
    ensures WellFormed(WithV(a)) && WithV(a) != a
    ensures ReadAs(WithV(a), "") == ReadAs(a, "")
  {
    var ids := a.prerelease.value;
    var t := IdentText(ids[0]);
    var ids2 := WithV(a).prerelease.value;
    if ids[0].Number? {
      DecimalRoundTrip(ids[0].n);
      NormalizeDigits(t);
    }
    assert (['v'] + t)[1..] == t;
    assert Normalize(['v'] + t) == Normalize(t);
    assert ids2[1..] == ids[1..];
    assert ids2[0] != ids[0] by {
      assert ids[0].Word? ==> |ids2[0].text| == |ids[0].text| + 1;
    }
  }

  /** With all letters allowed on the other side, no version at all agrees with every version. */
  lemma NoneAgreesWithAll(a: Semver, buildA: string)
    requires WellFormed(a) && WellFormedBuild(buildA)
    ensures exists b :: WellFormed(b) && !Agrees(a, buildA, b, "")
  {
    if a.prerelease.Some? && BuildSurvives(buildA) {
      WithVReadsAlike(a);
      SpelledIsReadAs(a, buildA);
      SpelledIsReadAs(WithV(a), "");
      ParsedAntisymmetric(ReadAs(a, buildA), ReadAs(WithV(a), ""));
      assert !Agrees(a, buildA, WithV(a), "");
    } else {
      var b := Semver(a.major + 1, 0, 0, Some([Word("v")]));
      VIsNoVersion(b);
      SpelledIsReadAs(a, buildA);
      NotBelowNoVersion(ReadAs(a, buildA));
      assert Precedes(a, b);
      assert !Agrees(a, buildA, b, "");
    }
  }

  lemma NotBelowNoVersion(v: Version)
    requires v.prerelease.None?
    ensures CompareParsed(v, NO_VERSION) >= 0
  {
    NotBelowNothing(v.numbers);
  }

  lemma {:induction false} NotBelowNothing(numbers: seq<nat>)
    ensures CompareNumbers(numbers, []) >= 0
  {
    if numbers != [] {
      NotBelowNothing(numbers[1..]);
    }
  }

  /** A pre-release that consists of the letter v makes the text no version at all. */
  lemma VIsNoVersion(v: Semver)
    requires v.prerelease == Some([Word("v")])
    ensures WellFormed(v) && SplitVersion(Normalize(Spelled(v, ""))) == NO_VERSION
  {
    assert "v"[1..] == [] && Normalize("v") == [];
    assert AllIdentChars("v") && !AllDigits("v");
    var ids := [Word("v")];
    assert ids[1..] == [];
    assert WellFormedIdent(ids[0]) && WellFormedIdents(ids);
    assert Vanishes(ids[0]) && SomeVanish(ids);
    SpelledIsReadAs(v, "");
  }

  /** 1.0.0-A precedes 1.0.0-a, but the comparator calls them equal. */
  lemma CaseDoesNotCount()
    ensures var (a, b) := (Semver(1, 0, 0, Some([Word("A")])), Semver(1, 0, 0, Some([Word("a")])));
            && WellFormed(a) && WellFormed(b) && Precedes(a, b)
            && CompareVersion(Spelled(a, ""), Spelled(b, "")) == 0
  {
    var (x, y) := ([Word("A")], [Word("a")]);
    var (a, b) := (Semver(1, 0, 0, Some(x)), Semver(1, 0, 0, Some(y)));
    assert "A"[1..] == [] && "a"[1..] == [] && x[1..] == [] && y[1..] == [];
    assert AllIdentChars("A") && !AllDigits("A") && AllIdentChars("a") && !AllDigits("a");
    assert WellFormedIdents(x) && WellFormedIdents(y);
    assert TextLessAt("A", "a", 0);
    assert PrereleaseLessAt(x, y, 0);
    assert Normalize("A") == "a" == Normalize("a");
    assert FoldedIdents(x[1..]) == [] && FoldedIdents(y[1..]) == [];
    assert FoldedIdents(x) == [Word("a")] == FoldedIdents(y);
    assert !SomeVanish(x) && !SomeVanish(y);
    SpelledIsReadAs(a, "");
    SpelledIsReadAs(b, "");
    ParsedAntisymmetric(ReadAs(a, ""), ReadAs(b, ""));
  }

  /** 1.0.0+v is no version to the parser and compares as 0.0.0, although it has the precedence of 1.0.0. */
  lemma BuildOfVIsNoVersion()
    ensures var a := Semver(1, 0, 0, None);
            && SplitVersion(Normalize(Spelled(a, "+v"))) == NO_VERSION
            && CompareVersion(Spelled(a, "+v"), Spelled(ZERO, "")) == 0
            && Precedes(ZERO, a)
  {
    var a := Semver(1, 0, 0, None);
    assert "+v"[1..] == "v" && "v"[1..] == [] && Normalize("v") == [];
    SpelledIsReadAs(a, "+v");
    SpelledIsReadAs(ZERO, "");
    NoVersionIsZero(Parsed(ZERO));
    ParsedOrderIff(ZERO, ZERO);
  }

  /** Anywhere in any text a letter v is invisible and letter case does not count. */
  lemma LettersThatDoNotCount(s: string, t: string, c: char)
    ensures CompareVersion(s + ['v'] + t, s + t) == 0
    ensures CompareVersion(s + [c] + t, s + [Lower(c)] + t) == 0
  {
    NormalizeAppend(s, t);
    NormalizeAppend(s, ['v']);
    NormalizeAppend(s + ['v'], t);
    assert ['v'][1..] == [] && Normalize(['v']) == [];
    NormalizeAppend(s, [c]);
    NormalizeAppend(s, [Lower(c)]);
    NormalizeAppend(s + [c], t);
    NormalizeAppend(s + [Lower(c)], t);
    assert [c][1..] == [] && [Lower(c)][1..] == [];
    assert Lower(Lower(c)) == Lower(c);
    EqualWhenNormalizedAlike(s + ['v'] + t, s + t);
    EqualWhenNormalizedAlike(s + [c] + t, s + [Lower(c)] + t);
  }

  lemma EqualWhenNormalizedAlike(a: string, b: string)
    requires Normalize(a) == Normalize(b)
    ensures CompareVersion(a, b) == 0
  {
    ParsedAntisymmetric(SplitVersion(Normalize(a)), SplitVersion(Normalize(b)));
  }
}
