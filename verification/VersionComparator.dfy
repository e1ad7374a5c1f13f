/** Comparing version strings. */
module VersionComparator {
  import opened Options
  import opened VersionText

  datatype Ident = Number(n: nat) | Word(text: string)

  /** What is left of a version string: the numeric parts and the pre-release identifiers. */
  datatype Version = Version(numbers: seq<nat>, prerelease: Option<seq<Ident>>)

  /** What a string that is no version stands for. */
  const NO_VERSION := Version([], None)

  function Lower(c: char): char {
    if 'A' <= c <= 'Z' then (c as int + 32) as char else c
  }

  /** In lower case and without any letter v. */
  function Normalize(s: string): string {
    if s == [] then []
    else if Lower(s[0]) == 'v' then Normalize(s[1..])
    else [Lower(s[0])] + Normalize(s[1..])
  }

  predicate IsIdentChar(c: char) {
    IsDigit(c) || 'a' <= c <= 'z' || 'A' <= c <= 'Z' || c == '-'
  }

  predicate AllIdentChars(s: string) {
    s == [] || (IsIdentChar(s[0]) && AllIdentChars(s[1..]))
  }

  predicate Numerals(parts: seq<string>) {
    parts == [] || (parts[0] != [] && AllDigits(parts[0]) && Numerals(parts[1..]))
  }

  predicate IdentTexts(parts: seq<string>) {
    parts == [] || (parts[0] != [] && AllIdentChars(parts[0]) && IdentTexts(parts[1..]))
  }

  function Numbers(parts: seq<string>): seq<nat>
    requires Numerals(parts)
  {
    if parts == [] then [] else [ToNat(parts[0])] + Numbers(parts[1..])
  }

  function ToIdent(part: string): Ident {
    if part != [] && AllDigits(part) then Number(ToNat(part)) else Word(part)
  }

  function Idents(parts: seq<string>): seq<Ident> {
    if parts == [] then [] else [ToIdent(parts[0])] + Idents(parts[1..])
  }

  /** The text up to the first of these characters. */
  function UpTo(s: string, stops: set<char>): (i: nat)
    ensures i <= |s|
  {
    if s == [] || s[0] in stops then 0 else 1 + UpTo(s[1..], stops)
  }

  /** Nothing, or a plus sign and a build part that is not empty and has no line break. */
  predicate IsBuild(s: string) {
    s == [] || (s[0] == '+' && |s| > 1 && '\n' !in s[1..])
  }

  /** The part from the hyphen on, if there is one. */
  function ParseTail(numbers: seq<nat>, s: string): Version {
    if s == [] || s[0] != '-' then (if IsBuild(s) then Version(numbers, None) else NO_VERSION)
    else
      var i := UpTo(s[1..], {'+'});
      var parts := Split(s[1..][..i], '.');
      if IdentTexts(parts) && IsBuild(s[1..][i..]) then Version(numbers, Some(Idents(parts))) else NO_VERSION
  }

  function ParseAll(s: string): Version {
    var i := UpTo(s, {'-', '+'});
    var parts := Split(s[..i], '.');
    if Numerals(parts) then ParseTail(Numbers(parts), s[i..]) else NO_VERSION
  }

  /** `_split_version`; the pattern's `$` also matches before a line break at the very end. */
  function SplitVersion(s: string): Version {
    if s != [] && s[|s| - 1] == '\n' then ParseAll(s[..|s| - 1]) else ParseAll(s)
  }

  /** Number by number; the shorter list goes on with zeros. */
  function CompareNumbers(a: seq<nat>, b: seq<nat>): (r: int)
    ensures -1 <= r <= 1
    decreases |a| + |b|
  {
    if a == [] && b == [] then 0
    else
      var x := if a == [] then 0 else a[0];
      var y := if b == [] then 0 else b[0];
      if x != y then Sign(x, y)
      else CompareNumbers(if a == [] then [] else a[1..], if b == [] then [] else b[1..])
  }

  function CompareIdent(a: Ident, b: Ident): (r: int)
    ensures -1 <= r <= 1
  {
    match (a, b)
    case (Number(m), Number(n)) => Sign(m, n)
    case (Number(_), Word(_)) => -1
    case (Word(_), Number(_)) => 1
    case (Word(s), Word(t)) => CompareText(s, t)
  }

  function CompareIdents(a: seq<Ident>, b: seq<Ident>): (r: int)
    ensures -1 <= r <= 1
  {
    if a == [] then (if b == [] then 0 else -1)
    else if b == [] then 1
    else if CompareIdent(a[0], b[0]) != 0 then CompareIdent(a[0], b[0])
    else CompareIdents(a[1..], b[1..])
  }

  function ComparePrerelease(a: Option<seq<Ident>>, b: Option<seq<Ident>>): int {
    match (a, b)
    case (None, None) => 0
    case (None, Some(_)) => 1
    case (Some(_), None) => -1
    case (Some(x), Some(y)) => CompareIdents(x, y)
  }

  function CompareParsed(a: Version, b: Version): int {
    var c := CompareNumbers(a.numbers, b.numbers);
    if c != 0 then c else ComparePrerelease(a.prerelease, b.prerelease)
  }

  function CompareVersion(a: string, b: string): int {
    CompareParsed(SplitVersion(Normalize(a)), SplitVersion(Normalize(b)))
  }

  // ---------------------------------------------------------------- a total preorder

  lemma {:induction false} NumbersAntisymmetric(a: seq<nat>, b: seq<nat>)
    ensures CompareNumbers(a, b) == -CompareNumbers(b, a)
    ensures a == b ==> CompareNumbers(a, b) == 0
    decreases |a| + |b|
  {
    if a != [] || b != [] {
      NumbersAntisymmetric(if a == [] then [] else a[1..], if b == [] then [] else b[1..]);
    }
  }

  lemma {:induction false} NumbersTransitive(a: seq<nat>, b: seq<nat>, c: seq<nat>)
    requires CompareNumbers(a, b) <= 0 && CompareNumbers(b, c) <= 0
    ensures CompareNumbers(a, c) <= 0
    ensures CompareNumbers(a, b) < 0 || CompareNumbers(b, c) < 0 ==> CompareNumbers(a, c) < 0
    decreases |a| + |b| + |c|
  {
    if a != [] || b != [] || c != [] {
      var (x, y, z) := (Head(a), Head(b), Head(c));
      NumbersByHeads(a, b);
      NumbersByHeads(b, c);
      NumbersByHeads(a, c);
      if x == y == z {
        NumbersTransitive(Rest(a), Rest(b), Rest(c));
      }
    }
  }

  function Head(a: seq<nat>): nat {
    if a == [] then 0 else a[0]
  }

  function Rest(a: seq<nat>): seq<nat> {
    if a == [] then [] else a[1..]
  }

  lemma NumbersByHeads(a: seq<nat>, b: seq<nat>)
    ensures CompareNumbers(a, b)
            == if Head(a) != Head(b) then Sign(Head(a), Head(b)) else CompareNumbers(Rest(a), Rest(b))
  {
  }

  lemma IdentAntisymmetric(a: Ident, b: Ident)
    ensures CompareIdent(a, b) == -CompareIdent(b, a)
    ensures CompareIdent(a, b) == 0 <==> a == b
  {
    if a.Word? && b.Word? {
      TextOrder(a.text, b.text);
    }
  }

  lemma IdentTransitive(a: Ident, b: Ident, c: Ident)
    requires CompareIdent(a, b) <= 0 && CompareIdent(b, c) <= 0
    ensures CompareIdent(a, c) <= 0
  {
    if a.Word? && b.Word? && c.Word? {
      TextTransitive(a.text, b.text, c.text);
    }
  }

  lemma {:induction false} IdentsAntisymmetric(a: seq<Ident>, b: seq<Ident>)
    ensures CompareIdents(a, b) == -CompareIdents(b, a)
    ensures CompareIdents(a, b) == 0 <==> a == b
  {
    if a != [] && b != [] {
      IdentAntisymmetric(a[0], b[0]);
      IdentsAntisymmetric(a[1..], b[1..]);
      assert a == [a[0]] + a[1..] && b == [b[0]] + b[1..];
    }
  }

  lemma {:induction false} IdentsTransitive(a: seq<Ident>, b: seq<Ident>, c: seq<Ident>)
    requires CompareIdents(a, b) <= 0 && CompareIdents(b, c) <= 0
    ensures CompareIdents(a, c) <= 0
  {
    if a != [] && b != [] && c != [] {
      IdentTransitive(a[0], b[0], c[0]);
      IdentAntisymmetric(a[0], b[0]);
      IdentAntisymmetric(b[0], c[0]);
      IdentAntisymmetric(a[0], c[0]);
      if a[0] == c[0] {
        IdentTransitive(c[0], b[0], a[0]);
      }
      if a[0] == b[0] == c[0] {
        IdentsTransitive(a[1..], b[1..], c[1..]);
      }
    }
  }

  /** On all strings: reflexive, the sign flips with the arguments, and transitive. */
  lemma TotalPreorder(a: string, b: string, c: string)
    ensures CompareVersion(a, a) == 0
    ensures CompareVersion(a, b) == -CompareVersion(b, a) && -1 <= CompareVersion(a, b) <= 1
    ensures CompareVersion(a, b) <= 0 && CompareVersion(b, c) <= 0 ==> CompareVersion(a, c) <= 0
  {
    hide SplitVersion, Normalize;
    var (x, y, z) := (SplitVersion(Normalize(a)), SplitVersion(Normalize(b)), SplitVersion(Normalize(c)));
    ParsedAntisymmetric(x, x);
    ParsedAntisymmetric(x, y);
    if CompareVersion(a, b) <= 0 && CompareVersion(b, c) <= 0 {
      ParsedTransitive(x, y, z);
    }
  }

  lemma ParsedAntisymmetric(a: Version, b: Version)
    ensures CompareParsed(a, b) == -CompareParsed(b, a) && -1 <= CompareParsed(a, b) <= 1
    ensures a == b ==> CompareParsed(a, b) == 0
  {
    NumbersAntisymmetric(a.numbers, b.numbers);
    if a.prerelease.Some? && b.prerelease.Some? {
      IdentsAntisymmetric(a.prerelease.value, b.prerelease.value);
    }
  }

  lemma ParsedTransitive(a: Version, b: Version, c: Version)
    requires CompareParsed(a, b) <= 0 && CompareParsed(b, c) <= 0
    ensures CompareParsed(a, c) <= 0
  {
    NumbersTransitive(a.numbers, b.numbers, c.numbers);
    NumbersAntisymmetric(a.numbers, b.numbers);
    NumbersAntisymmetric(b.numbers, c.numbers);
    NumbersAntisymmetric(a.numbers, c.numbers);
    if CompareNumbers(a.numbers, b.numbers) == 0 && CompareNumbers(b.numbers, c.numbers) == 0 {
      if a.prerelease.Some? && b.prerelease.Some? && c.prerelease.Some? {
        IdentsTransitive(a.prerelease.value, b.prerelease.value, c.prerelease.value);
      }
    }
  }
}
