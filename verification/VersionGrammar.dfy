/** Which texts the comparator reads as versions, and as which. */
module VersionGrammar {
  import opened Options
  import opened VersionText
  import opened VersionComparator
  import opened SemverSpelling

  /** A text between the dots of the numeric part. */
  predicate IsNumeral(part: string) {
    part != [] && forall c :: c in part ==> '0' <= c <= '9'
  }

  /** A text between the dots of the pre-release. */
  predicate IsIdentifier(part: string) {
    part != [] && forall c :: c in part ==> '0' <= c <= '9' || 'a' <= c <= 'z' || 'A' <= c <= 'Z' || c == '-'
  }

  /** The parts of a version text. */
  datatype Shape = Shape(core: seq<string>, prerelease: Option<seq<string>>, build: string)

  ghost predicate IsVersion(v: Shape) {
    && v.core != [] && (forall p :: p in v.core ==> IsNumeral(p))
    && (v.prerelease.Some? ==> v.prerelease.value != [] && forall p :: p in v.prerelease.value ==> IsIdentifier(p))
    && (v.build != [] ==> |v.build| > 1 && v.build[0] == '+' && '\n' !in v.build)
  }

  ghost function TextOf(v: Shape): string
    requires IsVersion(v)
  {
    Join(v.core, '.') + (if v.prerelease.Some? then ['-'] + Join(v.prerelease.value, '.') else []) + v.build
  }

  lemma {:induction false} NumeralsIff(parts: seq<string>)
    ensures Numerals(parts) <==> forall p :: p in parts ==> IsNumeral(p)
  {
    if parts != [] {
      DigitsIff(parts[0]);
      NumeralsIff(parts[1..]);
      assert parts[0] in parts && forall p :: p in parts[1..] ==> p in parts;
      assert forall p :: p in parts ==> p == parts[0] || p in parts[1..];
    }
  }

  lemma {:induction false} DigitsIff(s: string)
    ensures AllDigits(s) <==> forall c :: c in s ==> '0' <= c <= '9'
  {
    if s != [] {
      DigitsIff(s[1..]);
      assert s[0] in s && forall c :: c in s[1..] ==> c in s;
      assert forall c :: c in s ==> c == s[0] || c in s[1..];
    }
  }

  lemma {:induction false} IdentTextsIff(parts: seq<string>)
    ensures IdentTexts(parts) <==> forall p :: p in parts ==> IsIdentifier(p)
  {
    if parts != [] {
      IdentCharsIff(parts[0]);
      IdentTextsIff(parts[1..]);
      assert parts[0] in parts && forall p :: p in parts[1..] ==> p in parts;
      assert forall p :: p in parts ==> p == parts[0] || p in parts[1..];
    }
  }

  lemma {:induction false} IdentCharsIff(s: string)
    ensures AllIdentChars(s)
            <==> forall c :: c in s ==> '0' <= c <= '9' || 'a' <= c <= 'z' || 'A' <= c <= 'Z' || c == '-'
  {
    if s != [] {
      IdentCharsIff(s[1..]);
      assert s[0] in s && forall c :: c in s[1..] ==> c in s;
      assert forall c :: c in s ==> c == s[0] || c in s[1..];
    }
  }

  lemma {:induction false} JoinSplit(s: string, c: char)
    ensures Join(Split(s, c), c) == s
    ensures forall p :: p in Split(s, c) ==> c !in p
  {
    if s != [] {
      JoinSplit(s[1..], c);
      var rest := Split(s[1..], c);
      if s[0] == c {
        assert Split(s, c)[1..] == rest;
        assert Join(Split(s, c), c) == [] + [c] + Join(rest, c);
      } else {
        var parts := Split(s, c);
        assert parts == [[s[0]] + rest[0]] + rest[1..];
        assert parts[1..] == rest[1..];
        if |rest| > 1 {
          assert Join(parts, c) == [s[0]] + rest[0] + [c] + Join(rest[1..], c);
          assert Join(rest, c) == rest[0] + [c] + Join(rest[1..], c);
        }
        assert s == [s[0]] + s[1..];
      }
    }
  }

  lemma {:induction false} UpToFacts(s: string, stops: set<char>)
    ensures forall c :: c in s[..UpTo(s, stops)] ==> c !in stops
    ensures UpTo(s, stops) < |s| ==> s[UpTo(s, stops)] in stops
  {
    if s != [] && s[0] !in stops {
      UpToFacts(s[1..], stops);
      assert s[..UpTo(s, stops)] == [s[0]] + s[1..][..UpTo(s[1..], stops)];
    }
  }

  /** A version text is read as its numbers and its pre-release identifiers. */
  lemma VersionIsRead(v: Shape)
    requires IsVersion(v)
    ensures Numerals(v.core)
    ensures ParseAll(TextOf(v)) == Version(Numbers(v.core), match v.prerelease
                                                            case None => None
                                                            case Some(parts) => Some(Idents(parts)))
  {
    NumeralsIff(v.core);
    var core := Join(v.core, '.');
    var tail := (if v.prerelease.Some? then ['-'] + Join(v.prerelease.value, '.') else []) + v.build;
    JoinFacts(v.core, '-');
    JoinFacts(v.core, '+');
    SplitJoin(v.core, '.');
    UpToAppend(core, tail, {'-', '+'});
    assert TextOf(v) == core + tail;
    assert (core + tail)[..|core|] == core && (core + tail)[|core|..] == tail;
    if v.prerelease.Some? {
      IdentTextsIff(v.prerelease.value);
      PrereleaseIsRead(Numbers(v.core), v.prerelease.value, v.build);
    } else {
      assert tail == v.build;
    }
    assert IsBuild(v.build);
  }

  /** What is read as something is a version text. */
  lemma ReadIsVersion(s: string) returns (v: Shape)
    requires ParseAll(s) != NO_VERSION
    ensures IsVersion(v) && TextOf(v) == s
  {
    var i := UpTo(s, {'-', '+'});
    var (core, tail) := (s[..i], s[i..]);
    JoinSplit(core, '.');
    NumeralsIff(Split(core, '.'));
    assert s == core + tail;
    assert ParseTail(Numbers(Split(core, '.')), tail) != NO_VERSION;
    hide ParseAll, Split, Join, Numerals, IsNumeral, UpTo;
    var prerelease, build := ReadTail(Numbers(Split(core, '.')), tail);
    v := Shape(Split(core, '.'), prerelease, build);
    assert core + (if prerelease.Some? then ['-'] + Join(prerelease.value, '.') else []) + build == core + tail;
  }

  lemma ReadTail(numbers: seq<nat>, tail: string) returns (prerelease: Option<seq<string>>, build: string)
    requires ParseTail(numbers, tail) != NO_VERSION
    ensures prerelease.Some? ==> prerelease.value != [] && forall p :: p in prerelease.value ==> IsIdentifier(p)
    ensures build != [] ==> |build| > 1 && build[0] == '+' && '\n' !in build
    ensures tail == (if prerelease.Some? then ['-'] + Join(prerelease.value, '.') else []) + build
  {
    if tail == [] || tail[0] != '-' {
      prerelease, build := None, tail;
      assert [] + tail == tail;
    } else {
      var j := UpTo(tail[1..], {'+'});
      var pre := tail[1..][..j];
      build := tail[1..][j..];
      JoinSplit(pre, '.');
      IdentTextsIff(Split(pre, '.'));
      prerelease := Some(Split(pre, '.'));
      assert tail == ['-'] + pre + build;
    }
    BreakFree(build);
  }

  lemma BreakFree(build: string)
    requires IsBuild(build)
    ensures build != [] ==> '\n' !in build
  {
    if build != [] {
      assert build == [build[0]] + build[1..];
    }
  }

  /** A text is read as a version if and only if it is one: numerals between dots, then perhaps a hyphen and
      identifiers between dots, then perhaps a plus sign and one line of build metadata. */
  lemma ReadIff(s: string)
    ensures ParseAll(s) != NO_VERSION <==> exists v :: IsVersion(v) && TextOf(v) == s
  {
    if ParseAll(s) != NO_VERSION {
      var v := ReadIsVersion(s);
    }
    if v :| IsVersion(v) && TextOf(v) == s {
      VersionIsRead(v);
      assert v.core != [] && Numbers(v.core) != [];
    }
  }

  /** A line break at the very end does not count, and any other makes the text no version. */
  lemma LineBreakAtTheEnd(s: string)
    ensures SplitVersion(s + ['\n']) == ParseAll(s)
    ensures '\n' in s ==> ParseAll(s) == NO_VERSION
    ensures s == [] || s[|s| - 1] != '\n' ==> SplitVersion(s) == ParseAll(s)
  {
    assert (s + ['\n'])[..|s|] == s;
    if ParseAll(s) != NO_VERSION {
      var v := ReadIsVersion(s);
      forall p | p in v.core ensures '\n' !in p {}
      JoinFacts(v.core, '\n');
      if v.prerelease.Some? {
        JoinFacts(v.prerelease.value, '\n');
      }
    }
  }

  /** Normalising works character by character: letter case goes, and so does every v. */
  lemma NormalizesEachCharacter(s: string, t: string, c: char)
    ensures Normalize(s + t) == Normalize(s) + Normalize(t)
    ensures Normalize([c]) == if c == 'v' || c == 'V' then []
                              else if 'A' <= c <= 'Z' then [(c as int - 'A' as int + 'a' as int) as char] else [c]
  {
    NormalizeAppend(s, t);
    assert [c][1..] == [] && Normalize([]) == [];
  }
}
