/** `fnmatch.fnmatchcase`: literals, `*`, `?` and bracketed character sets. */
module GlobPatterns {
  datatype Range = Range(low: char, high: char)

  datatype Token =
    | Literal(c: char)
    | AnyChar
    | Star
    | OneOf(negated: bool, ranges: seq<Range>)

  /** Where the `]` that closes a set stands; the first character after `[` or `[!` never closes it. */
  function CloseFrom(p: string, j: nat): nat
    requires j <= |p|
    ensures j <= CloseFrom(p, j) <= |p|
    decreases |p| - j
  {
    if j == |p| || p[j] == ']' then j else CloseFrom(p, j + 1)
  }

  function SetStart(p: string): nat
    requires p != []
  {
    if |p| > 1 && p[1] == '!' then 2 else 1
  }

  function SetClose(p: string): nat
    requires p != []
    ensures 1 <= SetClose(p) <= |p|
  {
    var j := SetStart(p);
    CloseFrom(p, if j < |p| && p[j] == ']' then j + 1 else j)
  }

  /** The members of a set: `a-z` is a range, a hyphen at either end stands for itself. */
  function Ranges(s: string): seq<Range> {
    if s == [] then []
    else if |s| >= 3 && s[1] == '-' then [Range(s[0], s[2])] + Ranges(s[3..])
    else [Range(s[0], s[0])] + Ranges(s[1..])
  }

  function Tokens(p: string): seq<Token>
    decreases |p|
  {
    if p == [] then []
    else if p[0] == '*' then [Star] + Tokens(p[1..])
    else if p[0] == '?' then [AnyChar] + Tokens(p[1..])
    else if p[0] == '[' && SetClose(p) < |p| && SetStart(p) <= SetClose(p) then
      [OneOf(SetStart(p) == 2, Ranges(p[SetStart(p)..SetClose(p)]))] + Tokens(p[SetClose(p) + 1..])
    else [Literal(p[0])] + Tokens(p[1..])
  }

  predicate InRanges(c: char, rs: seq<Range>) {
    rs != [] && (rs[0].low <= c <= rs[0].high || InRanges(c, rs[1..]))
  }

  predicate Accepts(t: Token, c: char) {
    match t
    case Literal(d) => c == d
    case AnyChar => true
    case Star => true
    case OneOf(negated, rs) => InRanges(c, rs) != negated
  }

  predicate MatchTokens(ts: seq<Token>, s: string)
    decreases |ts|, |s|
  {
    if ts == [] then s == []
    else if ts[0].Star? then MatchTokens(ts[1..], s) || (s != [] && MatchTokens(ts, s[1..]))
    else s != [] && Accepts(ts[0], s[0]) && MatchTokens(ts[1..], s[1..])
  }

  predicate FnMatch(s: string, pattern: string) {
    MatchTokens(Tokens(pattern), s)
  }

  predicate IsGlobChar(c: char) {
    c == '*' || c == '?' || c == '[' || c == ']'
  }

  predicate HasGlob(p: string) {
    p != [] && (IsGlobChar(p[0]) || HasGlob(p[1..]))
  }

  /** A pattern without glob characters matches itself and nothing else. */
  lemma {:induction false} LiteralMatchesItself(s: string, pattern: string)
    requires !HasGlob(pattern)
    ensures FnMatch(s, pattern) <==> s == pattern
    decreases |pattern|
  {
    if pattern != [] && s != [] {
      LiteralMatchesItself(s[1..], pattern[1..]);
      assert s == [s[0]] + s[1..] && pattern == [pattern[0]] + pattern[1..];
      assert Tokens(pattern)[1..] == Tokens(pattern[1..]);
    }
  }

  /** A set with one character in it matches that character only, so never its own three-character spelling. */
  lemma BracketMatchesOneCharacter(c: char, s: string)
    requires c != '!' && c != ']'
    ensures FnMatch(s, ['[', c, ']']) <==> s == [c]
  {
    var p := ['[', c, ']'];
    assert SetStart(p) == 1 && CloseFrom(p, 1) == CloseFrom(p, 2) == 2;
    assert SetClose(p) == 2;
    assert p[SetStart(p)..SetClose(p)] == [c] && p[SetClose(p) + 1..] == [];
    var ts := Tokens(p);
    assert [c][1..] == [] && Ranges([c]) == [Range(c, c)];
    assert p[0] == '[' && SetClose(p) < |p|;
    assert ts == [OneOf(false, Ranges(p[SetStart(p)..SetClose(p)]))] + Tokens(p[SetClose(p) + 1..]);
    assert Tokens([]) == [];
    assert ts == [OneOf(false, [Range(c, c)])];
    assert ts[1..] == [];
    if s != [] {
      assert !InRanges(s[0], [Range(c, c)][1..]);
      assert InRanges(s[0], [Range(c, c)]) <==> c <= s[0] <= c;
      assert Accepts(ts[0], s[0]) <==> s[0] == c;
      assert MatchTokens([], s[1..]) <==> s[1..] == [];
      assert s == [s[0]] + s[1..];
      assert FnMatch(s, p) <==> s[0] == c && s[1..] == [];
    }
  }

  /** The matcher against a reference: some way of cutting the text, one piece for each token. */
  ghost predicate Cut(ts: seq<Token>, pieces: seq<string>)
    decreases |ts|
  {
    |ts| == |pieces| &&
    (ts == [] || ((ts[0].Star? || (|pieces[0]| == 1 && Accepts(ts[0], pieces[0][0]))) && Cut(ts[1..], pieces[1..])))
  }

  function Joined(pieces: seq<string>): string {
    if pieces == [] then [] else pieces[0] + Joined(pieces[1..])
  }

  lemma {:induction false} MatchIsCut(ts: seq<Token>, s: string) returns (pieces: seq<string>)
    ensures MatchTokens(ts, s) ==> Cut(ts, pieces) && Joined(pieces) == s
    decreases |ts|, |s|
  {
    pieces := [];
    if MatchTokens(ts, s) && ts != [] {
      if !ts[0].Star? {
        var rest := MatchIsCut(ts[1..], s[1..]);
        pieces := [[s[0]]] + rest;
        assert pieces[1..] == rest;
      } else if MatchTokens(ts[1..], s) {
        var rest := MatchIsCut(ts[1..], s);
        pieces := [[]] + rest;
        assert pieces[1..] == rest;
      } else {
        var rest := MatchIsCut(ts, s[1..]);
        pieces := [[s[0]] + rest[0]] + rest[1..];
        assert pieces[1..] == rest[1..];
        assert Joined(pieces) == [s[0]] + (rest[0] + Joined(rest[1..]));
      }
    }
  }

  lemma {:induction false} CutIsMatch(ts: seq<Token>, pieces: seq<string>)
    requires Cut(ts, pieces)
    ensures MatchTokens(ts, Joined(pieces))
    decreases |ts|, if pieces == [] then 0 else |pieces[0]|
  {
    if ts != [] {
      var s := Joined(pieces);
      if !ts[0].Star? {
        CutIsMatch(ts[1..], pieces[1..]);
        assert s[1..] == Joined(pieces[1..]);
      } else if pieces[0] == [] {
        CutIsMatch(ts[1..], pieces[1..]);
        assert s == Joined(pieces[1..]);
      } else {
        var shorter := [pieces[0][1..]] + pieces[1..];
        assert shorter[1..] == pieces[1..];
        CutIsMatch(ts, shorter);
        assert s[1..] == Joined(shorter);
      }
    }
  }

  /** A text matches a pattern if and only if it can be cut into pieces the tokens accept. */
  lemma MatchesIff(s: string, pattern: string)
    ensures FnMatch(s, pattern) <==> exists pieces :: Cut(Tokens(pattern), pieces) && Joined(pieces) == s
  {
    if FnMatch(s, pattern) {
      var pieces := MatchIsCut(Tokens(pattern), s);
    }
    if pieces :| Cut(Tokens(pattern), pieces) && Joined(pieces) == s {
      CutIsMatch(Tokens(pattern), pieces);
    }
  }
}
