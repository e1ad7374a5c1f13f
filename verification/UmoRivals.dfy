/** Which stored routes win for the UMO they spell: exactly those without empty or glob segments. */
module UmoRivals {
  import opened Options
  import opened OrderedDicts
  import opened GlobPatterns
  import opened UmoRouter

  /** Each glob character in brackets of its own, so that it stands for itself. */
  function EscapeGlob(segment: string): string {
    if segment == [] then []
    else if IsGlobChar(segment[0]) then ['[', segment[0], ']'] + EscapeGlob(segment[1..])
    else [segment[0]] + EscapeGlob(segment[1..])
  }

  function RivalSegment(segment: string): string {
    if segment == "" then "*" else EscapeGlob(segment)
  }

  /** One bracketed glob character at the start of a pattern. */
  lemma BracketedToken(g: char, rest: string)
    requires IsGlobChar(g)
    ensures Tokens(['[', g, ']'] + rest) == [OneOf(false, [Range(g, g)])] + Tokens(rest)
  {
    var p := ['[', g, ']'] + rest;
    assert SetStart(p) == 1;
    assert CloseFrom(p, 2) == 2;
    assert SetClose(p) == 2;
    assert p[1..2] == [g] && p[3..] == rest;
    assert [g][1..] == [];
    assert Ranges([g]) == [Range(g, g)];
  }

  lemma InOneRange(c: char, g: char)
    ensures InRanges(c, [Range(g, g)]) <==> c == g
  {
    assert [Range(g, g)][1..] == [];
    assert !InRanges(c, []);
  }

  /** An escaped text is a pattern that matches the text. */
  lemma {:induction false} EscapedMatches(segment: string)
    ensures FnMatch(segment, EscapeGlob(segment))
  {
    if segment != [] {
      var rest := EscapeGlob(segment[1..]);
      EscapedMatches(segment[1..]);
      if IsGlobChar(segment[0]) {
        BracketedToken(segment[0], rest);
        InOneRange(segment[0], segment[0]);
        assert Tokens(EscapeGlob(segment))[1..] == Tokens(rest);
      } else {
        assert EscapeGlob(segment)[1..] == rest;
        assert Tokens(EscapeGlob(segment))[1..] == Tokens(rest);
      }
    }
  }

  lemma GlobHeadIsNotLiteral(g: char, rest: string)
    requires IsGlobChar(g)
    ensures LiteralLength([g] + rest) == LiteralLength(rest)
  {
    assert ([g] + rest)[1..] == rest;
  }

  /** Escaping adds no literal characters and keeps glob ones. */
  lemma {:induction false} EscapedLiterals(segment: string)
    ensures LiteralLength(EscapeGlob(segment)) == LiteralLength(segment)
    ensures HasGlob(segment) ==> HasGlob(EscapeGlob(segment))
  {
    if segment != [] {
      var (g, rest, e) := (segment[0], EscapeGlob(segment[1..]), EscapeGlob(segment));
      EscapedLiterals(segment[1..]);
      if IsGlobChar(g) {
        assert e == ['['] + ([g] + ([']'] + rest));
        GlobHeadIsNotLiteral('[', [g] + ([']'] + rest));
        GlobHeadIsNotLiteral(g, [']'] + rest);
        GlobHeadIsNotLiteral(']', rest);
      } else {
        assert e[1..] == rest;
      }
    }
  }

  /** Escaping changes a text only if it has glob characters, and adds no colon. */
  lemma {:induction false} EscapedShape(segment: string)
    ensures |EscapeGlob(segment)| >= |segment|
    ensures if HasGlob(segment) then |EscapeGlob(segment)| > |segment| else EscapeGlob(segment) == segment
    ensures ':' in EscapeGlob(segment) ==> ':' in segment
  {
    if segment != [] {
      EscapedShape(segment[1..]);
      assert segment == [segment[0]] + segment[1..];
    }
  }

  lemma StarMatchesAll(s: string)
    ensures FnMatch(s, "*")
  {
    assert "*"[1..] == [];
    assert Tokens("*") == [Star];
    StarTakesAll(s);
  }

  lemma {:induction false} StarTakesAll(s: string)
    ensures MatchTokens([Star], s)
  {
    assert [Star][1..] == [];
    if s != [] {
      StarTakesAll(s[1..]);
    }
  }

  /** The rival of a segment matches it, ranks at least as high, and differs from it unless it is literal. */
  lemma RivalSegmentFacts(segment: string)
    ensures SegmentMatch(RivalSegment(segment), segment)
    ensures SegmentPriority(RivalSegment(segment)).0 >= SegmentPriority(segment).0
    ensures SegmentPriority(RivalSegment(segment)).1 >= SegmentPriority(segment).1
    ensures RivalSegment(segment) == segment <==> segment != "" && !HasGlob(segment)
    ensures ':' in RivalSegment(segment) ==> ':' in segment
  {
    if segment == "" {
      StarMatchesAll(segment);
    } else {
      EscapedMatches(segment);
      EscapedLiterals(segment);
      EscapedShape(segment);
      if segment == "*" {
        assert "*"[1..] == [];
        assert LiteralLength("*") == 0;
      }
    }
  }

  function Rival(p: Parts): string {
    RivalSegment(p.platform) + ":" + (RivalSegment(p.kind) + ":" + RivalSegment(p.session))
  }

  lemma RivalFacts(umo: string)
    requires SplitUmo(umo).Some?
    ensures var rival := Rival(SplitUmo(umo).value);
            && SplitUmo(rival).Some? && IsUmoMatch(rival, umo)
            && !Less(RoutePriority(rival), RoutePriority(umo))
            && (rival == umo ==> IsLiteralUmo(umo))
  {
    hide RivalSegment, SegmentMatch, SegmentPriority, HasGlob, Partition;
    var p := SplitUmo(umo).value;
    RivalSegmentFacts(p.platform);
    RivalSegmentFacts(p.kind);
    RivalSegmentFacts(p.session);
    NoColons(umo);
    SplitOfParts(RivalSegment(p.platform), RivalSegment(p.kind), RivalSegment(p.session));
  }

  lemma NoColons(umo: string)
    requires SplitUmo(umo).Some?
    ensures ':' !in SplitUmo(umo).value.platform && ':' !in SplitUmo(umo).value.kind
  {
  }

  /** Every table that stores the UMO as a route gives it that route's configuration. */
  ghost predicate OwnRouteAlwaysWins(umo: string) {
    forall routes | ValidRoutes(routes) && Has(routes, umo) :: ConfIdFor(routes, umo) == Get(routes, umo)
  }

  lemma TwoRoutes(u: string, c: string, v: string, d: string)
    requires u != v && ValidRoute(u, c) && ValidRoute(v, d)
    ensures ValidRoutes([(u, c), (v, d)]) && Get([(u, c), (v, d)], v) == Some(d)
  {
    var routes := Put(Put([], u, c), v, d);
    PutIsValid([], u, c);
    PutIsValid(Put([], u, c), v, d);
    GetPut(Put([], u, c), v, d, v);
    assert Put([], u, c) == [(u, c)];
    assert [(u, c)][1..] == [];
    assert routes == [(u, c), (v, d)];
  }

  lemma RivalWins(rival: string, umo: string)
    requires SplitUmo(umo).Some? && SplitUmo(rival).Some? && rival != umo
    requires IsUmoMatch(rival, umo) && !Less(RoutePriority(rival), RoutePriority(umo))
    ensures !OwnRouteAlwaysWins(umo)
  {
    hide IsUmoMatch, RoutePriority, Less, SplitUmo;
    var (first, second) := ((rival, "a"), (umo, "b"));
    var routes := [first, second];
    TwoRoutes(rival, "a", umo, "b");
    assert routes[..1] == [first] && [first][..0] == [];
    assert Ranked([first]) == InsertRanked([], first) == [first];
    assert InsertRanked([first], second) == [first] + InsertRanked([first][1..], second);
    assert Ranked(routes)[0] == first;
    assert ConfIdFor(routes, umo) == Some("a");
  }

  /** A stored route always wins for the UMO it spells if and only if all three segments are non-empty and free of
      glob characters. */
  lemma OwnRouteWinsIff(umo: string)
    requires SplitUmo(umo).Some?
    ensures OwnRouteAlwaysWins(umo) <==> IsLiteralUmo(umo)
  {
    if IsLiteralUmo(umo) {
      forall routes | ValidRoutes(routes) && Has(routes, umo) ensures ConfIdFor(routes, umo) == Get(routes, umo) {
        ExactRouteWins(routes, umo);
      }
    } else {
      RivalFacts(umo);
      RivalWins(Rival(SplitUmo(umo).value), umo);
    }
  }
}
