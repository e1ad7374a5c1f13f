/** Patterns as they are written: characters, wildcards and bracketed sets, and the texts they match. */
module GlobGrammar {
  import opened GlobPatterns

  /** A member of a set: a character, or all characters from one to another. */
  datatype Member = One(c: char) | Span(low: char, high: char)

  datatype Item = Same(c: char) | AnyOne | AnyMany | OneFrom(negated: bool, members: seq<Member>)

  function SpellMember(m: Member): string {
    match m
    case One(c) => [c]
    case Span(low, high) => [low, '-', high]
  }

  function SpellMembers(ms: seq<Member>): string {
    if ms == [] then [] else SpellMember(ms[0]) + SpellMembers(ms[1..])
  }

  function SpellItem(i: Item): string {
    match i
    case Same(c) => [c]
    case AnyOne => ['?']
    case AnyMany => ['*']
    case OneFrom(negated, members) => (if negated then ['[', '!'] else ['[']) + SpellMembers(members) + [']']
  }

  function Spell(items: seq<Item>): string {
    if items == [] then [] else SpellItem(items[0]) + Spell(items[1..])
  }

  /** No character of its own is followed by a hyphen that would make a range of it. */
  predicate Unambiguous(ms: seq<Member>) {
    ms == [] ||
    (&& Unambiguous(ms[1..])
     && (ms[0].One? ==> var rest := SpellMembers(ms[1..]); !(|rest| >= 2 && rest[0] == '-')))
  }

  predicate WellFormed(i: Item) {
    match i
    case Same(c) => c != '*' && c != '?' && c != '['
    case OneFrom(negated, members) =>
      && members != [] && Unambiguous(members)
      && var text := SpellMembers(members); text != [] && ']' !in text[1..] && (!negated ==> text[0] != '!')
    case _ => true
  }

  predicate AllWellFormed(items: seq<Item>) {
    items == [] || (WellFormed(items[0]) && AllWellFormed(items[1..]))
  }

  // ---------------------------------------------------------------- what an item matches

  ghost predicate IsMember(ms: seq<Member>, c: char) {
    exists m :: m in ms && Takes(m, c)
  }

  predicate Takes(m: Member, c: char) {
    match m
    case One(d) => c == d
    case Span(low, high) => low <= c <= high
  }

  ghost predicate Fits(i: Item, piece: string) {
    match i
    case Same(c) => piece == [c]
    case AnyOne => |piece| == 1
    case AnyMany => true
    case OneFrom(negated, members) => |piece| == 1 && (IsMember(members, piece[0]) <==> !negated)
  }

  ghost predicate AllFit(items: seq<Item>, pieces: seq<string>)
    decreases |items|
  {
    |items| == |pieces| && (items == [] || (Fits(items[0], pieces[0]) && AllFit(items[1..], pieces[1..])))
  }

  // ---------------------------------------------------------------- reading a pattern

  function RangeOf(m: Member): Range {
    match m
    case One(c) => Range(c, c)
    case Span(low, high) => Range(low, high)
  }

  function RangesOf(ms: seq<Member>): seq<Range> {
    if ms == [] then [] else [RangeOf(ms[0])] + RangesOf(ms[1..])
  }

  lemma {:induction false} RangesAreMembers(ms: seq<Member>)
    requires Unambiguous(ms)
    ensures Ranges(SpellMembers(ms)) == RangesOf(ms)
  {
    if ms != [] {
      var (s, rest) := (SpellMembers(ms), SpellMembers(ms[1..]));
      RangesAreMembers(ms[1..]);
      match ms[0]
      case One(c) =>
        assert s[1..] == rest;
      case Span(low, high) =>
        assert s == [low, '-', high] + rest && s[3..] == rest;
    }
  }

  lemma {:induction false} InRangesIff(ms: seq<Member>, c: char)
    ensures InRanges(c, RangesOf(ms)) <==> IsMember(ms, c)
  {
    if ms != [] {
      InRangesIff(ms[1..], c);
      assert RangesOf(ms)[1..] == RangesOf(ms[1..]);
      assert forall m :: m in ms <==> m == ms[0] || m in ms[1..];
      assert Takes(ms[0], c) <==> RangeOf(ms[0]).low <= c <= RangeOf(ms[0]).high;
    }
  }

  lemma {:induction false} ClosesAt(p: string, j: nat, k: nat)
    requires j <= k < |p| && p[k] == ']' && forall i :: j <= i < k ==> p[i] != ']'
    ensures CloseFrom(p, j) == k
    decreases k - j
  {
    if j < k {
      ClosesAt(p, j + 1, k);
    }
  }

  /** A set at the start of a pattern ends at its own bracket. */
  lemma SetIsRead(negated: bool, text: string, rest: string)
    requires text != [] && ']' !in text[1..] && (!negated ==> text[0] != '!')
    ensures var p := (if negated then ['[', '!'] else ['[']) + text + [']'] + rest;
            Tokens(p) == [OneOf(negated, Ranges(text))] + Tokens(rest)
  {
    var head := if negated then ['[', '!'] else ['['];
    var p := head + text + [']'] + rest;
    var close := |head| + |text|;
    assert p[|head|] == text[0] && p[close] == ']' && p[|head|..close] == text && p[close + 1..] == rest;
    assert SetStart(p) == |head|;
    forall i | |head| + 1 <= i < close ensures p[i] != ']' {
      assert p[i] == text[1..][i - |head| - 1];
    }
    if text[0] == ']' {
      ClosesAt(p, |head| + 1, close);
    } else {
      ClosesAt(p, |head|, close);
    }
    assert SetClose(p) == close;
  }

  function TokenOf(i: Item): Token {
    match i
    case Same(c) => Literal(c)
    case AnyOne => AnyChar
    case AnyMany => Star
    case OneFrom(negated, members) => OneOf(negated, RangesOf(members))
  }

  function TokensOf(items: seq<Item>): seq<Token> {
    if items == [] then [] else [TokenOf(items[0])] + TokensOf(items[1..])
  }

  lemma {:induction false} SpelledTokens(items: seq<Item>)
    requires AllWellFormed(items)
    ensures Tokens(Spell(items)) == TokensOf(items)
  {
    if items != [] {
      var rest := Spell(items[1..]);
      SpelledTokens(items[1..]);
      match items[0]
      case OneFrom(negated, members) =>
        RangesAreMembers(members);
        SetIsRead(negated, SpellMembers(members), rest);
      case _ =>
        assert Spell(items)[1..] == rest;
    }
  }

  lemma {:induction false} CutsFit(items: seq<Item>, pieces: seq<string>)
    ensures Cut(TokensOf(items), pieces) <==> AllFit(items, pieces)
    decreases |items|
  {
    if items != [] && pieces != [] {
      CutsFit(items[1..], pieces[1..]);
      assert TokensOf(items)[1..] == TokensOf(items[1..]);
      if items[0].OneFrom? && |pieces[0]| == 1 {
        InRangesIff(items[0].members, pieces[0][0]);
      }
    }
  }

  /** A text matches a written pattern if and only if it can be cut into one piece for each item: the same character,
      any character, any text, or a character that is, or is not, in the set. */
  lemma WrittenMatchesIff(s: string, items: seq<Item>)
    requires AllWellFormed(items)
    ensures FnMatch(s, Spell(items)) <==> exists pieces :: AllFit(items, pieces) && Joined(pieces) == s
  {
    SpelledTokens(items);
    MatchesIff(s, Spell(items));
    if pieces :| Cut(Tokens(Spell(items)), pieces) && Joined(pieces) == s {
      CutsFit(items, pieces);
    }
    if pieces :| AllFit(items, pieces) && Joined(pieces) == s {
      CutsFit(items, pieces);
    }
  }

  /** An opening bracket that no later bracket can close stands for itself. */
  lemma UnclosedBracketIsItself(rest: string)
    requires ']' !in rest
    ensures Tokens(['['] + rest) == [Literal('[')] + Tokens(rest)
  {
    var p := ['['] + rest;
    assert p[1..] == rest;
    NeverCloses(p, SetStart(p));
  }

  lemma {:induction false} NeverCloses(p: string, j: nat)
    requires 0 < j <= |p| && ']' !in p[1..]
    ensures CloseFrom(p, j) == |p|
    decreases |p| - j
  {
    if j < |p| {
      assert p[j] == p[1..][j - 1];
      NeverCloses(p, j + 1);
    }
  }
}
