/** Link targets as a grammar: the scanner stops exactly after balanced, escape-aware text. */
module LinkTargets {
  import opened LinkScanner

  datatype Piece = Plain(c: char) | Escaped(c: char) | Group(inner: seq<Piece>)

  function RenderPiece(p: Piece): string {
    match p
    case Plain(c) => [c]
    case Escaped(c) => ['\\', c]
    case Group(inner) => "(" + Render(inner) + ")"
  }

  function Render(ps: seq<Piece>): string {
    if ps == [] then "" else RenderPiece(ps[0]) + Render(ps[1..])
  }

  predicate WellFormedPiece(p: Piece) {
    match p
    case Plain(c) => c != '\\' && c != '(' && c != ')'
    case Escaped(_) => true
    case Group(inner) => WellFormed(inner)
  }

  predicate WellFormed(ps: seq<Piece>) {
    ps == [] || (WellFormedPiece(ps[0]) && WellFormed(ps[1..]))
  }

  ghost predicate Balanced(text: string) {
    exists ps :: WellFormed(ps) && Render(ps) == text
  }

  /** `text` occurs in `content` at `index`. */
  predicate OccursAt(content: string, index: nat, text: string) {
    index + |text| <= |content| && content[index..index + |text|] == text
  }

  lemma OccursSplit(content: string, index: nat, a: string, b: string)
    ensures OccursAt(content, index, a + b) <==> OccursAt(content, index, a) && OccursAt(content, index + |a|, b)
  {
    if index + |a| + |b| <= |content| {
      assert content[index..index + |a + b|] == content[index..index + |a|] + content[index + |a|..index + |a + b|];
      assert |content[index..index + |a|]| == |a|;
      assert (a + b)[..|a|] == a && (a + b)[|a|..] == b;
    }
  }

  /** The scanner passes over balanced text at any depth and comes out at the same depth. */
  lemma {:induction false} PassesPiece(content: string, index: nat, depth: nat, p: Piece)
    requires WellFormedPiece(p) && OccursAt(content, index, RenderPiece(p))
    ensures TargetEnd(content, index, depth) == TargetEnd(content, index + |RenderPiece(p)|, depth)
    decreases p, 1
  {
    var text := RenderPiece(p);
    assert content[index] == content[index..index + |text|][0] == text[0];
    match p
    case Plain(c) =>
    case Escaped(c) =>
    case Group(inner) =>
      OccursSplit(content, index, "(" + Render(inner), ")");
      OccursSplit(content, index, "(", Render(inner));
      PassesBalanced(content, index + 1, depth + 1, inner);
      var close := index + 1 + |Render(inner)|;
      assert content[close] == content[close..close + 1][0] == ')';
  }

  lemma {:induction false} PassesBalanced(content: string, index: nat, depth: nat, ps: seq<Piece>)
    requires WellFormed(ps) && OccursAt(content, index, Render(ps))
    ensures TargetEnd(content, index, depth) == TargetEnd(content, index + |Render(ps)|, depth)
    decreases ps, 0
  {
    if ps != [] {
      OccursSplit(content, index, RenderPiece(ps[0]), Render(ps[1..]));
      PassesPiece(content, index, depth, ps[0]);
      PassesBalanced(content, index + |RenderPiece(ps[0])|, depth, ps[1..]);
    }
  }

  /** Several balanced texts, each but the last followed by a closing parenthesis. */
  function Closings(levels: seq<seq<Piece>>): string
    requires levels != []
  {
    if |levels| == 1 then Render(levels[0]) else Render(levels[0]) + ")" + Closings(levels[1..])
  }

  ghost predicate AllWellFormed(levels: seq<seq<Piece>>) {
    levels == [] || (WellFormed(levels[0]) && AllWellFormed(levels[1..]))
  }

  /** One more piece in front of the innermost level. */
  lemma Prepend(p: Piece, levels: seq<seq<Piece>>) returns (longer: seq<seq<Piece>>)
    requires levels != [] && AllWellFormed(levels) && WellFormedPiece(p)
    ensures |longer| == |levels| && AllWellFormed(longer)
    ensures Closings(longer) == RenderPiece(p) + Closings(levels)
  {
    longer := [[p] + levels[0]] + levels[1..];
    assert longer[1..] == levels[1..] && longer[0][1..] == levels[0];
  }

  lemma SplitFirst(content: string, index: nat, end: nat)
    requires index < end <= |content|
    ensures content[index..end] == [content[index]] + content[index + 1..end]
  {
  }

  lemma Regroups(inner: string, after: string)
    ensures "(" + (inner + ")" + after) == "(" + inner + ")" + after
  {
  }

  lemma OneLevel()
    ensures Closings([[]]) == [] && AllWellFormed([[]])
  {
  }

  lemma AnotherLevel(rest: seq<seq<Piece>>)
    requires rest != [] && AllWellFormed(rest)
    ensures Closings([[]] + rest) == ")" + Closings(rest) && AllWellFormed([[]] + rest)
  {
    assert ([[]] + rest)[1..] == rest;
  }

  /** The first level becomes a group in front of the second. */
  lemma GroupFirst(rest: seq<seq<Piece>>) returns (levels: seq<seq<Piece>>)
    requires |rest| >= 2 && AllWellFormed(rest)
    ensures |levels| == |rest| - 1 && AllWellFormed(levels)
    ensures Closings(levels) == "(" + Closings(rest)
  {
    levels := Prepend(Group(rest[0]), rest[1..]);
    Regroups(Render(rest[0]), Closings(rest[1..]));
  }

  /** What the scanner reads from depth `depth` to its end closes `depth` open parentheses. */
  lemma {:induction false} ParseLevels(content: string, index: nat, depth: nat) returns (levels: seq<seq<Piece>>)
    requires TargetEnd(content, index, depth) != -1
    ensures |levels| == depth + 1 && AllWellFormed(levels)
    ensures content[index..TargetEnd(content, index, depth)] == Closings(levels)
    decreases |content| - index
  {
    hide Closings, AllWellFormed;
    var end := TargetEnd(content, index, depth);
    var c := content[index];
    if c == '\\' {
      var rest := ParseLevels(content, index + 2, depth);
      levels := Prepend(Escaped(content[index + 1]), rest);
      SplitFirst(content, index, end);
      SplitFirst(content, index + 1, end);
      assert [c, content[index + 1]] == [c] + [content[index + 1]];
    } else if c == '(' {
      var rest := ParseLevels(content, index + 1, depth + 1);
      levels := GroupFirst(rest);
      SplitFirst(content, index, end);
    } else if c != ')' {
      var rest := ParseLevels(content, index + 1, depth);
      levels := Prepend(Plain(c), rest);
      SplitFirst(content, index, end);
    } else if depth == 0 {
      levels := [[]];
      OneLevel();
    } else {
      var rest := ParseLevels(content, index + 1, depth - 1);
      levels := [[]] + rest;
      AnotherLevel(rest);
      SplitFirst(content, index, end);
    }
  }

  /** The target scan ends at `end` exactly when the text before is balanced and a parenthesis closes it. */
  lemma TargetEndsAfterBalanced(content: string, start: nat, end: nat)
    requires start <= end < |content|
    ensures TargetEnd(content, start, 0) == end <==> content[end] == ')' && Balanced(content[start..end])
  {
    if TargetEnd(content, start, 0) == end {
      var levels := ParseLevels(content, start, 0);
      assert Closings(levels) == Render(levels[0]);
      assert WellFormed(levels[0]) && Render(levels[0]) == content[start..end];
    }
    if content[end] == ')' && Balanced(content[start..end]) {
      var ps :| WellFormed(ps) && Render(ps) == content[start..end];
      PassesBalanced(content, start, 0, ps);
    }
  }
}
