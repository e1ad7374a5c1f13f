/** The inline-link scanner of the wiki synchroniser. */
module LinkScanner {
  import opened Options

  /** `str.isspace` of one character. */
  predicate IsSpace(c: char) {
    var n := c as int;
    || 0x09 <= n <= 0x0D || 0x1C <= n <= 0x20 || n == 0x85 || n == 0xA0 || n == 0x1680
    || 0x2000 <= n <= 0x200A || n == 0x2028 || n == 0x2029 || n == 0x202F || n == 0x205F || n == 0x3000
  }

  /** Where a character next occurs. */
  function Find(content: string, c: char, from: nat): (r: int)
    ensures r == -1 || from <= r < |content|
    decreases |content| - from
  {
    if from >= |content| then -1 else if content[from] == c then from else Find(content, c, from + 1)
  }

  lemma {:induction false} FindFirst(content: string, c: char, from: nat)
    ensures Find(content, c, from) == -1 ==> forall k :: from <= k < |content| ==> content[k] != c
    ensures Find(content, c, from) != -1 ==>
              && content[Find(content, c, from)] == c
              && forall k :: from <= k < Find(content, c, from) ==> content[k] != c
    decreases |content| - from
  {
    if from < |content| && content[from] != c {
      FindFirst(content, c, from + 1);
    }
  }

  function SkipSpaces(content: string, i: nat): (r: nat)
    requires i <= |content|
    ensures i <= r <= |content|
    decreases |content| - i
  {
    if i < |content| && IsSpace(content[i]) then SkipSpaces(content, i + 1) else i
  }

  /** Position `k` ends the label: an unescaped `]` with nothing but white space before a `(`. */
  predicate ClosesLabel(content: string, labelStart: nat, k: int) {
    && labelStart < k < |content|
    && content[k] == ']' && content[k - 1] != '\\'
    && var next := SkipSpaces(content, k + 1); next < |content| && content[next] == '('
  }

  /** The least position from `from` on that closes the label, or -1. */
  function LabelEnd(content: string, labelStart: nat, from: nat): (end: int)
    requires labelStart < from
    ensures end == -1 || from <= end < |content|
    decreases |content| - from
  {
    if from >= |content| then -1
    else if ClosesLabel(content, labelStart, from) then from
    else LabelEnd(content, labelStart, from + 1)
  }

  lemma {:induction false} LabelEndIsFirst(content: string, labelStart: nat, from: nat)
    requires labelStart < from
    ensures var end := LabelEnd(content, labelStart, from);
            if end == -1 then forall k :: from <= k ==> !ClosesLabel(content, labelStart, k)
            else && ClosesLabel(content, labelStart, end)
                 && forall k :: from <= k < end ==> !ClosesLabel(content, labelStart, k)
    decreases |content| - from
  {
    if from < |content| && !ClosesLabel(content, labelStart, from) {
      LabelEndIsFirst(content, labelStart, from + 1);
    }
  }

  /** The label ends at the first position that closes it. */
  method FindLabelEnd(content: string, labelStart: nat) returns (end: int)
    requires labelStart < |content|
    ensures end == LabelEnd(content, labelStart, labelStart + 1)
  {
    var index := labelStart + 1;
    while index < |content|
      invariant labelStart < index <= |content|
      invariant LabelEnd(content, labelStart, labelStart + 1) == LabelEnd(content, labelStart, index)
    {
      var close := Find(content, ']', index);
      FindFirst(content, ']', index);
      LabelEndSkips(content, labelStart, index, if close == -1 then |content| else close);
      if close == -1 {
        return -1;
      }
      if close > labelStart && content[close - 1] == '\\' {
        index := close + 1;
        continue;
      }
      var lookahead := close + 1;
      while lookahead < |content| && IsSpace(content[lookahead])
        invariant close < lookahead <= |content|
        invariant SkipSpaces(content, close + 1) == SkipSpaces(content, lookahead)
      {
        lookahead := lookahead + 1;
      }
      if lookahead < |content| && content[lookahead] == '(' {
        return close;
      }
      index := close + 1;
    }
    return -1;
  }

  lemma {:induction false} LabelEndSkips(content: string, labelStart: nat, from: nat, to: nat)
    requires labelStart < from <= to <= |content|
    requires forall k :: from <= k < to ==> content[k] != ']'
    ensures LabelEnd(content, labelStart, from) == LabelEnd(content, labelStart, to)
    decreases |content| - from
  {
    if from < to {
      LabelEndSkips(content, labelStart, from + 1, to);
    }
  }

  /** The `)` that closes a target scanned from `index` at nesting `depth`, or -1. */
  function TargetEnd(content: string, index: nat, depth: nat): (end: int)
    ensures end != -1 ==> index <= end < |content| && content[end] == ')'
    decreases |content| - index
  {
    if index >= |content| then -1
    else if content[index] == '\\' then TargetEnd(content, index + 2, depth)
    else if content[index] == '(' then TargetEnd(content, index + 1, depth + 1)
    else if content[index] != ')' then TargetEnd(content, index + 1, depth)
    else if depth == 0 then index
    else TargetEnd(content, index + 1, depth - 1)
  }

  method FindTargetEnd(content: string, targetStart: nat) returns (end: int)
    ensures end == TargetEnd(content, targetStart, 0)
  {
    var depth: nat := 0;
    var index := targetStart;
    while index < |content|
      invariant TargetEnd(content, targetStart, 0) == TargetEnd(content, index, depth)
      decreases |content| - index
    {
      var character := content[index];
      if character == '\\' {
        index := index + 2;
        continue;
      }
      if character == '(' {
        depth := depth + 1;
      } else if character == ')' {
        if depth == 0 {
          return index;
        }
        depth := depth - 1;
      }
      index := index + 1;
    }
    return -1;
  }

  datatype MarkdownLink = MarkdownLink(start: nat, end: nat, prefix: string, target: string, suffix: string)

  /** Where a link whose label ends at `labelEnd` has its target start, just after the `(`. */
  function TargetStart(content: string, labelEnd: nat): nat
    requires labelEnd < |content|
  {
    SkipSpaces(content, labelEnd + 1) + 1
  }

  datatype Attempt = Done | Retry(next: nat) | Yield(link: MarkdownLink, next: nat)

  function LinkStart(content: string, labelStart: nat): nat
    requires labelStart < |content|
  {
    if labelStart > 0 && content[labelStart - 1] == '!' then labelStart - 1 else labelStart
  }

  function LinkAt(content: string, labelStart: nat, targetStart: nat, targetEnd: nat): MarkdownLink
    requires labelStart < targetStart <= targetEnd < |content|
  {
    var start := LinkStart(content, labelStart);
    MarkdownLink(start, targetEnd + 1, content[start..targetStart], content[targetStart..targetEnd], ")")
  }

  /** One round of the scan: nothing left, no link here, or a link. */
  function TryLink(content: string, index: nat): (r: Attempt)
    ensures r.Retry? ==> index < r.next <= |content|
    ensures r.Yield? ==> index < r.next <= |content|
  {
    var labelStart := Find(content, '[', index);
    if labelStart == -1 then Done
    else
      var labelEnd := LabelEnd(content, labelStart, labelStart + 1);
      if labelEnd == -1 then Retry(labelStart + 1)
      else
        var targetStart := TargetStart(content, labelEnd);
        var targetEnd := TargetEnd(content, targetStart, 0);
        if targetEnd == -1 then Retry(labelEnd + 1)
        else Yield(LinkAt(content, labelStart, targetStart, targetEnd), targetEnd + 1)
  }

  /** The links yielded from `index` on. */
  function LinksFrom(content: string, index: nat): seq<MarkdownLink>
    decreases |content| - index
  {
    match TryLink(content, index)
    case Done => []
    case Retry(next) => LinksFrom(content, next)
    case Yield(link, next) => [link] + LinksFrom(content, next)
  }

  /** One round of the generator's loop. */
  method NextAttempt(content: string, index: nat) returns (r: Attempt)
    ensures r == TryLink(content, index)
  {
    hide TargetEnd, LabelEnd, Find, LinkAt;
    var labelStart := Find(content, '[', index);
    if labelStart == -1 {
      return Done;
    }
    var labelEnd := FindLabelEnd(content, labelStart);
    if labelEnd == -1 {
      return Retry(labelStart + 1);
    }
    LabelEndIsFirst(content, labelStart, labelStart + 1);
    var targetStart := labelEnd + 1;
    while targetStart < |content| && IsSpace(content[targetStart])
      invariant labelEnd < targetStart <= |content|
      invariant SkipSpaces(content, labelEnd + 1) == SkipSpaces(content, targetStart)
    {
      targetStart := targetStart + 1;
    }
    targetStart := targetStart + 1;
    var targetEnd := FindTargetEnd(content, targetStart);
    if targetEnd == -1 {
      return Retry(labelEnd + 1);
    }
    return Yield(LinkAt(content, labelStart, targetStart, targetEnd), targetEnd + 1);
  }

  method IterMarkdownLinks(content: string) returns (links: seq<MarkdownLink>)
    ensures links == LinksFrom(content, 0)
  {
    links := [];
    var index := 0;
    ghost var rest := LinksFrom(content, 0);
    while index < |content|
      invariant 0 <= index <= |content|
      invariant rest == LinksFrom(content, index)
      invariant links + rest == LinksFrom(content, 0)
      decreases |content| - index
    {
      var attempt := NextAttempt(content, index);
      match attempt {
        case Done => break;
        case Retry(next) => index := next;
        case Yield(link, next) =>
          links, index, rest := links + [link], next, rest[1..];
      }
    }
  }

  // ---------------------------------------------------------------- what is scanned

  /** A link's span is its label part, its target and a closing parenthesis. */
  ghost predicate SpanSplits(content: string, link: MarkdownLink) {
    && link.start < link.end <= |content|
    && link.suffix == ")"
    && link.prefix != [] && link.prefix[|link.prefix| - 1] == '('
    && content[link.start..link.end] == link.prefix + link.target + link.suffix
  }

  ghost predicate Ordered(links: seq<MarkdownLink>, from: nat) {
    links == [] || (from <= links[0].start < links[0].end && Ordered(links[1..], links[0].end))
  }

  lemma SpanOfLinkAt(content: string, labelStart: nat, targetStart: nat, targetEnd: nat)
    requires labelStart < targetStart <= targetEnd < |content|
    requires content[targetStart - 1] == '(' && content[targetEnd] == ')'
    ensures SpanSplits(content, LinkAt(content, labelStart, targetStart, targetEnd))
  {
    var link := LinkAt(content, labelStart, targetStart, targetEnd);
    assert content[link.start..link.end]
        == content[link.start..targetStart] + content[targetStart..targetEnd] + content[targetEnd..targetEnd + 1];
  }

  lemma YieldedParts(content: string, index: nat) returns (labelStart: nat, targetStart: nat, targetEnd: nat)
    requires TryLink(content, index).Yield?
    ensures index <= labelStart < targetStart <= targetEnd < |content|
    ensures content[targetStart - 1] == '(' && content[targetEnd] == ')'
    ensures TryLink(content, index) == Yield(LinkAt(content, labelStart, targetStart, targetEnd), targetEnd + 1)
  {
    hide TargetEnd, LabelEnd, Find, LinkAt;
    labelStart := Find(content, '[', index);
    var labelEnd := LabelEnd(content, labelStart, labelStart + 1);
    LabelEndIsFirst(content, labelStart, labelStart + 1);
    targetStart := TargetStart(content, labelEnd);
    targetEnd := TargetEnd(content, targetStart, 0);
  }

  lemma YieldedSpan(content: string, index: nat)
    requires TryLink(content, index).Yield?
    ensures var Yield(link, next) := TryLink(content, index);
            && SpanSplits(content, link) && link.end == next && content[next - 1] == ')'
            && index <= link.start + 1 && (link.start < index ==> content[link.start] == '!')
  {
    hide SpanSplits, TryLink;
    var labelStart, targetStart, targetEnd := YieldedParts(content, index);
    SpanOfLinkAt(content, labelStart, targetStart, targetEnd);
  }

  /** Spans are increasing and disjoint, the image look-back included: a link starts at or after the end of the
      one before it, and splits into its label part, its target and a closing parenthesis. */
  lemma {:induction false} SpansAreOrdered(content: string, index: nat, from: nat)
    requires from <= index && (from == 0 || (from <= |content| && content[from - 1] == ')'))
    ensures Ordered(LinksFrom(content, index), from)
    ensures forall link :: link in LinksFrom(content, index) ==> SpanSplits(content, link)
    decreases |content| - index
  {
    match TryLink(content, index)
    case Done =>
    case Retry(next) => SpansAreOrdered(content, next, from);
    case Yield(link, next) =>
      YieldedSpan(content, index);
      SpansAreOrdered(content, next, next);
      assert LinksFrom(content, index)[1..] == LinksFrom(content, next);
  }
}
