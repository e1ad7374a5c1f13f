/** Rewriting the link targets of a Markdown page outside code. */
module LinkRewriter {
  import opened LinkScanner

  datatype Kind = Text | InlineCode | CodeBlock

  datatype Segment = Segment(kind: Kind, text: string)

  /** A match of one of the two code patterns. */
  datatype Span = Span(start: nat, end: nat)

  /** What `finditer` yields: increasing, disjoint matches inside the text. */
  predicate SpansIn(spans: seq<Span>, from: nat, to: nat) {
    if spans == [] then from <= to
    else from <= spans[0].start <= spans[0].end <= to && SpansIn(spans[1..], spans[0].end, to)
  }

  /** The segments of a stretch without fenced blocks, from position `from` on. */
  function InlineSegments(text: string, inlines: seq<Span>, from: nat): seq<Segment>
    requires SpansIn(inlines, from, |text|)
  {
    if inlines == [] then (if from < |text| then [Segment(Text, text[from..])] else [])
    else
      var s := inlines[0];
      (if s.start > from then [Segment(Text, text[from..s.start])] else [])
      + [Segment(InlineCode, text[s.start..s.end])]
      + InlineSegments(text, inlines[1..], s.end)
  }

  ghost predicate GoodMatcher(inline: string -> seq<Span>) {
    forall t :: SpansIn(inline(t), 0, |t|)
  }

  /** A stretch without fenced blocks. */
  function Unfenced(text: string, inline: string -> seq<Span>): seq<Segment>
    requires GoodMatcher(inline)
  {
    InlineSegments(text, inline(text), 0)
  }

  function Segments(content: string, fences: seq<Span>, inline: string -> seq<Span>, from: nat): seq<Segment>
    requires SpansIn(fences, from, |content|) && GoodMatcher(inline)
  {
    if fences == [] then Unfenced(content[from..], inline)
    else
      Unfenced(content[from..fences[0].start], inline)
      + [Segment(CodeBlock, content[fences[0].start..fences[0].end])]
      + Segments(content, fences[1..], inline, fences[0].end)
  }

  method SplitInline(text: string, inlines: seq<Span>) returns (segments: seq<Segment>)
    requires SpansIn(inlines, 0, |text|)
    ensures segments == InlineSegments(text, inlines, 0)
  {
    segments := [];
    var last: nat := 0;
    var rest := inlines;
    while rest != []
      invariant SpansIn(rest, last, |text|)
      invariant segments + InlineSegments(text, rest, last) == InlineSegments(text, inlines, 0)
    {
      var s := rest[0];
      Associates(segments, if s.start > last then [Segment(Text, text[last..s.start])] else [],
                 Segment(InlineCode, text[s.start..s.end]), InlineSegments(text, rest[1..], s.end));
      if s.start > last {
        segments := segments + [Segment(Text, text[last..s.start])];
      }
      segments := segments + [Segment(InlineCode, text[s.start..s.end])];
      last := s.end;
      rest := rest[1..];
    }
    if last < |text| {
      segments := segments + [Segment(Text, text[last..])];
    }
  }

  method SplitUnfenced(text: string, inline: string -> seq<Span>) returns (segments: seq<Segment>)
    requires GoodMatcher(inline)
    ensures segments == Unfenced(text, inline)
  {
    segments := SplitInline(text, inline(text));
  }

  method IterSegments(content: string, fences: seq<Span>, inline: string -> seq<Span>)
    returns (segments: seq<Segment>)
    requires SpansIn(fences, 0, |content|) && GoodMatcher(inline)
    ensures segments == Segments(content, fences, inline, 0)
  {
    hide GoodMatcher, Unfenced;
    segments := [];
    var lastEnd: nat := 0;
    var rest := fences;
    while rest != []
      invariant SpansIn(rest, lastEnd, |content|)
      invariant segments + Segments(content, rest, inline, lastEnd) == Segments(content, fences, inline, 0)
    {
      var fenced := rest[0];
      var before := content[lastEnd..fenced.start];
      var parts := SplitUnfenced(before, inline);
      Associates(segments, parts, Segment(CodeBlock, content[fenced.start..fenced.end]),
                 Segments(content, rest[1..], inline, fenced.end));
      segments := segments + parts + [Segment(CodeBlock, content[fenced.start..fenced.end])];
      lastEnd := fenced.end;
      rest := rest[1..];
    }
    var parts := SplitUnfenced(content[lastEnd..], inline);
    segments := segments + parts;
  }

  lemma Associates<T>(a: seq<T>, b: seq<T>, c: T, d: seq<T>)
    ensures a + (b + [c] + d) == a + b + [c] + d
  {
  }

  function TextOf(segments: seq<Segment>): string {
    if segments == [] then "" else segments[0].text + TextOf(segments[1..])
  }

  lemma {:induction false} TextOfAppend(a: seq<Segment>, b: seq<Segment>)
    ensures TextOf(a + b) == TextOf(a) + TextOf(b)
  {
    if a == [] {
      assert a + b == b;
    } else {
      assert (a + b)[1..] == a[1..] + b;
      TextOfAppend(a[1..], b);
    }
  }

  lemma TextOfAround(before: seq<Segment>, code: Segment, after: seq<Segment>)
    ensures TextOf(before + [code] + after) == TextOf(before) + code.text + TextOf(after)
  {
    TextOfAppend(before + [code], after);
    TextOfAppend(before, [code]);
  }

  lemma {:induction false} InlineSegmentsCover(text: string, inlines: seq<Span>, from: nat)
    requires SpansIn(inlines, from, |text|)
    ensures TextOf(InlineSegments(text, inlines, from)) == text[from..]
  {
    if inlines != [] {
      var s := inlines[0];
      InlineSegmentsCover(text, inlines[1..], s.end);
      TextOfAround(if s.start > from then [Segment(Text, text[from..s.start])] else [],
                   Segment(InlineCode, text[s.start..s.end]), InlineSegments(text, inlines[1..], s.end));
      assert text[from..] == text[from..s.start] + text[s.start..s.end] + text[s.end..];
    }
  }

  lemma UnfencedCovers(text: string, inline: string -> seq<Span>)
    requires GoodMatcher(inline)
    ensures TextOf(Unfenced(text, inline)) == text
  {
    InlineSegmentsCover(text, inline(text), 0);
  }

  /** Splitting loses nothing: the segments concatenate back to the page. */
  lemma {:induction false} SegmentsCover(content: string, fences: seq<Span>, inline: string -> seq<Span>, from: nat)
    requires SpansIn(fences, from, |content|) && GoodMatcher(inline)
    ensures TextOf(Segments(content, fences, inline, from)) == content[from..]
  {
    hide GoodMatcher, Unfenced;
    if fences == [] {
      UnfencedCovers(content[from..], inline);
    } else {
      var f := fences[0];
      SegmentsCover(content, fences[1..], inline, f.end);
      UnfencedCovers(content[from..f.start], inline);
      TextOfAround(Unfenced(content[from..f.start], inline), Segment(CodeBlock, content[f.start..f.end]),
                   Segments(content, fences[1..], inline, f.end));
      assert content[from..] == content[from..f.start] + content[f.start..f.end] + content[f.end..];
    }
  }

  // ---------------------------------------------------------------- rewriting

  ghost predicate LinksIn(segment: string, links: seq<MarkdownLink>, from: nat) {
    && from <= |segment|
    && Ordered(links, from)
    && forall link :: link in links ==> SpanSplits(segment, link)
  }

  /** The segment from `from` on with every link's target replaced. */
  function Spliced(segment: string, links: seq<MarkdownLink>, from: nat, resolve: string -> string): string
    requires LinksIn(segment, links, from)
  {
    if links == [] then segment[from..]
    else
      var link := links[0];
      assert link in links;
      segment[from..link.start] + (link.prefix + resolve(link.target) + link.suffix)
      + Spliced(segment, links[1..], link.end, resolve)
  }

  lemma LinksAreIn(segment: string)
    ensures LinksIn(segment, LinksFrom(segment, 0), 0)
  {
    SpansAreOrdered(segment, 0, 0);
  }

  function RewrittenSegment(segment: string, resolve: string -> string): string {
    LinksAreIn(segment);
    Spliced(segment, LinksFrom(segment, 0), 0, resolve)
  }

  /** `resolve` stands for `rewrite_link_target`: the page a target resolves to, or the target itself. */
  method RewriteLinksInSegment(segment: string, resolve: string -> string) returns (result: string)
    ensures result == RewrittenSegment(segment, resolve)
  {
    var links := IterMarkdownLinks(segment);
    if links == [] {
      return segment;
    }
    LinksAreIn(segment);
    result := "";
    var previousEnd: nat := 0;
    var rest := links;
    while rest != []
      invariant LinksIn(segment, rest, previousEnd)
      invariant result + Spliced(segment, rest, previousEnd, resolve) == Spliced(segment, links, 0, resolve)
    {
      var link := rest[0];
      assert link in rest;
      result := result + segment[previousEnd..link.start] + (link.prefix + resolve(link.target) + link.suffix);
      previousEnd := link.end;
      rest := rest[1..];
    }
    result := result + segment[previousEnd..];
  }

  function RewrittenSegments(segments: seq<Segment>, resolve: string -> string): string {
    if segments == [] then ""
    else
      (if segments[0].kind == Text then RewrittenSegment(segments[0].text, resolve) else segments[0].text)
      + RewrittenSegments(segments[1..], resolve)
  }

  function RewrittenPage(content: string, fences: seq<Span>, inline: string -> seq<Span>, resolve: string -> string): string
    requires SpansIn(fences, 0, |content|) && GoodMatcher(inline)
  {
    RewrittenSegments(Segments(content, fences, inline, 0), resolve)
  }

  method RewriteLinks(content: string, fences: seq<Span>, inline: string -> seq<Span>, resolve: string -> string)
    returns (output: string)
    requires SpansIn(fences, 0, |content|) && GoodMatcher(inline)
    ensures output == RewrittenPage(content, fences, inline, resolve)
  {
    hide GoodMatcher, SpansIn, RewrittenSegment, Segments;
    output := "";
    var segments := IterSegments(content, fences, inline);
    var rest := segments;
    while rest != []
      invariant output + RewrittenSegments(rest, resolve) == RewrittenSegments(segments, resolve)
    {
      if rest[0].kind == Text {
        var rewritten := RewriteLinksInSegment(rest[0].text, resolve);
        output := output + rewritten;
      } else {
        output := output + rest[0].text;
      }
      rest := rest[1..];
    }
  }

  // ---------------------------------------------------------------- only targets change

  /** A page as the parts rewriting keeps and the link targets it replaces. */
  datatype Chunk = Kept(text: string) | Target(text: string)

  function Original(chunks: seq<Chunk>): string {
    if chunks == [] then "" else chunks[0].text + Original(chunks[1..])
  }

  function Replaced(chunks: seq<Chunk>, resolve: string -> string): string {
    if chunks == [] then ""
    else (if chunks[0].Target? then resolve(chunks[0].text) else chunks[0].text) + Replaced(chunks[1..], resolve)
  }

  lemma {:induction false} OriginalAppend(a: seq<Chunk>, b: seq<Chunk>)
    ensures Original(a + b) == Original(a) + Original(b)
  {
    if a == [] {
      assert a + b == b;
    } else {
      assert (a + b)[1..] == a[1..] + b;
      OriginalAppend(a[1..], b);
    }
  }

  lemma {:induction false} ReplacedAppend(a: seq<Chunk>, b: seq<Chunk>, resolve: string -> string)
    ensures Replaced(a + b, resolve) == Replaced(a, resolve) + Replaced(b, resolve)
  {
    if a == [] {
      assert a + b == b;
    } else {
      assert (a + b)[1..] == a[1..] + b;
      ReplacedAppend(a[1..], b, resolve);
    }
  }

  function LinkChunks(segment: string, links: seq<MarkdownLink>, from: nat): seq<Chunk>
    requires LinksIn(segment, links, from)
  {
    if links == [] then [Kept(segment[from..])]
    else
      var link := links[0];
      assert link in links;
      [Kept(segment[from..link.start] + link.prefix)]
      + ([Target(link.target)] + ([Kept(link.suffix)] + LinkChunks(segment, links[1..], link.end)))
  }

  lemma FirstChunk(c: Chunk, rest: seq<Chunk>, resolve: string -> string)
    ensures Original([c] + rest) == c.text + Original(rest)
    ensures Replaced([c] + rest, resolve) == (if c.Target? then resolve(c.text) else c.text) + Replaced(rest, resolve)
  {
    assert ([c] + rest)[1..] == rest;
  }

  lemma LinkChunkFits(before: string, link: MarkdownLink, rest: seq<Chunk>, resolve: string -> string)
    ensures var chunks := [Kept(before + link.prefix)] + ([Target(link.target)] + ([Kept(link.suffix)] + rest));
            && Original(chunks) == before + (link.prefix + link.target + link.suffix) + Original(rest)
            && Replaced(chunks, resolve)
               == before + (link.prefix + resolve(link.target) + link.suffix) + Replaced(rest, resolve)
  {
    FirstChunk(Kept(link.suffix), rest, resolve);
    FirstChunk(Target(link.target), [Kept(link.suffix)] + rest, resolve);
    FirstChunk(Kept(before + link.prefix), [Target(link.target)] + ([Kept(link.suffix)] + rest), resolve);
  }

  lemma {:induction false} LinkChunksFit(segment: string, links: seq<MarkdownLink>, from: nat, resolve: string -> string)
    requires LinksIn(segment, links, from)
    ensures Original(LinkChunks(segment, links, from)) == segment[from..]
    ensures Replaced(LinkChunks(segment, links, from), resolve) == Spliced(segment, links, from, resolve)
  {
    if links == [] {
      FirstChunk(Kept(segment[from..]), [], resolve);
      assert [Kept(segment[from..])] + [] == [Kept(segment[from..])];
    } else {
      var link := links[0];
      assert link in links;
      LinkChunksFit(segment, links[1..], link.end, resolve);
      LinkChunkFits(segment[from..link.start], link, LinkChunks(segment, links[1..], link.end), resolve);
      assert segment[from..] == segment[from..link.start] + segment[link.start..link.end] + segment[link.end..];
    }
  }

  function PageChunks(segments: seq<Segment>): seq<Chunk> {
    if segments == [] then []
    else
      var s := segments[0];
      (if s.kind == Text then LinksAreIn(s.text); LinkChunks(s.text, LinksFrom(s.text, 0), 0) else [Kept(s.text)])
      + PageChunks(segments[1..])
  }

  lemma {:induction false} PageChunksFit(segments: seq<Segment>, resolve: string -> string)
    ensures Original(PageChunks(segments)) == TextOf(segments)
    ensures Replaced(PageChunks(segments), resolve) == RewrittenSegments(segments, resolve)
  {
    if segments != [] {
      var s := segments[0];
      PageChunksFit(segments[1..], resolve);
      if s.kind == Text {
        LinksAreIn(s.text);
        LinkChunksFit(s.text, LinksFrom(s.text, 0), 0, resolve);
        OriginalAppend(LinkChunks(s.text, LinksFrom(s.text, 0), 0), PageChunks(segments[1..]));
        ReplacedAppend(LinkChunks(s.text, LinksFrom(s.text, 0), 0), PageChunks(segments[1..]), resolve);
      } else {
        FirstChunk(Kept(s.text), PageChunks(segments[1..]), resolve);
      }
    }
  }

  /** Every page is a sequence of kept parts and link targets of its text segments, and rewriting replaces
      those targets and nothing else. */
  lemma RewritingChangesOnlyTargets(content: string, fences: seq<Span>, inline: string -> seq<Span>,
                                    resolve: string -> string)
    requires SpansIn(fences, 0, |content|) && GoodMatcher(inline)
    ensures var chunks := PageChunks(Segments(content, fences, inline, 0));
            && Original(chunks) == content
            && Replaced(chunks, resolve) == RewrittenPage(content, fences, inline, resolve)
  {
    SegmentsCover(content, fences, inline, 0);
    PageChunksFit(Segments(content, fences, inline, 0), resolve);
  }

  lemma {:induction false} KeptTargets(chunks: seq<Chunk>, resolve: string -> string)
    requires forall c :: c in chunks && c.Target? ==> resolve(c.text) == c.text
    ensures Replaced(chunks, resolve) == Original(chunks)
  {
    if chunks != [] {
      KeptTargets(chunks[1..], resolve);
    }
  }

  /** A resolver that leaves the page's own targets alone returns the page unchanged. */
  lemma IdentityResolverKeepsPage(content: string, fences: seq<Span>, inline: string -> seq<Span>,
                                  resolve: string -> string)
    requires SpansIn(fences, 0, |content|) && GoodMatcher(inline)
    requires forall c :: c in PageChunks(Segments(content, fences, inline, 0)) && c.Target? ==> resolve(c.text) == c.text
    ensures RewrittenPage(content, fences, inline, resolve) == content
  {
    RewritingChangesOnlyTargets(content, fences, inline, resolve);
    KeptTargets(PageChunks(Segments(content, fences, inline, 0)), resolve);
  }
}
