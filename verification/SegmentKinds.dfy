/** Which characters of a page are text, inline code or in a fenced block. */
module SegmentKinds {
  import opened Options
  import opened LinkScanner
  import opened LinkRewriter

  /** The kind of the segment that holds a position of the concatenated segments. */
  function KindAt(segments: seq<Segment>, i: nat): Option<Kind> {
    if segments == [] then None
    else if i < |segments[0].text| then Some(segments[0].kind)
    else KindAt(segments[1..], i - |segments[0].text|)
  }

  ghost predicate Within(spans: seq<Span>, i: nat) {
    exists s :: s in spans && s.start <= i < s.end
  }

  /** A stretch of the page from `a` to `b` between fenced blocks, or at an end of the page. */
  ghost predicate Stretch(fences: seq<Span>, from: nat, to: nat, a: nat, b: nat) {
    && from <= a <= b <= to
    && (a == from || exists f :: f in fences && f.end == a)
    && (b == to || exists f :: f in fences && f.start == b)
    && forall f :: f in fences ==> f.end <= a || f.start >= b
  }

  lemma {:induction false} KindAtAppend(a: seq<Segment>, b: seq<Segment>, i: nat)
    ensures KindAt(a + b, i)
            == if i < |TextOf(a)| then KindAt(a, i) else KindAt(b, i - |TextOf(a)|)
  {
    if a == [] {
      assert a + b == b;
    } else {
      assert (a + b)[1..] == a[1..] + b;
      if i >= |a[0].text| {
        KindAtAppend(a[1..], b, i - |a[0].text|);
      }
    }
  }

  lemma KindAtAround(before: seq<Segment>, code: Segment, after: seq<Segment>, i: nat)
    ensures KindAt(before + [code] + after, i)
            == var n := |TextOf(before)|;
               if i < n then KindAt(before, i)
               else if i < n + |code.text| then Some(code.kind)
               else KindAt(after, i - n - |code.text|)
  {
    KindAtAppend(before + [code], after, i);
    KindAtAppend(before, [code], i);
    TextOfAppend(before, [code]);
    assert [code][1..] == [];
    assert TextOf([code]) == code.text;
  }

  lemma {:induction false} SpansBehind(spans: seq<Span>, from: nat, to: nat)
    requires SpansIn(spans, from, to)
    ensures from <= to && forall s :: s in spans ==> from <= s.start <= s.end <= to
  {
    if spans != [] {
      SpansBehind(spans[1..], spans[0].end, to);
    }
  }

  lemma WithinRest(spans: seq<Span>, i: nat)
    requires spans != []
    ensures Within(spans, i) <==> (spans[0].start <= i < spans[0].end) || Within(spans[1..], i)
  {
    assert spans == [spans[0]] + spans[1..];
    assert spans[0] in spans;
  }

  /** A stretch without fenced blocks: inline code is what the inline matches cover. */
  lemma {:induction false} InlineKinds(text: string, inlines: seq<Span>, from: nat, i: nat)
    requires SpansIn(inlines, from, |text|) && from <= i < |text|
    ensures KindAt(InlineSegments(text, inlines, from), i - from)
            == Some(if Within(inlines, i) then InlineCode else Text)
  {
    if inlines == [] {
    } else {
      var s := inlines[0];
      var before := if s.start > from then [Segment(Text, text[from..s.start])] else [];
      var code := Segment(InlineCode, text[s.start..s.end]);
      assert |TextOf(before)| == s.start - from by {
        if s.start > from {
          assert before[1..] == [];
        }
      }
      KindAtAround(before, code, InlineSegments(text, inlines[1..], s.end), i - from);
      WithinRest(inlines, i);
      SpansBehind(inlines[1..], s.end, |text|);
      if i >= s.end {
        InlineKinds(text, inlines[1..], s.end, i);
      }
    }
  }

  /** A character in a fenced block is in a code block. */
  lemma {:induction false} FencedKind(content: string, fences: seq<Span>, inline: string -> seq<Span>, from: nat, i: nat)
    requires SpansIn(fences, from, |content|) && GoodMatcher(inline) && from <= i < |content| && Within(fences, i)
    ensures KindAt(Segments(content, fences, inline, from), i - from) == Some(CodeBlock)
  {
    hide GoodMatcher, Unfenced;
    var f := fences[0];
    WithinRest(fences, i);
    SpansBehind(fences[1..], f.end, |content|);
    UnfencedCovers(content[from..f.start], inline);
    KindAtAround(Unfenced(content[from..f.start], inline), Segment(CodeBlock, content[f.start..f.end]),
                 Segments(content, fences[1..], inline, f.end), i - from);
    if i >= f.end {
      FencedKind(content, fences[1..], inline, f.end, i);
    }
  }

  lemma StretchKind(text: string, inline: string -> seq<Span>, i: nat)
    requires GoodMatcher(inline) && i < |text|
    ensures KindAt(Unfenced(text, inline), i) == Some(if Within(inline(text), i) then InlineCode else Text)
  {
    InlineKinds(text, inline(text), 0, i);
  }

  /** Elsewhere a character is inline code if the inline pattern, on the stretch between fenced blocks that holds it,
      matches over it, and text otherwise. */
  lemma {:induction false} UnfencedKind(content: string, fences: seq<Span>, inline: string -> seq<Span>, from: nat,
                                        a: nat, b: nat, i: nat)
    requires SpansIn(fences, from, |content|) && GoodMatcher(inline)
    requires Stretch(fences, from, |content|, a, b) && a <= i < b
    ensures KindAt(Segments(content, fences, inline, from), i - from)
            == Some(if Within(inline(content[a..b]), i - a) then InlineCode else Text)
  {
    hide GoodMatcher, Unfenced;
    if fences == [] {
      StretchKind(content[from..], inline, i - from);
      assert content[a..b] == content[from..];
    } else {
      var f := fences[0];
      SpansBehind(fences[1..], f.end, |content|);
      assert f in fences;
      UnfencedCovers(content[from..f.start], inline);
      KindAtAround(Unfenced(content[from..f.start], inline), Segment(CodeBlock, content[f.start..f.end]),
                   Segments(content, fences[1..], inline, f.end), i - from);
      if f.end <= a {
        LaterStretch(fences, from, |content|, a, b);
        UnfencedKind(content, fences[1..], inline, f.end, a, b, i);
      } else {
        FirstStretch(fences, from, |content|, a, b);
        StretchKind(content[from..f.start], inline, i - from);
      }
    }
  }

  lemma LaterStretch(fences: seq<Span>, from: nat, to: nat, a: nat, b: nat)
    requires SpansIn(fences, from, to) && fences != [] && Stretch(fences, from, to, a, b) && fences[0].end <= a < b
    ensures Stretch(fences[1..], fences[0].end, to, a, b)
  {
    assert forall f :: f in fences <==> f == fences[0] || f in fences[1..];
  }

  lemma FirstStretch(fences: seq<Span>, from: nat, to: nat, a: nat, b: nat)
    requires SpansIn(fences, from, to) && fences != [] && Stretch(fences, from, to, a, b)
    requires a < b && fences[0].end > a
    ensures a == from && b == fences[0].start
  {
    assert fences[0] in fences;
    SpansBehind(fences[1..], fences[0].end, to);
    assert forall f :: f in fences <==> f == fences[0] || f in fences[1..];
  }

  lemma {:induction false} NoEmptyInline(text: string, inlines: seq<Span>, from: nat)
    requires SpansIn(inlines, from, |text|)
    ensures forall s :: s in InlineSegments(text, inlines, from) && s.kind == Text ==> s.text != []
  {
    if inlines != [] {
      NoEmptyInline(text, inlines[1..], inlines[0].end);
    }
  }

  /** No text segment is empty. */
  lemma {:induction false} NoEmptyText(content: string, fences: seq<Span>, inline: string -> seq<Span>, from: nat)
    requires SpansIn(fences, from, |content|) && GoodMatcher(inline)
    ensures forall s :: s in Segments(content, fences, inline, from) && s.kind == Text ==> s.text != []
  {
    var stretch := if fences == [] then content[from..] else content[from..fences[0].start];
    assert SpansIn(inline(stretch), 0, |stretch|);
    NoEmptyInline(stretch, inline(stretch), 0);
    if fences != [] {
      NoEmptyText(content, fences[1..], inline, fences[0].end);
    }
  }
}
