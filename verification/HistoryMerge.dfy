/** Merging another sender's complete turns into one turn's snapshot, by fingerprint only. */
module HistoryMerge {
  import opened Options
  import opened PyValues

  type History = seq<Value>

  /** The text-free fingerprint of one message. */
  datatype Fingerprint = Fingerprint(role: Option<Value>, contentLength: nat, toolCalls: bool, checkpoint: bool)

  type Summary = seq<Fingerprint>

  /** A key of a message, if it has it; history messages are dictionaries. */
  function MessageGet(message: Value, key: string): Option<Value> {
    match message
    case Dict(fields) => Lookup(fields, key)
    case _ => None
  }

  function ContentLength(content: Option<Value>): nat {
    match content
    case Some(Str(s)) => |s|
    case Some(List(items)) => |items|
    case _ => 0
  }

  function FingerprintOf(message: Value): Fingerprint {
    var role := MessageGet(message, "role");
    Fingerprint(
      role,
      ContentLength(MessageGet(message, "content")),
      Truthy(MessageGet(message, "tool_calls").GetOr(Null)),
      role == Some(Str("_checkpoint")))
  }

  function Summarize(history: History): Summary {
    seq(|history|, i requires 0 <= i < |history| => FingerprintOf(history[i]))
  }

  method SummarizeHistory(history: History) returns (summary: Summary)
    ensures summary == Summarize(history)
  {
    summary := [];
    for i := 0 to |history|
      invariant summary == Summarize(history)[..i]
    {
      summary := summary + [FingerprintOf(history[i])];
    }
  }

  predicate HistoriesEqual(left: History, right: History) {
    Summarize(left) == Summarize(right) && |left| == |right|
  }

  predicate IsPrefix(latest: History, base: History) {
    |latest| >= |base| && HistoriesEqual(latest[..|base|], base)
  }

  predicate IsUser(message: Value) {
    MessageGet(message, "role") == Some(Str("user"))
  }

  /** The last user message of a snapshot, where its own unit is taken to start. */
  function UnitStart(snapshot: History): Option<int> {
    if snapshot == [] then None
    else if IsUser(snapshot[|snapshot| - 1]) then Some(|snapshot| - 1)
    else UnitStart(snapshot[..|snapshot| - 1])
  }

  method FindUnitStart(snapshot: History) returns (start: Option<int>)
    ensures start == UnitStart(snapshot)
  {
    var index := |snapshot| - 1;
    assert snapshot[..|snapshot|] == snapshot;
    while index >= 0
      invariant -1 <= index < |snapshot|
      invariant UnitStart(snapshot) == UnitStart(snapshot[..index + 1])
    {
      if IsUser(snapshot[index]) {
        return Some(index);
      }
      assert snapshot[..index + 1][..index] == snapshot[..index];
      index := index - 1;
    }
    start := None;
  }

  /** The guard before any merge is attempted. */
  predicate Anchored(newHistory: History, unitStart: Option<int>, expectedTotal: Option<int>) {
    && unitStart.Some?
    && expectedTotal.Some?
    && 0 <= unitStart.value < |newHistory|
    && |newHistory| == expectedTotal.value
    && IsUser(newHistory[unitStart.value])
  }

  function Merge(newHistory: History, unitStart: Option<int>, expectedTotal: Option<int>, base: History,
                 loaded: Option<History>, receipt: Option<Summary>): History
  {
    if !Anchored(newHistory, unitStart, expectedTotal) || loaded.None? then newHistory
    else
      var latest := loaded.value;
      if HistoriesEqual(latest, base) then newHistory
      else if receipt != Some(Summarize(latest)) then newHistory
      else
        var unit := newHistory[unitStart.value..];
        if IsPrefix(latest, base) then newHistory[..unitStart.value] + latest[|base|..] + unit
        else latest + unit
  }

  lemma SummaryOfPrefix(base: History, latest: History)
    requires base <= latest
    ensures IsPrefix(latest, base)
    ensures HistoriesEqual(latest, base) <==> latest == base
  {
    assert latest[..|base|] == base;
    if HistoriesEqual(latest, base) {
      assert latest == latest[..|base|];
    }
  }

  /** What one merge does to a snapshot that is its base followed by the turn's own unit: whatever is stored, the
      result is the stored history followed by the unit if and only if nothing was stored since, or the stored
      history could be reloaded, is the one this process wrote last, and its fingerprint tells the truth about the
      base: it differs from the base's, and starts like it only if the stored history starts with the base. */
  lemma MergeAppendsIff(base: History, unit: History, latest: History, loaded: Option<History>,
                        receipt: Option<Summary>)
    requires unit != [] && IsUser(unit[0])
    requires loaded == None || loaded == Some(latest)
    ensures Merge(base + unit, Some(|base|), Some(|base + unit|), base, loaded, receipt) == latest + unit
            <==> || latest == base
                 || (&& loaded.Some? && receipt == Some(Summarize(latest))
                     && !HistoriesEqual(latest, base) && (base <= latest || !IsPrefix(latest, base)))
  {
    var snapshot := base + unit;
    assert snapshot[|base|] == unit[0];
    assert snapshot[..|base|] == base && snapshot[|base|..] == unit;
    SameEndMeansSameStart(latest, base, unit);
    if loaded.Some? && IsPrefix(latest, base) {
      SameEndMeansSameStart(base + latest[|base|..], latest, unit);
      assert base <= latest <==> base + latest[|base|..] == latest;
    }
  }

  lemma SameEndMeansSameStart(a: History, b: History, unit: History)
    ensures a + unit == b + unit <==> a == b
  {
    if a + unit == b + unit {
      assert |a + unit| == |b + unit|;
      assert a == (a + unit)[..|a|] == (b + unit)[..|b|] == b;
    }
  }

  /** The snapshot's anchor: a user message of the new history, which has the expected length. */
  ghost predicate AnchorFits(newHistory: History, unitStart: Option<int>, expectedTotal: Option<int>) {
    exists i: nat :: unitStart == Some(i) && i < |newHistory| && expectedTotal == Some(|newHistory|)
                     && MessageGet(newHistory[i], "role") == Some(Str("user"))
  }

  /** The new history is stored as it is if its anchor does not fit, nothing could be reloaded, what is stored looks
      like the base, or the receipt is not that of what is stored. Otherwise the other turns come in: what is stored
      behind the base goes before the unit if the base looks like a prefix, and all that is stored does if not. */
  lemma MergesExactly(newHistory: History, unitStart: Option<int>, expectedTotal: Option<int>, base: History,
                      loaded: Option<History>, receipt: Option<Summary>)
    ensures var merged := Merge(newHistory, unitStart, expectedTotal, base, loaded, receipt);
            && (!AnchorFits(newHistory, unitStart, expectedTotal) || loaded.None? ==> merged == newHistory)
            && (loaded.Some? && (HistoriesEqual(loaded.value, base) || receipt != Some(Summarize(loaded.value))) ==>
                  merged == newHistory)
            && (AnchorFits(newHistory, unitStart, expectedTotal) && loaded.Some?
                && !HistoriesEqual(loaded.value, base) && receipt == Some(Summarize(loaded.value)) ==>
                  && 0 <= unitStart.value < |newHistory|
                  && merged
                     == (if IsPrefix(loaded.value, base)
                         then newHistory[..unitStart.value] + loaded.value[|base|..] + newHistory[unitStart.value..]
                         else loaded.value + newHistory[unitStart.value..]))
  {
    if Anchored(newHistory, unitStart, expectedTotal) {
      var i: nat := unitStart.value;
      assert unitStart == Some(i);
    }
  }

  /** A history that was rewritten since (its fingerprint no longer starts with the base's) is extended by
      the unit and the old base is not resurrected. */
  lemma RewrittenHistoryIsExtended(newHistory: History, unitStart: int, base: History, latest: History)
    requires Anchored(newHistory, Some(unitStart), Some(|newHistory|))
    requires !IsPrefix(latest, base)
    ensures Merge(newHistory, Some(unitStart), Some(|newHistory|), base, Some(latest), Some(Summarize(latest)))
            == latest + newHistory[unitStart..]
  {
    assert latest[..|latest|] == latest;
  }

  /** The merge when `others` were stored after the base and the receipt is current. */
  function MergedOver(base: History, others: History, newHistory: History, unitStart: int): History {
    Merge(newHistory, Some(unitStart), Some(|newHistory|), base, Some(base + others),
          Some(Summarize(base + others)))
  }

  lemma MergedOverIs(base: History, others: History, turn: History, start: int)
    requires |base| <= start < |base + turn| && IsUser((base + turn)[start])
    ensures MergedOver(base, others, base + turn, start)
            == base + turn[..start - |base|] + others + turn[start - |base|..]
  {
    var new_ := base + turn;
    SummaryOfPrefix(base, base + others);
    assert new_[..start] == base + turn[..start - |base|];
    assert new_[start..] == turn[start - |base|..];
    assert (base + others)[|base|..] == others;
    if base + others == base {
      assert others == [];
      assert new_ == base + turn[..start - |base|] + others + turn[start - |base|..];
    }
  }

  /** Whatever the turn looks like, no message of any sender is lost or repeated. */
  lemma MergeConservesMessages(base: History, others: History, turn: History, start: int)
    requires |base| <= start < |base + turn| && IsUser((base + turn)[start])
    ensures multiset(MergedOver(base, others, base + turn, start))
            == multiset(base + others) + multiset(turn)
  {
    MergedOverIs(base, others, turn, start);
    var k := start - |base|;
    assert turn == turn[..k] + turn[k..];
    assert multiset(turn) == multiset(turn[..k]) + multiset(turn[k..]);
  }

  /** Order survives for every history of other senders if and only if the anchor is the turn's first message. */
  lemma TurnStaysWholeIff(base: History, turn: History, start: int)
    requires |base| <= start < |base + turn| && IsUser((base + turn)[start])
    ensures (forall others: History ::
              MergedOver(base, others, base + turn, start) == base + others + turn)
            <==> start == |base|
  {
    if start == |base| {
      forall others: History
        ensures MergedOver(base, others, base + turn, start) == base + others + turn
      {
        MergedOverIs(base, others, turn, start);
        assert turn[..0] == [] && turn[0..] == turn && base + [] == base;
      }
    } else {
      var other := if turn[0] == Null then Bool(true) else Null;
      var k := start - |base|;
      MergedOverIs(base, [other], turn, start);
      assert (base + turn[..k] + [other] + turn[k..])[|base|] == turn[0];
      assert (base + [other] + turn)[|base|] == other;
      assert MergedOver(base, [other], base + turn, start) != base + [other] + turn;
    }
  }

  /** The anchor computed from a snapshot is its first own message exactly when that message is the
      turn's only user message. */
  lemma {:induction false} UnitStartIsTurnStart(base: History, turn: History)
    requires turn != []
    ensures UnitStart(base + turn) == Some(|base|)
            <==> IsUser(turn[0]) && forall i :: 1 <= i < |turn| ==> !IsUser(turn[i])
    decreases |turn|
  {
    var s := base + turn;
    var n := |turn| - 1;
    assert s[|s| - 1] == turn[n];
    assert s[..|s| - 1] == base + turn[..n];
    if n == 0 {
      if !IsUser(turn[0]) {
        UnitStartBounded(s[..|s| - 1]);
      }
    } else if !IsUser(turn[n]) {
      UnitStartIsTurnStart(base, turn[..n]);
      assert forall i :: 1 <= i < |turn| ==> i == n || turn[i] == turn[..n][i];
      assert forall i :: 1 <= i < n ==> turn[..n][i] == turn[i];
    }
  }

  lemma {:induction false} UnitStartBounded(snapshot: History)
    ensures UnitStart(snapshot).Some? ==>
              0 <= UnitStart(snapshot).value < |snapshot| && IsUser(snapshot[UnitStart(snapshot).value])
  {
    if snapshot != [] && !IsUser(snapshot[|snapshot| - 1]) {
      UnitStartBounded(snapshot[..|snapshot| - 1]);
    }
  }

  /** The number of characters of a text content, of parts of a list content, and zero for anything else. */
  ghost predicate HasSize(fields: seq<Field>, size: nat) {
    || (exists text :: Lookup(fields, "content") == Some(Str(text)) && size == |text|)
    || (exists parts :: Lookup(fields, "content") == Some(List(parts)) && size == |parts|)
    || (&& size == 0 && (forall text :: Lookup(fields, "content") != Some(Str(text)))
        && forall parts :: Lookup(fields, "content") != Some(List(parts)))
  }

  ghost predicate CallsTools(fields: seq<Field>) {
    Lookup(fields, "tool_calls").Some? && Truthy(Lookup(fields, "tool_calls").value)
  }

  /** Two messages of the same shape: the same role, contents of the same size, and both or neither call tools. */
  ghost predicate SameShape(a: Value, b: Value) {
    && a.Dict? && b.Dict?
    && Lookup(a.fields, "role") == Lookup(b.fields, "role")
    && (exists size :: HasSize(a.fields, size) && HasSize(b.fields, size))
    && (CallsTools(a.fields) <==> CallsTools(b.fields))
  }

  lemma SizeIs(fields: seq<Field>, size: nat)
    ensures HasSize(fields, size) <==> size == ContentLength(MessageGet(Dict(fields), "content"))
  {
    match Lookup(fields, "content") {
      case Some(Str(text)) =>
      case Some(List(parts)) =>
      case _ =>
    }
  }

  lemma SameShapeIff(a: Value, b: Value)
    requires a.Dict? && b.Dict?
    ensures FingerprintOf(a) == FingerprintOf(b) <==> SameShape(a, b)
  {
    hide HasSize, ContentLength;
    SizeIs(a.fields, ContentLength(MessageGet(a, "content")));
    SizeIs(b.fields, ContentLength(MessageGet(b, "content")));
    forall size ensures HasSize(a.fields, size) && HasSize(b.fields, size) ==>
                          ContentLength(MessageGet(a, "content")) == ContentLength(MessageGet(b, "content"))
    {
      SizeIs(a.fields, size);
      SizeIs(b.fields, size);
    }
  }

  /** Two histories look alike to the merge if and only if they are equally long and their messages have the same
      shapes; and a history starts like another if its first messages do. */
  lemma LookAlikeIff(latest: History, base: History)
    requires (forall m :: m in latest ==> m.Dict?) && forall m :: m in base ==> m.Dict?
    ensures HistoriesEqual(latest, base)
            <==> |latest| == |base| && forall i :: 0 <= i < |base| ==> SameShape(latest[i], base[i])
    ensures IsPrefix(latest, base)
            <==> |latest| >= |base| && forall i :: 0 <= i < |base| ==> SameShape(latest[i], base[i])
  {
    hide FingerprintOf, SameShape;
    forall i | 0 <= i < |base| && i < |latest|
      ensures FingerprintOf(latest[i]) == FingerprintOf(base[i]) <==> SameShape(latest[i], base[i])
    {
      SameShapeIff(latest[i], base[i]);
    }
    SummariesEqualIff(latest, base);
    if |latest| >= |base| {
      SummariesEqualIff(latest[..|base|], base);
    }
  }

  lemma SummariesEqualIff(a: History, b: History)
    ensures Summarize(a) == Summarize(b)
            <==> |a| == |b| && forall i :: 0 <= i < |b| ==> FingerprintOf(a[i]) == FingerprintOf(b[i])
  {
    hide FingerprintOf;
    if Summarize(a) == Summarize(b) {
      assert |a| == |Summarize(a)| == |Summarize(b)| == |b|;
      forall i | 0 <= i < |b| ensures FingerprintOf(a[i]) == FingerprintOf(b[i]) {
        assert Summarize(a)[i] == Summarize(b)[i];
      }
    }
  }

  function TextMessage(role: string, text: string): Value {
    Dict([Field("role", Str(role)), Field("content", Str(text))])
  }

  /** The role decides who a message is from. */
  lemma UserMessages(role: string, text: string)
    ensures IsUser(TextMessage(role, text)) <==> role == "user"
  {
    assert Lookup(TextMessage(role, text).fields, "role") == Some(Str(role));
  }

  /** The fingerprint is lossy: a stored history that differs from the base only in its text is taken for
      the base, and the stored text is overwritten. */
  lemma SameShapeDifferentTextIsLost()
    ensures var latest := [TextMessage("user", "ab")];
            var base := [TextMessage("user", "xy")];
            var unit := [TextMessage("user", "q")];
            && Merge(base + unit, Some(1), Some(2), base, Some(latest), Some(Summarize(latest))) == base + unit
            && latest[0] !in base + unit
  {
    var latest := [TextMessage("user", "ab")];
    var base := [TextMessage("user", "xy")];
    var unit := [TextMessage("user", "q")];
    assert FingerprintOf(latest[0]) == FingerprintOf(base[0]) by {
      assert Lookup(latest[0].fields, "content") == Some(Str("ab"));
      assert Lookup(base[0].fields, "content") == Some(Str("xy"));
    }
    assert HistoriesEqual(latest, base);
    assert latest[0].fields[1].value.s[0] != base[0].fields[1].value.s[0];
    assert latest[0].fields[1].value.s[0] != unit[0].fields[1].value.s[0];
  }
}
