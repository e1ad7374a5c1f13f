/** Every run of one group: nothing is injected twice or out of order. */
module GroupContextRuns {
  import opened Options
  import opened NoRepeats
  import opened Subsequences
  import opened GroupContext

  /** A message and the id it was recorded under. */
  datatype Message = Message(id: string, text: string)

  function Texts(ms: seq<Message>): seq<string> {
    seq(|ms|, i requires 0 <= i < |ms| => ms[i].text)
  }

  function Ids(ms: seq<Message>): seq<string> {
    seq(|ms|, i requires 0 <= i < |ms| => ms[i].id)
  }

  /** The deques of a group that stores exactly these messages. */
  function Stores(ms: seq<Message>): Group {
    Group(Texts(ms), Ids(ms))
  }

  datatype Action =
    | Arrives(message: Message, maxCount: nat)
    | Requests(extras: Extras)
    | Removes

  datatype Sys = Sys(group: Group, arrived: seq<Message>, injected: seq<string>)

  function Step(s: Sys, a: Action): Sys {
    match a
    case Arrives(m, maxCount) => s.(group := Received(s.group, m.text, m.id, maxCount), arrived := s.arrived + [m])
    case Requests(x) => s.(group := Consumed(s.group, x), injected := s.injected + Injected(s.group, x))
    case Removes => s.(group := EMPTY)
  }

  /** The message limit is positive, and a request carries nothing or what `handle_message` set: an index that is
      not negative. */
  predicate Proper(a: Action) {
    match a
    case Arrives(_, maxCount) => maxCount > 0
    case Requests(x) => NoExtras(x) || x.rawIdx.GetOr(-1) >= 0
    case Removes => true
  }

  /** The deques hold the same messages, and the injected ones followed by the stored ones are a subsequence of the
      arrivals. */
  ghost predicate Inv(s: Sys, taken: seq<Message>, stored: seq<Message>) {
    s.group == Stores(stored) && s.injected == Texts(taken) && Sub(taken + stored, s.arrived)
  }

  function After(s: Sys, actions: seq<Action>): Sys
    decreases |actions|
  {
    if actions == [] then s else After(Step(s, actions[0]), actions[1..])
  }

  lemma {:induction false} PartHasNoRepeat<T>(a: seq<T>, b: seq<T>)
    requires Sub(a, b) && NoRepeat(b)
    ensures NoRepeat(a)
    decreases |b|
  {
    if a != [] {
      if Sub(a, b[1..]) {
        PartHasNoRepeat(a, b[1..]);
      } else {
        PartHasNoRepeat(a[1..], b[1..]);
        if a[0] in a[1..] {
          Elements(a[1..], b[1..], a[0]);
          assert false;
        }
      }
    }
  }

  lemma {:induction false} PartIsNoLonger<T>(a: seq<T>, b: seq<T>)
    requires Sub(a, b)
    ensures |a| <= |b|
    decreases |b|
  {
    if a != [] {
      if Sub(a, b[1..]) {
        PartIsNoLonger(a, b[1..]);
      } else {
        PartIsNoLonger(a[1..], b[1..]);
      }
    }
  }

  lemma ReceivedStores(stored: seq<Message>, m: Message, maxCount: nat)
    requires maxCount > 0
    ensures Received(Stores(stored), m.text, m.id, maxCount) == Stores(Last(stored + [m], maxCount))
  {
    assert Texts(stored) + [m.text] == Texts(stored + [m]);
    assert Ids(stored) + [m.id] == Ids(stored + [m]);
    var all := stored + [m];
    assert Last(Texts(all), maxCount) == Texts(Last(all, maxCount));
    assert DropFirst(Ids(all), Excess(Texts(all), maxCount)) == Ids(Last(all, maxCount));
  }

  lemma ConsumedStores(stored: seq<Message>, x: Extras)
    ensures var p := PromptIdx(Stores(stored), x);
            Skipped(Stores(stored), x) ||
            (&& Injected(Stores(stored), x) == Texts(Before(stored, p))
             && Consumed(Stores(stored), x) == Stores(From(stored, p + 1)))
  {
    var p := PromptIdx(Stores(stored), x);
    assert Before(Texts(stored), p) == Texts(Before(stored, p));
    assert From(Texts(stored), p + 1) == Texts(From(stored, p + 1));
    assert From(Ids(stored), p + 1) == Ids(From(stored, p + 1));
  }

  lemma PrefixAndSuffix<T>(s: seq<T>, i: nat, j: nat)
    requires i <= j <= |s|
    ensures Sub(s[..i] + s[j..], s)
  {
    WithoutMiddle(s[..i], s[i..j], s[j..]);
    assert s[..i] + s[i..j] + s[j..] == s;
  }

  /** Injecting by a stale or negative position keeps every record at most once, unless the position is -1 and at
      least two records are stored: then the slice after it starts at the front again. */
  lemma NothingTwiceIff(stored: seq<Message>, x: Extras)
    requires !Skipped(Stores(stored), x)
    ensures Sub(Injected(Stores(stored), x) + Consumed(Stores(stored), x).records, Texts(stored))
            <==> !(PromptIdx(Stores(stored), x) == -1 && |stored| >= 2)
  {
    var p := PromptIdx(Stores(stored), x);
    var t := Texts(stored);
    if p == -1 && |stored| >= 2 {
      assert |Before(t, p)| + |From(t, p + 1)| > |t|;
      if Sub(Before(t, p) + From(t, p + 1), t) {
        PartIsNoLonger(Before(t, p) + From(t, p + 1), t);
        assert false;
      }
    } else {
      PrefixAndSuffix(t, Bound(|t|, p), Bound(|t|, p + 1));
    }
  }

  /** While the triggering record is stored, the block is what precedes it and what remains is what follows it. */
  lemma BlockIsExact(stored: seq<Message>, x: Extras, i: nat)
    requires i < |stored| && x.recordId == Some(stored[i].id) && NoRepeat(Ids(stored))
    ensures Injected(Stores(stored), x) == Texts(stored[..i])
    ensures Consumed(Stores(stored), x) == Stores(stored[i + 1..])
  {
    assert Ids(stored)[i] == stored[i].id;
    FirstIndex(Ids(stored), i);
    ConsumedStores(stored, x);
  }

  /** When the triggering record is not stored, the remembered index stands for it if it is within the records; an
      index beyond them, or a request that carries nothing, changes nothing; a negative one counts from the end, and
      -1, which also stands for a missing one, keeps all records. */
  lemma IndexIsExact(g: Group, x: Extras)
    requires |g.ids| == |g.records| && (x.recordId.None? || x.recordId.value !in g.ids)
    ensures var (n, p) := (|g.records|, x.rawIdx.GetOr(-1));
            if 0 <= p < n then Injected(g, x) == g.records[..p] && Consumed(g, x) == Group(g.records[p + 1..], g.ids[p + 1..])
            else if p >= n || n == 0 || x.recordId.None? then Injected(g, x) == [] && Consumed(g, x) == g
            else if p == -1 then Injected(g, x) == g.records[..n - 1] && Consumed(g, x) == g
            else if -n <= p then Injected(g, x) == g.records[..n + p]
                                 && Consumed(g, x) == Group(g.records[n + p + 1..], g.ids[n + p + 1..])
            else Injected(g, x) == [] && Consumed(g, x) == g
  {
    assert g.records[0..] == g.records && g.ids[0..] == g.ids;
  }

  lemma {:induction false} FirstIndex(ids: seq<string>, i: nat)
    requires i < |ids| && NoRepeat(ids)
    ensures IndexOf(ids, ids[i]) == i
    decreases |ids|
  {
    if i > 0 {
      assert ids[1..][i - 1] == ids[i];
      FirstIndex(ids[1..], i - 1);
    }
  }

  lemma ArrivalKeepsInv(s: Sys, m: Message, maxCount: nat, taken: seq<Message>, stored: seq<Message>)
    requires Inv(s, taken, stored) && maxCount > 0
    ensures Inv(Step(s, Arrives(m, maxCount)), taken, Last(stored + [m], maxCount))
  {
    hide Texts, Ids;
    var all := stored + [m];
    var kept := Last(all, maxCount);
    ReceivedStores(stored, m, maxCount);
    Reflexive([m]);
    Joined(taken + stored, s.arrived, [m], [m]);
    assert taken + stored + [m] == taken + all;
    var k := |all| - |kept|;
    WithoutMiddle(taken, all[..k], kept);
    assert all == all[..k] + kept;
    assert taken + all[..k] + kept == taken + all;
    Transitive(taken + kept, taken + all, s.arrived + [m]);
  }

  lemma RequestKeepsInv(s: Sys, x: Extras, taken: seq<Message>, stored: seq<Message>)
    requires Inv(s, taken, stored) && Proper(Requests(x)) && !Skipped(s.group, x)
    ensures var p := PromptIdx(s.group, x);
            Inv(Step(s, Requests(x)), taken + Before(stored, p), From(stored, p + 1))
  {
    hide Sub;
    var p := PromptIdx(s.group, x);
    ConsumedStores(stored, x);
    var (before, rest) := (Before(stored, p), From(stored, p + 1));
    assert Texts(taken + before) == Texts(taken) + Texts(before);
    PrefixAndSuffix(stored, Bound(|stored|, p), Bound(|stored|, p + 1));
    Reflexive(taken);
    Joined(taken, taken, before + rest, stored);
    assert taken + (before + rest) == taken + before + rest;
    Transitive(taken + before + rest, taken + stored, s.arrived);
  }

  lemma StepKeepsInv(s: Sys, a: Action, taken: seq<Message>, stored: seq<Message>)
    returns (taken': seq<Message>, stored': seq<Message>)
    requires Inv(s, taken, stored) && Proper(a)
    ensures Inv(Step(s, a), taken', stored')
  {
    taken', stored' := taken, stored;
    match a
    case Arrives(m, maxCount) =>
      stored' := Last(stored + [m], maxCount);
      ArrivalKeepsInv(s, m, maxCount, taken, stored);
    case Requests(x) =>
      if !Skipped(s.group, x) {
        taken', stored' := taken + Before(stored, PromptIdx(s.group, x)), From(stored, PromptIdx(s.group, x) + 1);
        RequestKeepsInv(s, x, taken, stored);
      } else {
        assert s.injected + [] == s.injected;
      }
    case Removes =>
      stored' := [];
      WithoutMiddle(taken, stored, []);
      assert taken + [] == taken && taken + stored + [] == taken + stored;
      Transitive(taken, taken + stored, s.arrived);
  }

  /** The theorem: after any run, all injected blocks in order, followed by what is stored, are a subsequence of the
      arrivals, so that no message is injected twice; and the two deques stay aligned. */
  lemma {:induction false} InjectedIsSubsequence(s: Sys, taken: seq<Message>, stored: seq<Message>, actions: seq<Action>)
    returns (taken': seq<Message>, stored': seq<Message>)
    requires Inv(s, taken, stored) && forall a | a in actions :: Proper(a)
    ensures Inv(After(s, actions), taken', stored')
    ensures NoRepeat(After(s, actions).arrived) ==> NoRepeat(taken' + stored')
    decreases |actions|
  {
    if actions == [] {
      taken', stored' := taken, stored;
      if NoRepeat(s.arrived) {
        PartHasNoRepeat(taken + stored, s.arrived);
      }
    } else {
      taken', stored' := StepKeepsInv(s, actions[0], taken, stored);
      taken', stored' := InjectedIsSubsequence(Step(s, actions[0]), taken', stored', actions[1..]);
    }
  }

  /** An arrival is stored last, and the oldest records go, just as many as are beyond the limit. */
  lemma ArrivesExactly(stored: seq<Message>, m: Message, maxCount: nat)
    requires maxCount > 0
    ensures var kept := if |stored| + 1 <= maxCount then stored else stored[|stored| + 1 - maxCount..];
            Received(Stores(stored), m.text, m.id, maxCount) == Stores(kept + [m])
  {
    ReceivedStores(stored, m, maxCount);
    var all := stored + [m];
    if |all| > maxCount {
      assert all[|all| - maxCount..] == stored[|all| - maxCount..] + [m];
    }
  }
}
