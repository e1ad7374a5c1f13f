/** When a commit's write appends, on every run of well-formed commits whatever fails or is cancelled. */
module HistoryExact {
  import opened Options
  import opened OrderedDicts
  import opened PyValues
  import opened HistoryMerge
  import opened HistoryCommitter
  import opened HistoryProtocol
  import Freezing

  /** The turn's own messages: what follows the base in the snapshot. */
  function TurnOf(p: Pending): History {
    var s := Freezing.ThawAll(p.snapshot);
    if |BaseOf(p)| <= |s| then s[|BaseOf(p)|..] else []
  }

  /** What one accepted commit has to add. */
  function UnitOf(task: Task): History {
    TurnOf(task.p) + Tail(task.p, task.text)
  }

  /** The snapshot is its base followed by one turn whose only user message comes first, and the merge
      fields are the ones computed from that snapshot. */
  ghost predicate WellFormed(p: Pending, text: string) {
    && p.base.Some?
    && BaseOf(p) <= Freezing.ThawAll(p.snapshot)
    && TurnOf(p) != []
    && UnitStart(Freezing.ThawAll(p.snapshot)) == p.unitStart == Some(|BaseOf(p)|)
    && p.expectedTotal == Some(|NewHistory(p, text)|)
  }

  lemma UnitIsUser(p: Pending, text: string)
    requires WellFormed(p, text)
    ensures p.base.Some?
    ensures UnitOf(Task(p, text, Queued)) != [] && IsUser(UnitOf(Task(p, text, Queued))[0])
    ensures NewHistory(p, text) == BaseOf(p) + UnitOf(Task(p, text, Queued))
    ensures Anchored(NewHistory(p, text), p.unitStart, p.expectedTotal)
  {
    var snapshot := Freezing.ThawAll(p.snapshot);
    UnitStartBounded(snapshot);
    assert UnitOf(Task(p, text, Queued))[0] == snapshot[|BaseOf(p)|];
    assert NewHistory(p, text)[|BaseOf(p)|] == snapshot[|BaseOf(p)|];
  }

  /** What is stored for a conversation; nothing for one that does not exist. */
  function StoredOf(w: World, c: string): History {
    if c in w.storage then w.storage[c] else []
  }

  /** At its reload the commit finds its base stored, or it finds, reloads and recognises what this process stored
      last, and that is neither mistaken for the base nor for something that starts with the base. */
  predicate WillAppend(w: World, t: TaskId, ok: bool)
    requires t in w.tasks
  {
    var p := w.tasks[t].p;
    var (stored, base) := (StoredOf(w, p.conversation), BaseOf(p));
    || stored == base
    || (&& ok && p.conversation in w.storage && Get(w.books.receipts, p.conversation) == Some(Summarize(stored))
        && !HistoriesEqual(stored, base) && (base <= stored || !IsPrefix(stored, base)))
  }

  /** A commit that is reloading has the draft of its well-formed snapshot. */
  ghost predicate Drafted(task: Task) {
    WellFormed(task.p, task.text) && task.phase == Loading(NewHistory(task.p, task.text))
  }

  lemma LoadAppendsIff(w: World, t: TaskId, ok: bool)
    requires t in w.tasks && Drafted(w.tasks[t])
    ensures LoadStep(w, t, ok).Some?
    ensures var task := LoadStep(w, t, ok).value.tasks[t];
            && task.phase.Merged? && UnitOf(task) == UnitOf(w.tasks[t]) && task.p == w.tasks[t].p
            && (task.phase.history == StoredOf(w, task.p.conversation) + UnitOf(task) <==> WillAppend(w, t, ok))
  {
    var task := w.tasks[t];
    var c := task.p.conversation;
    UnitIsUser(task.p, task.text);
    MergeAppendsIff(BaseOf(task.p), UnitOf(task), StoredOf(w, c),
                    if ok && c in w.storage then Some(w.storage[c]) else None, Get(w.books.receipts, c));
  }

  // ---------------------------------------------------------------- whole runs

  ghost predicate BeginsWellFormed(a: Action) {
    a.Begin? && a.projection.Some? ==> WellFormed(a.p, a.projection.value)
  }

  ghost predicate AllWellFormed(actions: seq<Action>) {
    forall i :: 0 <= i < |actions| ==> BeginsWellFormed(actions[i])
  }

  /** Every live commit is well-formed, and reloads or has reloaded with its own draft. */
  ghost predicate DraftsOk(w: World) {
    forall t :: t in w.tasks && Live(w.tasks[t].phase) ==>
      WellFormed(w.tasks[t].p, w.tasks[t].text) && (w.tasks[t].phase.Loading? ==> Drafted(w.tasks[t]))
  }

  lemma StepKeepsDrafts(w: World, a: Action)
    requires DraftsOk(w) && BeginsWellFormed(a) && Step(w, a).Some?
    ensures DraftsOk(Step(w, a).value)
    ensures a.Enter? ==> !Step(w, a).value.tasks[a.t].phase.Merged?
  {
    hide WellFormed, NewHistory;
    if a.Enter? {
      UnitIsUser(w.tasks[a.t].p, w.tasks[a.t].text);
    }
  }

  /** The run up to its last step, and that step. */
  lemma {:induction false} RunSplits(w: World, first: seq<Action>, second: seq<Action>)
    ensures Run(w, first + second)
            == if Run(w, first).None? then None else Run(Run(w, first).value, second)
    decreases |first|
  {
    if first == [] {
      assert first + second == second;
    } else {
      assert (first + second)[1..] == first[1..] + second;
      if Step(w, first[0]).Some? {
        RunSplits(Step(w, first[0]).value, first[1..], second);
      }
    }
  }

  lemma LastStep(w: World, actions: seq<Action>, a: Action)
    ensures Run(w, actions + [a])
            == if Run(w, actions).None? then None else Step(Run(w, actions).value, a)
  {
    RunSplits(w, actions, [a]);
    assert [a][1..] == [];
  }

  lemma {:induction false} RunKeepsDrafts(w: World, actions: seq<Action>)
    requires LockInv(w) && DraftsOk(w) && AllWellFormed(actions) && Run(w, actions).Some?
    ensures LockInv(Run(w, actions).value) && DraftsOk(Run(w, actions).value)
    decreases |actions|
  {
    hide LockInv, DraftsOk, Step;
    if actions != [] {
      assert BeginsWellFormed(actions[0]);
      StepKeepsLockInv(w, actions[0]);
      StepKeepsDrafts(w, actions[0]);
      RunKeepsDrafts(Step(w, actions[0]).value, actions[1..]);
    }
  }

  /** A merged commit waits for its write while others run; nobody else writes its conversation meanwhile. */
  lemma {:induction false} MergedWaits(w: World, actions: seq<Action>, t: TaskId)
    requires LockInv(w) && t in w.tasks && w.tasks[t].phase.Merged? && Run(w, actions).Some?
    requires var v := Run(w, actions).value; t in v.tasks && v.tasks[t].phase.Merged?
    ensures var v := Run(w, actions).value;
            && v.tasks[t] == w.tasks[t]
            && StoredOf(v, w.tasks[t].p.conversation) == StoredOf(w, w.tasks[t].p.conversation)
    decreases |actions|
  {
    if actions != [] {
      var m := Step(w, actions[0]).value;
      StepKeepsLockInv(w, actions[0]);
      MergedStays(w, actions[0], t);
      if m.tasks[t].phase.Merged? {
        MergedWaits(m, actions[1..], t);
      } else {
        PastMergedForGood(m, actions[1..], t);
      }
    }
  }

  predicate PastMerged(w: World, t: TaskId) {
    t in w.tasks && (w.tasks[t].phase.Stored? || w.tasks[t].phase.Returned? || w.tasks[t].phase.Raised?)
  }

  lemma MergedStays(w: World, a: Action, t: TaskId)
    requires LockInv(w) && t in w.tasks && w.tasks[t].phase.Merged? && Step(w, a).Some?
    ensures var v := Step(w, a).value;
            || PastMerged(v, t)
            || (&& t in v.tasks && v.tasks[t] == w.tasks[t]
                && StoredOf(v, w.tasks[t].p.conversation) == StoredOf(w, w.tasks[t].p.conversation))
  {
    hide NewHistory, Merge, IsStale, Recorded, Opened;
  }

  lemma StaysPastMerged(w: World, a: Action, t: TaskId)
    requires PastMerged(w, t) && Step(w, a).Some?
    ensures PastMerged(Step(w, a).value, t)
  {
    hide NewHistory, Merge, IsStale, Recorded, Opened;
  }

  lemma {:induction false} PastMergedForGood(w: World, actions: seq<Action>, t: TaskId)
    requires PastMerged(w, t) && Run(w, actions).Some?
    ensures PastMerged(Run(w, actions).value, t)
    decreases |actions|
  {
    hide Step, PastMerged;
    if actions != [] {
      StaysPastMerged(w, actions[0], t);
      PastMergedForGood(Step(w, actions[0]).value, actions[1..], t);
    }
  }

  lemma BecomesMerged(w: World, a: Action, t: TaskId)
    requires Step(w, a).Some? && !(t in w.tasks && w.tasks[t].phase.Merged?)
    requires t in Step(w, a).value.tasks && Step(w, a).value.tasks[t].phase.Merged?
    ensures (a.Enter? || a.Load?) && a.t == t
  {
    hide NewHistory, Merge, IsStale, Recorded, Opened;
  }

  /** A well-formed commit that is about to write has reloaded before. */
  lemma {:induction false} MergedHasLoaded(w: World, actions: seq<Action>, t: TaskId)
      returns (before: seq<Action>, ok: bool, between: seq<Action>)
    requires LockInv(w) && DraftsOk(w) && AllWellFormed(actions) && w.tasks == map[] && Run(w, actions).Some?
    requires var v := Run(w, actions).value; t in v.tasks && v.tasks[t].phase.Merged?
    ensures actions == before + [Load(t, ok)] + between
    decreases |actions|
  {
    hide LockInv, DraftsOk, Step;
    var n := |actions| - 1;
    var a := actions[n];
    assert actions == actions[..n] + [a];
    LastStep(w, actions[..n], a);
    var m := Run(w, actions[..n]).value;
    if t in m.tasks && m.tasks[t].phase.Merged? {
      before, ok, between := MergedHasLoaded(w, actions[..n], t);
      between := between + [a];
    } else {
      RunKeepsDrafts(w, actions[..n]);
      assert BeginsWellFormed(a);
      StepKeepsDrafts(m, a);
      BecomesMerged(m, a, t);
      before, ok, between := actions[..n], a.ok, [];
    }
  }

  /** The theorem about whole runs of well-formed commits, with any number of conversations, failing reloads and
      writes, and cancellation anywhere: a commit that writes has reloaded before, and its write appends its unit
      to what is stored at the time of the write if and only if WillAppend held when it reloaded. */
  lemma WriteAppendsIff(initial: map<string, History>, actions: seq<Action>, t: TaskId)
      returns (before: seq<Action>, ok: bool, between: seq<Action>)
    requires AllWellFormed(actions) && Run(Start(initial), actions + [Store(t)]).Some?
    ensures actions == before + [Load(t, ok)] + between
    ensures Run(Start(initial), before).Some? && Run(Start(initial), actions).Some?
    ensures var w := Run(Start(initial), before).value;
            var m := Run(Start(initial), actions).value;
            var v := Run(Start(initial), actions + [Store(t)]).value;
            && t in w.tasks && t in m.tasks && m.tasks[t].p == w.tasks[t].p
            && var c := m.tasks[t].p.conversation;
               && (StoredOf(v, c) == StoredOf(m, c) + UnitOf(m.tasks[t]) <==> WillAppend(w, t, ok))
               && forall d :: d != c ==> StoredOf(v, d) == StoredOf(m, d)
  {
    hide LockInv, DraftsOk, WillAppend, UnitOf;
    var start := Start(initial);
    StartIsOk(initial);
    LastStep(start, actions, Store(t));
    before, ok, between := MergedHasLoaded(start, actions, t);
    RunSplits(start, before + [Load(t, ok)], between);
    LastStep(start, before, Load(t, ok));
    var w := Run(start, before).value;
    assert AllWellFormed(before) by {
      assert forall i :: 0 <= i < |before| ==> before[i] == actions[i];
    }
    RunKeepsDrafts(start, before);
    ReloadingIsDrafted(w, t);
    LoadAppendsIff(w, t, ok);
    StepKeepsLockInv(w, Load(t, ok));
    MergedWaits(Step(w, Load(t, ok)).value, between, t);
  }

  lemma StartIsOk(initial: map<string, History>)
    ensures LockInv(Start(initial)) && DraftsOk(Start(initial))
  {
  }

  lemma ReloadingIsDrafted(w: World, t: TaskId)
    requires DraftsOk(w) && t in w.tasks && w.tasks[t].phase.Loading?
    ensures Drafted(w.tasks[t])
  {
  }

  /** With a base that was stored before, the fingerprint cannot lie. */
  lemma WillAppendOverStoredBase(w: World, t: TaskId, ok: bool)
    requires t in w.tasks && BaseOf(w.tasks[t].p) <= StoredOf(w, w.tasks[t].p.conversation)
    ensures var (c, stored) := (w.tasks[t].p.conversation, StoredOf(w, w.tasks[t].p.conversation));
            WillAppend(w, t, ok) <==>
            || stored == BaseOf(w.tasks[t].p)
            || (ok && c in w.storage && Get(w.books.receipts, c) == Some(Summarize(stored)))
  {
    SummaryOfPrefix(BaseOf(w.tasks[t].p), StoredOf(w, w.tasks[t].p.conversation));
  }

  // ---------------------------------------------------------------- a write without a receipt

  /** A queued commit takes the free lock, reloads and writes. */
  lemma EntersAndWrites(w: World, t: TaskId, p: Pending, text: string) returns (v: World)
    requires t in w.tasks && w.tasks[t] == Task(p, text, Queued) && WellFormed(p, text)
    requires p.conversation !in w.lockOwner && p.conversation in w.storage && !IsStale(w.books.latest, p)
    requires w.storage[p.conversation] == BaseOf(p) || Get(w.books.receipts, p.conversation) == None
    ensures Run(w, [Enter(t), Load(t, true), Store(t)]) == Some(v)
    ensures v.storage == w.storage[p.conversation := BaseOf(p) + UnitOf(Task(p, text, Queued))]
    ensures v.books == w.books && v.lockOwner == w.lockOwner[p.conversation := t]
    ensures v.tasks.Keys == w.tasks.Keys && forall u :: u in w.tasks && u != t ==> v.tasks[u] == w.tasks[u]
    ensures v.tasks[t].p == p && v.tasks[t].phase.Stored?
  {
    UnitIsUser(p, text);
    var w1 := Step(w, Enter(t)).value;
    var w2 := Step(w1, Load(t, true)).value;
    assert w2.tasks[t].phase == Merged(NewHistory(p, text)) by {
      if w.storage[p.conversation] == BaseOf(p) {
        assert HistoriesEqual(BaseOf(p), BaseOf(p));
      }
    }
    v := Step(w2, Store(t)).value;
    var actions := [Enter(t), Load(t, true), Store(t)];
    assert actions[1..] == [Load(t, true), Store(t)] && actions[1..][1..] == [Store(t)] && actions[1..][1..][1..] == [];
    assert Run(v, []) == Some(v);
    assert Run(w2, [Store(t)]) == Some(v);
    assert Run(w1, [Load(t, true), Store(t)]) == Some(v);
  }

  lemma BothBegin(w: World, p: Pending, text: string, q: Pending, other: string)
    requires w.tasks == map[] && w.books == Books({}, [], [])
    ensures Run(w, [Begin(0, p, Some(text)), Begin(1, q, Some(other))]).Some?
    ensures var v := Run(w, [Begin(0, p, Some(text)), Begin(1, q, Some(other))]).value;
            && v.storage == w.storage && v.lockOwner == w.lockOwner
            && v.books.latest == [] && v.books.receipts == []
            && v.tasks == map[0 := Task(p, text, Queued), 1 := Task(q, other, Queued)]
  {
    var (a, b) := (Begin(0, p, Some(text)), Begin(1, q, Some(other)));
    var w1 := Step(w, a).value;
    var w2 := Step(w1, b).value;
    assert [a, b][1..] == [b] && [b][1..] == [];
    assert Run(w2, []) == Some(w2);
    assert Run(w1, [b]) == Some(w2);
  }

  /** The two turns in the order in which they run. */
  function BeginBoth(p: Pending, text: string, q: Pending, other: string): seq<Action> {
    [Begin(0, p, Some(text)), Begin(1, q, Some(other))]
  }

  function Writes(t: TaskId): seq<Action> {
    [Enter(t), Load(t, true), Store(t)]
  }

  /** Two turns that started from the same history: the first one's write takes effect, but it is cancelled before
      the call returns, or the call raises after all, so no receipt is kept; the second overwrites what it wrote. */
  lemma UnrecordedWriteIsOverwritten(initial: map<string, History>, p: Pending, text: string, q: Pending, other: string,
                                     leaves: Action)
    requires leaves == Cancel(0) || leaves == StoreFails(0)
    requires WellFormed(p, text) && WellFormed(q, other) && p.sequence >= 0 && q.sequence >= 0
    requires p.conversation == q.conversation && q.conversation in initial
    requires BaseOf(p) == BaseOf(q) == initial[q.conversation]
    ensures var first := BeginBoth(p, text, q, other) + Writes(0);
            var all := first + [leaves] + Writes(1);
            && Run(Start(initial), first).Some? && Run(Start(initial), all).Some?
            && Run(Start(initial), first).value.storage
               == initial[q.conversation := initial[q.conversation] + UnitOf(Task(p, text, Queued))]
            && Run(Start(initial), all).value.storage
               == initial[q.conversation := initial[q.conversation] + UnitOf(Task(q, other, Queued))]
  {
    hide WellFormed, UnitOf, BaseOf, Run;
    var begins := BeginBoth(p, text, q, other);
    var first := begins + Writes(0);
    var w := Start(initial);
    BothBegin(w, p, text, q, other);
    var w2 := Run(w, begins).value;
    var w3 := EntersAndWrites(w2, 0, p, text);
    RunSplits(w, begins, Writes(0));
    LastStep(w, first, leaves);
    var w4 := Step(w3, leaves).value;
    assert w4.tasks[1] == Task(q, other, Queued);
    var w5 := EntersAndWrites(w4, 1, q, other);
    RunSplits(w, first + [leaves], Writes(1));
  }

  lemma {:induction false} PlainAppend(items: seq<Value>, more: seq<Value>)
    requires Freezing.PlainAll(items) && Freezing.PlainAll(more)
    ensures Freezing.PlainAll(items + more)
  {
    if items == [] {
      assert items + more == more;
    } else {
      assert (items + more)[1..] == items[1..] + more;
      PlainAppend(items[1..], more);
    }
  }

  lemma LastUserStarts(stored: History, request: Value)
    requires IsUser(request)
    ensures UnitStart(stored + [request]) == Some(|stored|)
  {
    hide IsUser;
    assert (stored + [request])[|stored|] == request;
  }

  function PlainTurn(conversation: string, stored: History, request: Value): Pending {
    Pending(conversation, Freezing.FreezeAll(stored + [request]), None, 1, Some(Freezing.FreezeAll(stored)),
            Some(|stored|), Some(|stored| + 2))
  }

  /** There are such turns for every conversation and every plain stored history. */
  lemma PlainTurnIsWellFormed(conversation: string, stored: History, request: Value, text: string)
    requires Freezing.PlainAll(stored) && Freezing.Plain(request) && IsUser(request)
    ensures WellFormed(PlainTurn(conversation, stored, request), text)
    ensures BaseOf(PlainTurn(conversation, stored, request)) == stored
  {
    hide Freezing.FreezeAll, Freezing.ThawAll, Freezing.Plain, IsUser, TextMessage;
    var turn := [request];
    assert turn[1..] == [];
    PlainAppend(stored, turn);
    Freezing.FreezeThawAll(stored);
    Freezing.FreezeThawAll(stored + turn);
    LastUserStarts(stored, request);
    assert (stored + turn)[..|stored|] == stored && (stored + turn)[|stored|..] == turn;
  }
}
