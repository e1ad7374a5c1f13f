/** Which commits are refused as stale, and that every other one goes through. */
module HistoryAcceptance {
  import opened Options
  import opened OrderedDicts
  import opened PyValues
  import opened HistoryMerge
  import opened HistoryCommitter
  import opened HistoryProtocol
  import opened HistoryExact
  import Freezing

  /** The step records a sequence number for the conversation above `n`. */
  predicate RecordsAbove(w: World, a: Action, c: string, n: int) {
    && a.Finish? && a.t in w.tasks
    && w.tasks[a.t].p.conversation == c && w.tasks[a.t].p.sequence != 0 && w.tasks[a.t].p.sequence > n
  }

  /** Somewhere on the run a larger number was recorded for the conversation, and its counter was kept since. */
  ghost predicate Overtaken(w: World, actions: seq<Action>, c: string, n: int)
    decreases |actions|
  {
    && actions != []
    && match Step(w, actions[0])
       case None => false
       case Some(v) =>
         || (RecordsAbove(w, actions[0], c, n) && Retained(v, actions[1..], c))
         || Overtaken(v, actions[1..], c, n)
  }

  /** What one step does to a conversation's counter. */
  lemma CounterAfter(w: World, a: Action, c: string)
    requires LockInv(w) && Step(w, a).Some?
    ensures var v := Step(w, a).value;
            if a.Finish? && a.t in w.tasks && w.tasks[a.t].p.conversation == c && w.tasks[a.t].p.sequence != 0
            then Get(v.books.latest, c) == Some(w.tasks[a.t].p.sequence) && SequenceOf(v, c) >= SequenceOf(w, c)
            else Get(v.books.latest, c) == Get(w.books.latest, c) || (a.Begin? && Get(v.books.latest, c).None?)
  {
    hide Merge, NewHistory, Prune, DropOldest;
    match a
    case Begin(t, p, projection) => OpenedFacts(w.books, p.conversation, t);
    case Finish(t) => RecordedFacts(w.books, w.tasks[t].p, w.tasks[t].phase.history);
    case _ =>
  }

  lemma {:induction false} CounterIsAboveIff(w: World, actions: seq<Action>, c: string, n: nat)
    requires LockInv(w) && Run(w, actions).Some?
    ensures LockInv(Run(w, actions).value)
    ensures SequenceOf(Run(w, actions).value, c) > n
            <==> Overtaken(w, actions, c, n) || (SequenceOf(w, c) > n && Retained(w, actions, c))
    decreases |actions|
  {
    hide LockInv, Step;
    if actions != [] {
      StepKeepsLockInv(w, actions[0]);
      CounterAfter(w, actions[0], c);
      CounterIsAboveIff(Step(w, actions[0]).value, actions[1..], c, n);
    }
  }

  /** The commit is turned away when it gets the lock. */
  predicate TurnedAway(w: World, t: TaskId)
    requires Step(w, Enter(t)).Some?
  {
    var v := Step(w, Enter(t)).value;
    t in v.tasks && v.tasks[t].phase == Returned(false)
  }

  /** On every run: a numbered commit that gets its conversation's lock is turned away if and only if a commit with a
      larger number was recorded for the conversation before, and its counter was not dropped since; a commit without
      a number never is. */
  lemma TurnedAwayIff(initial: map<string, History>, before: seq<Action>, t: TaskId)
    requires Run(Start(initial), before).Some?
    requires var w := Run(Start(initial), before).value;
             t in w.tasks && w.tasks[t].p.sequence >= 0 && Step(w, Enter(t)).Some?
    ensures var w := Run(Start(initial), before).value;
            var p := w.tasks[t].p;
            TurnedAway(w, t) <==> p.sequence > 0 && Overtaken(Start(initial), before, p.conversation, p.sequence)
  {
    var w := Run(Start(initial), before).value;
    StartIsOk(initial);
    CounterIsAboveIff(Start(initial), before, w.tasks[t].p.conversation, w.tasks[t].p.sequence);
  }

  // ---------------------------------------------------------------- which counters are dropped

  /** The counters whose conversation has a live lock, in their order. */
  function InFlightOf(latest: ODict<string, int>, lockRefs: set<(string, TaskId)>): ODict<string, int> {
    if latest == [] then []
    else (if LockAlive(lockRefs, latest[0].0) then [latest[0]] else []) + InFlightOf(latest[1..], lockRefs)
  }

  lemma {:induction false} InFlightIsNoLonger(latest: ODict<string, int>, lockRefs: set<(string, TaskId)>)
    ensures |InFlightOf(latest, lockRefs)| <= |latest|
  {
    if latest != [] {
      InFlightIsNoLonger(latest[1..], lockRefs);
    }
  }

  /** Pruning drops the oldest idle counters, as many as are too many or as there are, and none behind them. */
  lemma {:induction false} PruneIsExact(latest: ODict<string, int>, overflow: int, lockRefs: set<(string, TaskId)>)
      returns (n: nat)
    ensures n <= |latest|
    ensures Prune(latest, overflow, lockRefs) == InFlightOf(latest[..n], lockRefs) + latest[n..]
    ensures n - |InFlightOf(latest[..n], lockRefs)|
            == var idle := |latest| - |InFlightOf(latest, lockRefs)|;
               if overflow <= 0 then 0 else if overflow <= idle then overflow else idle
  {
    InFlightIsNoLonger(latest, lockRefs);
    if latest == [] || overflow <= 0 {
      n := 0;
      assert latest[..0] == [] && latest[0..] == latest;
    } else {
      var m := PruneIsExact(latest[1..], if LockAlive(lockRefs, latest[0].0) then overflow else overflow - 1, lockRefs);
      n := m + 1;
      InFlightIsNoLonger(latest[1..], lockRefs);
      assert latest[..n][1..] == latest[1..][..m] && latest[n..] == latest[1..][m..];
    }
  }

  /** A commit that begins drops the oldest idle counters beyond 4096, as many as are idle, and counts as live for
      that. */
  lemma BeginDropsExactly(w: World, t: TaskId, p: Pending, text: string) returns (n: nat)
    requires t !in w.tasks
    ensures var (latest, after) := (w.books.latest, BeginStep(w, t, p, Some(text)).value.books);
            && after.lockRefs == w.books.lockRefs + {(p.conversation, t)} && after.receipts == w.books.receipts
            && n <= |latest|
            && after.latest == InFlightOf(latest[..n], after.lockRefs) + latest[n..]
            && n - |InFlightOf(latest[..n], after.lockRefs)|
               == var idle := |latest| - |InFlightOf(latest, after.lockRefs)|;
                  if |latest| <= 4096 then 0 else if |latest| - 4096 <= idle then |latest| - 4096 else idle
  {
    n := PruneIsExact(w.books.latest, |w.books.latest| - LATEST_SEQUENCE_LIMIT,
                      w.books.lockRefs + {(p.conversation, t)});
  }

  /** The newest entries are kept, and all of them if there are few. */
  lemma {:induction false} DropOldestIsExact<V>(d: ODict<string, V>, limit: nat)
    ensures DropOldest(d, limit) == if |d| <= limit then d else d[|d| - limit..]
  {
    if |d| > limit {
      DropOldestIsExact(d[1..], limit);
    }
  }

  /** Only live commits keep a lock alive. */
  ghost predicate RefsAreLive(w: World) {
    forall ref :: ref in w.books.lockRefs ==>
      ref.1 in w.tasks && Live(w.tasks[ref.1].phase) && w.tasks[ref.1].p.conversation == ref.0
  }

  lemma StepKeepsRefs(w: World, a: Action)
    requires RefsAreLive(w) && Step(w, a).Some?
    ensures RefsAreLive(Step(w, a).value)
  {
    hide Merge, NewHistory, Prune, Recorded, IsStale;
    var v := Step(w, a).value;
    forall ref | ref in v.books.lockRefs
      ensures ref.1 in v.tasks && Live(v.tasks[ref.1].phase) && v.tasks[ref.1].p.conversation == ref.0
    {
      LeavingDropsRef(w, a, ref);
    }
  }

  lemma LeavingDropsRef(w: World, a: Action, ref: (string, TaskId))
    requires RefsAreLive(w) && Step(w, a).Some? && ref in Step(w, a).value.books.lockRefs
    ensures var v := Step(w, a).value;
            ref.1 in v.tasks && Live(v.tasks[ref.1].phase) && v.tasks[ref.1].p.conversation == ref.0
  {
    hide Merge, NewHistory, Prune, IsStale, DropOldest;
    var v := Step(w, a).value;
    assert ref in w.books.lockRefs || (a.Begin? && ref.1 == a.t);
  }

  lemma {:induction false} RunKeepsRefs(w: World, actions: seq<Action>)
    requires LockInv(w) && RefsAreLive(w) && Run(w, actions).Some?
    ensures LockInv(Run(w, actions).value) && RefsAreLive(Run(w, actions).value)
    decreases |actions|
  {
    hide LockInv, RefsAreLive, Step;
    if actions != [] {
      StepKeepsLockInv(w, actions[0]);
      StepKeepsRefs(w, actions[0]);
      RunKeepsRefs(Step(w, actions[0]).value, actions[1..]);
    }
  }

  /** In every reachable state a conversation's lock is alive exactly while a commit to it waits or runs, and it is
      held exactly while one has passed it. */
  lemma LockIsAliveIff(initial: map<string, History>, actions: seq<Action>, c: string)
    requires Run(Start(initial), actions).Some?
    ensures var w := Run(Start(initial), actions).value;
            && (LockAlive(w.books.lockRefs, c)
                <==> exists t :: t in w.tasks && Live(w.tasks[t].phase) && w.tasks[t].p.conversation == c)
            && (c in w.lockOwner
                <==> exists t :: t in w.tasks && InCritical(w.tasks[t].phase) && w.tasks[t].p.conversation == c)
  {
    StartIsOk(initial);
    RunKeepsRefs(Start(initial), actions);
    var w := Run(Start(initial), actions).value;
    if t :| t in w.tasks && Live(w.tasks[t].phase) && w.tasks[t].p.conversation == c {
      assert (c, t) in w.books.lockRefs;
    }
  }

  // ---------------------------------------------------------------- every other commit goes through

  /** What the commit stores: the merge if the snapshot's anchor fits, and the new history as it is otherwise. */
  function ToStore(w: World, p: Pending, text: string): History {
    if p.base.Some? && Anchored(NewHistory(p, text), p.unitStart, p.expectedTotal) && p.conversation in w.storage
    then Merge(NewHistory(p, text), p.unitStart, p.expectedTotal, BaseOf(p), Some(w.storage[p.conversation]),
               Get(w.books.receipts, p.conversation))
    else NewHistory(p, text)
  }

  lemma NothingLoaded(newHistory: History, unitStart: Option<int>, expectedTotal: Option<int>, base: History,
                      receipt: Option<Summary>)
    ensures Merge(newHistory, unitStart, expectedTotal, base, None, receipt) == newHistory
  {
  }

  /** Up to the write. */
  function UpToWrite(p: Pending, text: string, t: TaskId): seq<Action> {
    [Enter(t)]
    + (if p.base.Some? && Anchored(NewHistory(p, text), p.unitStart, p.expectedTotal) then [Load(t, true)] else [])
  }

  lemma EntersTheLock(w: World, t: TaskId)
    requires t in w.tasks && w.tasks[t].phase.Queued? && w.tasks[t].p.conversation !in w.lockOwner
    requires Step(w, Enter(t)).Some? ==> !TurnedAway(w, t)
    ensures Step(w, Enter(t)).Some?
    ensures var (v, p, text) := (Step(w, Enter(t)).value, w.tasks[t].p, w.tasks[t].text);
            && v.books == w.books && v.storage == w.storage && v.lockOwner == w.lockOwner[p.conversation := t]
            && v.tasks == w.tasks[t := w.tasks[t].(phase :=
                 if p.base.Some? && Anchored(NewHistory(p, text), p.unitStart, p.expectedTotal)
                 then Loading(NewHistory(p, text)) else Merged(NewHistory(p, text)))]
  {
    hide NewHistory, IsStale, Anchored;
  }

  lemma ReachesTheWrite(w: World, t: TaskId)
    requires t in w.tasks && w.tasks[t].phase.Queued? && w.tasks[t].p.conversation !in w.lockOwner
    requires Step(w, Enter(t)).Some? ==> !TurnedAway(w, t)
    ensures var (p, text) := (w.tasks[t].p, w.tasks[t].text);
            && Run(w, UpToWrite(p, text, t)).Some?
            && var v := Run(w, UpToWrite(p, text, t)).value;
               && v.books == w.books && v.storage == w.storage && v.lockOwner == w.lockOwner[p.conversation := t]
               && v.tasks == w.tasks[t := w.tasks[t].(phase := Merged(ToStore(w, p, text)))]
  {
    var (p, text) := (w.tasks[t].p, w.tasks[t].text);
    EntersTheLock(w, t);
    hide TurnedAway, Merge, NewHistory, BaseOf, Anchored, EnterStep;
    NothingLoaded(NewHistory(p, text), p.unitStart, p.expectedTotal, BaseOf(p), Get(w.books.receipts, p.conversation));
    var w1 := Step(w, Enter(t)).value;
    LastStep(w, [], Enter(t));
    assert [] + [Enter(t)] == [Enter(t)] && Run(w, []) == Some(w);
    if w1.tasks[t].phase.Loading? {
      LastStep(w, [Enter(t)], Load(t, true));
    } else {
      assert [Enter(t)] + [] == [Enter(t)];
    }
  }

  /** A queued commit whose lock is free and that is not turned away goes through: it stores what it has to, for its
      conversation only, records its number and its receipt, and gives its lock up. */
  lemma CommitGoesThrough(w: World, t: TaskId)
    requires LockInv(w) && t in w.tasks && w.tasks[t].phase.Queued?
    requires w.tasks[t].p.conversation !in w.lockOwner
    requires Step(w, Enter(t)).Some? ==> !TurnedAway(w, t)
    ensures var (p, text) := (w.tasks[t].p, w.tasks[t].text);
            var actions := UpToWrite(p, text, t) + [Store(t), Finish(t)];
            && Run(w, actions).Some?
            && var v := Run(w, actions).value;
               && v.tasks == w.tasks[t := w.tasks[t].(phase := Returned(true))]
               && v.storage == w.storage[p.conversation := ToStore(w, p, text)]
               && v.lockOwner == w.lockOwner
               && v.books.latest
                  == (if p.sequence != 0 then PutLast(w.books.latest, p.conversation, p.sequence) else w.books.latest)
               && v.books.receipts
                  == DropOldest(PutLast(w.books.receipts, p.conversation, Summarize(ToStore(w, p, text))),
                                HISTORY_RECEIPT_LIMIT)
  {
    hide Run, Step, TurnedAway, UpToWrite, ToStore, Summarize, DropOldest, PutLast;
    var (p, text) := (w.tasks[t].p, w.tasks[t].text);
    assert Distinct(w.books.latest) && Distinct(w.books.receipts);
    ReachesTheWrite(w, t);
    var w2 := Run(w, UpToWrite(p, text, t)).value;
    StoresAndFinishes(w2, t, ToStore(w, p, text));
    RunSplits(w, UpToWrite(p, text, t), [Store(t), Finish(t)]);
  }

  lemma StoresAndFinishes(w: World, t: TaskId, h: History)
    requires t in w.tasks && w.tasks[t].phase == Merged(h) && Distinct(w.books.latest) && Distinct(w.books.receipts)
    requires w.tasks[t].p.conversation in w.lockOwner && w.lockOwner[w.tasks[t].p.conversation] == t
    ensures Run(w, [Store(t), Finish(t)]).Some?
    ensures var (v, p) := (Run(w, [Store(t), Finish(t)]).value, w.tasks[t].p);
            && v.tasks == w.tasks[t := w.tasks[t].(phase := Returned(true))]
            && v.storage == w.storage[p.conversation := h]
            && v.lockOwner == w.lockOwner - {p.conversation}
            && v.books.latest
               == (if p.sequence != 0 then PutLast(w.books.latest, p.conversation, p.sequence) else w.books.latest)
            && v.books.receipts
               == DropOldest(PutLast(w.books.receipts, p.conversation, Summarize(h)), HISTORY_RECEIPT_LIMIT)
  {
    hide Summarize;
    var w1 := Step(w, Store(t)).value;
    var w2 := Step(w1, Finish(t)).value;
    RecordedFacts(w1.books, w.tasks[t].p, h);
    assert w2.tasks == w.tasks[t := w.tasks[t].(phase := Returned(true))];
    assert [Store(t), Finish(t)][1..] == [Finish(t)] && [Finish(t)][1..] == [];
    assert Run(w2, []) == Some(w2);
    assert Run(w1, [Finish(t)]) == Some(w2);
  }

  /** A new history is the snapshot, the assistant's message, and the checkpoint if there is one. */
  lemma WhatIsAdded(p: Pending, text: string)
    ensures var h := NewHistory(p, text);
            var n := |Freezing.ThawAll(p.snapshot)|;
            var marked := p.checkpoint.Some? && p.checkpoint.value != "";
            && |h| == n + (if marked then 2 else 1)
            && h[..n] == Freezing.ThawAll(p.snapshot)
            && MessageGet(h[n], "role") == Some(Str("assistant")) && MessageGet(h[n], "content") == Some(Str(text))
            && (marked ==>
                  && MessageGet(h[n + 1], "role") == Some(Str("_checkpoint"))
                  && MessageGet(h[n + 1], "content").Some?
                  && MessageGet(MessageGet(h[n + 1], "content").value, "id") == Some(Str(p.checkpoint.value)))
  {
    var snapshot := Freezing.ThawAll(p.snapshot);
    var h := NewHistory(p, text);
    assert h == snapshot + Tail(p, text);
    assert h[|snapshot|] == Tail(p, text)[0];
    RoleAndContent("assistant", Str(text));
    if p.checkpoint.Some? && p.checkpoint.value != "" {
      assert h[|snapshot| + 1] == Tail(p, text)[1];
      var id := Field("id", Str(p.checkpoint.value));
      RoleAndContent("_checkpoint", Dict([id]));
      assert Lookup([id], "id") == Some(id.value);
    }
  }

  lemma RoleAndContent(role: string, content: Value)
    ensures Lookup([Field("role", Str(role)), Field("content", content)], "role") == Some(Str(role))
    ensures Lookup([Field("role", Str(role)), Field("content", content)], "content") == Some(content)
  {
    var fields := [Field("role", Str(role)), Field("content", content)];
    assert |"role"| != |"content"|;
    assert fields[1..] == [fields[1]];
    assert Lookup([fields[1]], "content") == Some(content);
  }
}
