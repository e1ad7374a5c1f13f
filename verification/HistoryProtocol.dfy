/** Any number of commits running concurrently: the code between two awaits is one step. */
module HistoryProtocol {
  import opened Options
  import opened OrderedDicts
  import opened PyValues
  import opened HistoryMerge
  import opened HistoryCommitter
  import Freezing

  datatype Phase =
    | Queued                      // waiting for the conversation's lock
    | Loading(draft: History)     // holds the lock, reloading the stored history
    | Merged(history: History)    // holds the lock, about to write
    | Stored(history: History)    // the write took effect, the call has not resumed yet
    | Returned(committed: bool)
    | Raised

  datatype Task = Task(p: Pending, text: string, phase: Phase)

  datatype World = World(
    books: Books,
    storage: map<string, History>,
    tasks: map<TaskId, Task>,
    lockOwner: map<string, TaskId>)

  datatype Action =
    | Begin(t: TaskId, p: Pending, projection: Option<string>)
    | Enter(t: TaskId)
    | Load(t: TaskId, ok: bool)
    | Store(t: TaskId)
    | StoreFails(t: TaskId)
    | Finish(t: TaskId)
    | Cancel(t: TaskId)

  function Tail(p: Pending, text: string): History {
    [TextMessage("assistant", text)]
    + if p.checkpoint.Some? && p.checkpoint.value != ""
      then [Dict([Field("role", Str("_checkpoint")), Field("content", Dict([Field("id", Str(p.checkpoint.value))]))])]
      else []
  }

  function NewHistory(p: Pending, text: string): History {
    Freezing.ThawAll(p.snapshot) + Tail(p, text)
  }

  function BaseOf(p: Pending): History {
    Freezing.ThawAll(p.base.GetOr([]))
  }

  predicate InCritical(phase: Phase) {
    phase.Loading? || phase.Merged? || phase.Stored?
  }

  predicate Live(phase: Phase) {
    phase.Queued? || InCritical(phase)
  }

  function WithPhase(w: World, t: TaskId, phase: Phase): World
    requires t in w.tasks
  {
    w.(tasks := w.tasks[t := w.tasks[t].(phase := phase)])
  }

  /** The commit leaves: its lock reference goes, and the lock itself if it held it. */
  function Leave(w: World, t: TaskId, phase: Phase): World
    requires t in w.tasks
  {
    var c := w.tasks[t].p.conversation;
    WithPhase(w, t, phase).(
    books := Closed(w.books, c, t),
    lockOwner := if c in w.lockOwner && w.lockOwner[c] == t then w.lockOwner - {c} else w.lockOwner)
  }

  function BeginStep(w: World, t: TaskId, p: Pending, projection: Option<string>): Option<World> {
    if t in w.tasks then None
    else if projection.None? then
      Some(w.(tasks := w.tasks[t := Task(p, "", Returned(false))]))
    else
      Some(w.(tasks := w.tasks[t := Task(p, projection.value, Queued)],
      books := Opened(w.books, p.conversation, t)))
  }

  function EnterStep(w: World, t: TaskId): Option<World> {
    if t !in w.tasks || !w.tasks[t].phase.Queued? || w.tasks[t].p.conversation in w.lockOwner then None
    else
      var p := w.tasks[t].p;
      if IsStale(w.books.latest, p) then Some(Leave(w, t, Returned(false)))
      else
        var draft := NewHistory(p, w.tasks[t].text);
        var next := if p.base.Some? && Anchored(draft, p.unitStart, p.expectedTotal)
                    then Loading(draft) else Merged(draft);
        Some(WithPhase(w, t, next).(lockOwner := w.lockOwner[p.conversation := t]))
  }

  function LoadStep(w: World, t: TaskId, ok: bool): Option<World> {
    if t !in w.tasks || !w.tasks[t].phase.Loading? then None
    else
      var p := w.tasks[t].p;
      var loaded := if ok && p.conversation in w.storage then Some(w.storage[p.conversation]) else None;
      Some(WithPhase(w, t, Merged(Merge(w.tasks[t].phase.draft, p.unitStart, p.expectedTotal, BaseOf(p), loaded,
                                        Get(w.books.receipts, p.conversation)))))
  }

  function StoreStep(w: World, t: TaskId): Option<World> {
    if t !in w.tasks || !w.tasks[t].phase.Merged? then None
    else
      var h := w.tasks[t].phase.history;
      Some(WithPhase(w, t, Stored(h)).(storage := w.storage[w.tasks[t].p.conversation := h]))
  }

  function FinishStep(w: World, t: TaskId): Option<World> {
    if t !in w.tasks || !w.tasks[t].phase.Stored? then None
    else
      var task := w.tasks[t];
      Some(Leave(w.(books := Recorded(w.books, task.p, task.phase.history)), t, Returned(true)))
  }

  /** One step, or None when the action is not enabled. A cancelled or failed commit just leaves; a write may fail
      with or without having taken effect. */
  function Step(w: World, a: Action): Option<World> {
    match a
    case Begin(t, p, projection) => BeginStep(w, t, p, projection)
    case Enter(t) => EnterStep(w, t)
    case Load(t, ok) => LoadStep(w, t, ok)
    case Store(t) => StoreStep(w, t)
    case StoreFails(t) =>
      if t !in w.tasks || !(w.tasks[t].phase.Merged? || w.tasks[t].phase.Stored?) then None
      else Some(Leave(w, t, Returned(false)))
    case Finish(t) => FinishStep(w, t)
    case Cancel(t) =>
      if t !in w.tasks || !Live(w.tasks[t].phase) then None else Some(Leave(w, t, Raised))
  }

  function Run(w: World, actions: seq<Action>): Option<World>
    decreases |actions|
  {
    if actions == [] then Some(w)
    else
      var next := Step(w, actions[0]);
      if next.None? then None else Run(next.value, actions[1..])
  }

  function Start(storage: map<string, History>): World {
    World(Books({}, [], []), storage, map[], map[])
  }

  // ---------------------------------------------------------------- locks and sequence numbers

  function SequenceOf(w: World, c: string): int {
    Get(w.books.latest, c).GetOr(0)
  }

  /** Holds in every reachable world, whatever the callers pass in. */
  ghost predicate LockInv(w: World) {
    && Distinct(w.books.latest) && Distinct(w.books.receipts)
    && (forall t :: t in w.tasks && Live(w.tasks[t].phase) ==> (w.tasks[t].p.conversation, t) in w.books.lockRefs)
    && (forall t :: t in w.tasks && InCritical(w.tasks[t].phase) ==>
          var c := w.tasks[t].p.conversation; c in w.lockOwner && w.lockOwner[c] == t)
    && (forall c :: c in w.lockOwner ==>
          var t := w.lockOwner[c]; t in w.tasks && InCritical(w.tasks[t].phase) && w.tasks[t].p.conversation == c)
    && (forall t :: t in w.tasks && InCritical(w.tasks[t].phase) && w.tasks[t].p.sequence != 0 ==>
          w.tasks[t].p.sequence >= SequenceOf(w, w.tasks[t].p.conversation))
  }

  lemma OpenedFacts(b: Books, conversation: string, task: TaskId)
    requires Distinct(b.latest)
    ensures var o := Opened(b, conversation, task);
            && Distinct(o.latest)
            && (forall ref :: ref in b.lockRefs ==> Get(o.latest, ref.0) == Get(b.latest, ref.0))
            && (forall c: string :: Get(o.latest, c) == Get(b.latest, c) || Get(o.latest, c).None?)
            && Get(o.latest, conversation) == Get(b.latest, conversation)
  {
    var refs := b.lockRefs + {(conversation, task)};
    PruneKeepsInFlight(b.latest, |b.latest| - LATEST_SEQUENCE_LIMIT, refs);
    assert (conversation, task) in refs;
    forall ref | ref in b.lockRefs ensures LockAlive(refs, ref.0) {
      assert ref in refs;
    }
  }

  lemma RecordedFacts(b: Books, p: Pending, history: History)
    requires Distinct(b.latest) && Distinct(b.receipts)
    ensures var r := Recorded(b, p, history);
            && Distinct(r.latest) && Distinct(r.receipts)
            && (forall c: string ::
                  Get(r.latest, c)
                  == (if c == p.conversation && p.sequence != 0 then Some(p.sequence) else Get(b.latest, c)))
  {
    PutLastFacts(b.latest, p.conversation, p.sequence);
    PutLastFacts(b.receipts, p.conversation, Summarize(history));
    DropOldestFacts(PutLast(b.receipts, p.conversation, Summarize(history)), HISTORY_RECEIPT_LIMIT);
  }

  /** What one step may do to the sequence counters: raise one, or drop one nobody is committing to. */
  ghost predicate CountersAdvance(w: World, v: World) {
    forall c: string ::
      && (Get(w.books.latest, c).Some? && Get(v.books.latest, c).Some? ==>
            Get(v.books.latest, c).value >= Get(w.books.latest, c).value)
      && (Get(w.books.latest, c).Some? && Get(v.books.latest, c).None? ==> !LockAlive(w.books.lockRefs, c))
  }

  lemma LeaveKeepsLockInv(w: World, t: TaskId, phase: Phase)
    requires LockInv(w) && t in w.tasks && Live(w.tasks[t].phase) && !Live(phase)
    ensures LockInv(Leave(w, t, phase))
  {
  }

  /** Holding the lock, a commit moves on without touching the tables. */
  lemma AdvanceKeepsLockInv(w: World, t: TaskId, phase: Phase, storage: map<string, History>)
    requires LockInv(w) && t in w.tasks && InCritical(w.tasks[t].phase) && InCritical(phase)
    ensures LockInv(WithPhase(w, t, phase).(storage := storage))
  {
  }

  lemma BeginKeepsLockInv(w: World, t: TaskId, p: Pending, projection: Option<string>)
    requires LockInv(w) && t !in w.tasks
    ensures LockInv(BeginStep(w, t, p, projection).value)
    ensures CountersAdvance(w, BeginStep(w, t, p, projection).value)
  {
    OpenedFacts(w.books, p.conversation, t);
    var v := BeginStep(w, t, p, projection).value;
    forall u | u in v.tasks && InCritical(v.tasks[u].phase) && v.tasks[u].p.sequence != 0
      ensures v.tasks[u].p.sequence >= SequenceOf(v, v.tasks[u].p.conversation)
    {
      assert u in w.tasks && (w.tasks[u].p.conversation, u) in w.books.lockRefs;
    }
  }

  lemma EnterKeepsLockInv(w: World, t: TaskId)
    requires LockInv(w) && EnterStep(w, t).Some?
    ensures LockInv(EnterStep(w, t).value)
  {
    var p := w.tasks[t].p;
    if IsStale(w.books.latest, p) {
      LeaveKeepsLockInv(w, t, Returned(false));
    }
  }

  lemma FinishKeepsLockInv(w: World, t: TaskId)
    requires LockInv(w) && FinishStep(w, t).Some?
    ensures LockInv(FinishStep(w, t).value)
    ensures CountersAdvance(w, FinishStep(w, t).value)
  {
    var task := w.tasks[t];
    RecordedFacts(w.books, task.p, task.phase.history);
    var m := w.(books := Recorded(w.books, task.p, task.phase.history));
    assert LockInv(m);
    LeaveKeepsLockInv(m, t, Returned(true));
  }

  lemma StepKeepsLockInv(w: World, a: Action)
    requires LockInv(w) && Step(w, a).Some?
    ensures LockInv(Step(w, a).value)
    ensures CountersAdvance(w, Step(w, a).value)
  {
    match a
    case Begin(t, p, projection) => BeginKeepsLockInv(w, t, p, projection);
    case Enter(t) => EnterKeepsLockInv(w, t);
    case Load(t, ok) => AdvanceKeepsLockInv(w, t, Step(w, a).value.tasks[t].phase, w.storage);
    case Store(t) => AdvanceKeepsLockInv(w, t, Step(w, a).value.tasks[t].phase, Step(w, a).value.storage);
    case StoreFails(t) => LeaveKeepsLockInv(w, t, Returned(false));
    case Finish(t) => FinishKeepsLockInv(w, t);
    case Cancel(t) => LeaveKeepsLockInv(w, t, Raised);
  }

  /** On every run whatever: the conversation locks exclude each other, no counter ever goes down, and a
      counter disappears only while nobody commits to its conversation. */
  lemma {:induction false} CountersNeverGoBack(w: World, actions: seq<Action>, i: nat)
    requires LockInv(w) && i < |actions| && Run(w, actions[..i + 1]).Some?
    ensures Run(w, actions[..i]).Some?
    ensures LockInv(Run(w, actions[..i]).value)
    ensures CountersAdvance(Run(w, actions[..i]).value, Run(w, actions[..i + 1]).value)
    decreases i
  {
    assert actions[..i + 1][0] == actions[0];
    assert actions[..i + 1][1..] == actions[1..][..i];
    StepKeepsLockInv(w, actions[0]);
    if i > 0 {
      assert actions[..i][0] == actions[0] && actions[..i][1..] == actions[1..][..i - 1];
      CountersNeverGoBack(Step(w, actions[0]).value, actions[1..], i - 1);
    } else {
      assert Run(Step(w, actions[0]).value, []) == Some(Step(w, actions[0]).value);
    }
  }

  /** The conversation's counter survives pruning throughout the run. */
  ghost predicate Retained(w: World, actions: seq<Action>, c: string)
    decreases |actions|
  {
    Get(w.books.latest, c).Some?
    && (actions != [] && Step(w, actions[0]).Some? ==> Retained(Step(w, actions[0]).value, actions[1..], c))
  }

  lemma {:induction false} RetainedCounterGrows(w: World, actions: seq<Action>, c: string)
    requires LockInv(w) && Run(w, actions).Some? && Retained(w, actions, c)
    ensures LockInv(Run(w, actions).value)
    ensures SequenceOf(Run(w, actions).value, c) >= SequenceOf(w, c)
    decreases |actions|
  {
    if actions != [] {
      StepKeepsLockInv(w, actions[0]);
      RetainedCounterGrows(Step(w, actions[0]).value, actions[1..], c);
    }
  }

  /** Of two numbered commits accepted for one conversation, the later one has the larger or equal number,
      unless the counter was pruned in between. */
  lemma AcceptedSequencesNeverDecrease(w: World, first: TaskId, between: seq<Action>, second: TaskId)
    requires LockInv(w) && FinishStep(w, first).Some?
    requires Run(FinishStep(w, first).value, between).Some?
    requires FinishStep(Run(FinishStep(w, first).value, between).value, second).Some?
    requires w.tasks[first].p.sequence != 0
    requires Retained(FinishStep(w, first).value, between, w.tasks[first].p.conversation)
    ensures var p := Run(FinishStep(w, first).value, between).value.tasks[second].p;
            p.conversation == w.tasks[first].p.conversation && p.sequence != 0 ==>
              p.sequence >= w.tasks[first].p.sequence
  {
    FinishKeepsLockInv(w, first);
    RecordedFacts(w.books, w.tasks[first].p, w.tasks[first].phase.history);
    RetainedCounterGrows(FinishStep(w, first).value, between, w.tasks[first].p.conversation);
  }
}
