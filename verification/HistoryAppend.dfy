/** On legal runs the fingerprint merge refines append: nothing any sender said is lost or repeated. */
module HistoryAppend {
  import opened Options
  import opened OrderedDicts
  import opened PyValues
  import opened HistoryMerge
  import opened HistoryCommitter
  import opened HistoryProtocol
  import opened HistoryExact

  /** The base was stored at some time of this run: it extends the history the run started from and the
      stored history extends it. */
  ghost predicate BaseWasStored(p: Pending, storage: map<string, History>, initial: map<string, History>) {
    && p.conversation in storage && p.conversation in initial
    && initial[p.conversation] <= BaseOf(p) <= storage[p.conversation]
  }

  /** Reloads succeed, and no commit is cancelled or fails between its write and its return. */
  ghost predicate LegalStep(w: World, a: Action, initial: map<string, History>) {
    match a
    case Begin(t, p, projection) =>
      projection.Some? ==> WellFormed(p, projection.value) && BaseWasStored(p, w.storage, initial)
    case Load(t, ok) => ok
    case Cancel(t) => t in w.tasks ==> !w.tasks[t].phase.Stored?
    case StoreFails(t) => t in w.tasks ==> !w.tasks[t].phase.Stored?
    case _ => true
  }

  ghost predicate LegalRun(w: World, actions: seq<Action>, initial: map<string, History>)
    decreases |actions|
  {
    actions == [] ||
    (&& LegalStep(w, actions[0], initial)
     && (Step(w, actions[0]).Some? ==> LegalRun(Step(w, actions[0]).value, actions[1..], initial)))
  }

  /** The conversation's lock holder has written but not yet recorded its receipt. */
  predicate StoredPending(w: World, c: string) {
    c in w.lockOwner && w.lockOwner[c] in w.tasks && w.tasks[w.lockOwner[c]].phase.Stored?
  }

  /** The commit holds its own conversation's lock and no other. */
  ghost predicate HoldsItsLock(w: World, t: TaskId) {
    && t in w.tasks && w.tasks[t].p.conversation in w.lockOwner
    && forall c :: c in w.lockOwner ==> (w.lockOwner[c] == t <==> c == w.tasks[t].p.conversation)
  }

  lemma CriticalHoldsLock(w: World, t: TaskId)
    requires LockInv(w) && t in w.tasks && InCritical(w.tasks[t].phase)
    ensures HoldsItsLock(w, t)
  {
  }

  ghost predicate TaskInv(task: Task, storage: map<string, History>, initial: map<string, History>) {
    var c := task.p.conversation;
    Live(task.phase) ==>
      && WellFormed(task.p, task.text)
      && BaseWasStored(task.p, storage, initial)
      && (task.phase.Loading? ==> task.phase.draft == NewHistory(task.p, task.text))
      && (task.phase.Merged? ==> task.phase.history == storage[c] + UnitOf(task))
      && (task.phase.Stored? ==> task.phase.history == storage[c])
  }

  ghost predicate TasksInv(w: World, initial: map<string, History>) {
    forall t :: t in w.tasks ==> TaskInv(w.tasks[t], w.storage, initial)
  }

  /** A receipt is current, or nothing was committed to its conversation since the run started. */
  ghost predicate Current(receipt: Option<Summary>, stored: History, initial: History) {
    receipt == Some(Summarize(stored)) || (receipt == None && stored == initial)
  }

  ghost predicate ReceiptsInv(w: World, initial: map<string, History>) {
    && |w.storage| <= HISTORY_RECEIPT_LIMIT
    && w.storage.Keys == initial.Keys
    && Distinct(w.books.receipts)
    && (forall c :: Get(w.books.receipts, c).Some? ==> c in w.storage)
    && (forall c :: c in w.storage && !StoredPending(w, c) ==>
          Current(Get(w.books.receipts, c), w.storage[c], initial[c]))
  }

  ghost predicate AppendInv(w: World, initial: map<string, History>) {
    LockInv(w) && TasksInv(w, initial) && ReceiptsInv(w, initial)
  }

  /** With no more stored conversations than receipts are kept for, remembering one evicts none. */
  lemma RememberedWithoutEviction(b: Books, p: Pending, history: History, storage: map<string, History>)
    requires Distinct(b.receipts) && p.conversation in storage && |storage| <= HISTORY_RECEIPT_LIMIT
    requires forall c :: Get(b.receipts, c).Some? ==> c in storage
    ensures Distinct(Recorded(b, p, history).receipts)
    ensures forall c :: Get(Recorded(b, p, history).receipts, c)
                        == if c == p.conversation then Some(Summarize(history)) else Get(b.receipts, c)
  {
    var d := PutLast(b.receipts, p.conversation, Summarize(history));
    PutLastFacts(b.receipts, p.conversation, Summarize(history));
    forall k | k in KeySet(d) ensures k in storage.Keys {
      HasIsInKeySet(d, k);
    }
    SubsetSize(KeySet(d), storage.Keys);
    SizeIsKeyCount(d);
    DropOldestFacts(d, HISTORY_RECEIPT_LIMIT);
  }

  lemma OthersKeepTasksInv(w: World, v: World, t: TaskId, initial: map<string, History>)
    requires TasksInv(w, initial)
    requires v.storage == w.storage && v.tasks.Keys == w.tasks.Keys + {t}
    requires forall u :: u in w.tasks && u != t ==> v.tasks[u] == w.tasks[u]
    requires TaskInv(v.tasks[t], w.storage, initial)
    ensures TasksInv(v, initial)
  {
  }

  /** A step of `t` that neither writes nor records anything. */
  lemma QuietStepKeepsInv(w: World, v: World, t: TaskId, initial: map<string, History>)
    requires TasksInv(w, initial) && ReceiptsInv(w, initial)
    requires v.storage == w.storage && v.books.receipts == w.books.receipts
    requires v.tasks.Keys == w.tasks.Keys + {t}
    requires forall u :: u in w.tasks && u != t ==> v.tasks[u] == w.tasks[u]
    requires forall c :: c in w.lockOwner && w.lockOwner[c] != t ==> c in v.lockOwner && v.lockOwner[c] == w.lockOwner[c]
    requires t in w.tasks ==> !w.tasks[t].phase.Stored?
    requires TaskInv(v.tasks[t], w.storage, initial)
    ensures TasksInv(v, initial) && ReceiptsInv(v, initial)
  {
    OthersKeepTasksInv(w, v, t, initial);
    forall c | c in v.storage && !StoredPending(v, c)
      ensures Current(Get(v.books.receipts, c), v.storage[c], initial[c])
    {
      assert !StoredPending(w, c);
    }
  }

  lemma LoadKeepsInv(w: World, t: TaskId, initial: map<string, History>)
    requires AppendInv(w, initial) && LoadStep(w, t, true).Some?
    ensures TasksInv(LoadStep(w, t, true).value, initial) && ReceiptsInv(LoadStep(w, t, true).value, initial)
  {
    var task := w.tasks[t];
    var c := task.p.conversation;
    assert TaskInv(task, w.storage, initial);
    assert !StoredPending(w, c);
    SummaryOfPrefix(BaseOf(task.p), w.storage[c]);
    LoadAppendsIff(w, t, true);
    var v := LoadStep(w, t, true).value;
    assert UnitOf(v.tasks[t]) == UnitOf(task);
    QuietStepKeepsInv(w, v, t, initial);
  }

  lemma GrownStorageKeepsTaskInv(task: Task, storage: map<string, History>, c: string, unit: History,
                                 initial: map<string, History>)
    requires TaskInv(task, storage, initial) && c in storage
    requires InCritical(task.phase) ==> task.p.conversation != c
    ensures TaskInv(task, storage[c := storage[c] + unit], initial)
  {
    if Live(task.phase) && task.p.conversation == c {
      assert storage[c] <= storage[c] + unit;
    }
  }

  lemma StoreAppends(w: World, t: TaskId, initial: map<string, History>)
    requires TasksInv(w, initial) && StoreStep(w, t).Some?
    ensures var c := w.tasks[t].p.conversation;
            && c in w.storage
            && StoreStep(w, t).value.storage == w.storage[c := w.storage[c] + UnitOf(w.tasks[t])]
  {
    assert TaskInv(w.tasks[t], w.storage, initial);
  }

  lemma StoreKeepsTasksInv(w: World, t: TaskId, initial: map<string, History>)
    requires LockInv(w) && TasksInv(w, initial) && StoreStep(w, t).Some?
    ensures TasksInv(StoreStep(w, t).value, initial)
  {
    var v := StoreStep(w, t).value;
    var task := w.tasks[t];
    var c := task.p.conversation;
    StoreAppends(w, t, initial);
    forall u | u in v.tasks ensures TaskInv(v.tasks[u], v.storage, initial) {
      assert TaskInv(w.tasks[u], w.storage, initial);
      if u != t {
        GrownStorageKeepsTaskInv(w.tasks[u], w.storage, c, UnitOf(task), initial);
      } else {
        assert w.storage[c] <= v.storage[c];
      }
    }
  }

  lemma StoreKeepsReceiptsInv(w: World, t: TaskId, initial: map<string, History>)
    requires HoldsItsLock(w, t) && TasksInv(w, initial) && ReceiptsInv(w, initial) && StoreStep(w, t).Some?
    ensures ReceiptsInv(StoreStep(w, t).value, initial)
  {
    var v := StoreStep(w, t).value;
    StoreAppends(w, t, initial);
    assert v.storage.Keys == w.storage.Keys;
    assert |v.storage| == |v.storage.Keys| && |w.storage| == |w.storage.Keys|;
    assert v.tasks[t].phase.Stored?;
    forall c | c in v.storage && !StoredPending(v, c)
      ensures Current(Get(v.books.receipts, c), v.storage[c], initial[c])
    {
      assert c != w.tasks[t].p.conversation;
      assert !StoredPending(w, c);
    }
  }

  lemma FinishedWorld(w: World, t: TaskId, initial: map<string, History>)
    requires HoldsItsLock(w, t) && TasksInv(w, initial) && FinishStep(w, t).Some?
    ensures t in w.tasks && w.tasks[t].phase.Stored?
    ensures var v := FinishStep(w, t).value;
            var task := w.tasks[t];
            && v.books.receipts == Recorded(w.books, task.p, task.phase.history).receipts
            && v.storage == w.storage && v.lockOwner == w.lockOwner - {task.p.conversation}
            && v.tasks == w.tasks[t := task.(phase := Returned(true))]
            && task.p.conversation in w.storage && task.phase.history == w.storage[task.p.conversation]
            && forall c :: c != task.p.conversation && StoredPending(w, c) ==> StoredPending(v, c)
  {
    assert TaskInv(w.tasks[t], w.storage, initial);
  }

  lemma FinishKeepsReceiptsInv(w: World, t: TaskId, initial: map<string, History>)
    requires HoldsItsLock(w, t) && TasksInv(w, initial) && ReceiptsInv(w, initial) && FinishStep(w, t).Some?
    ensures ReceiptsInv(FinishStep(w, t).value, initial)
  {
    hide FinishStep, Recorded, TasksInv, Summarize, StoredPending, HoldsItsLock;
    FinishedWorld(w, t, initial);
    var v := FinishStep(w, t).value;
    var task := w.tasks[t];
    RememberedWithoutEviction(w.books, task.p, task.phase.history, w.storage);
    forall c | c in v.storage && !StoredPending(v, c)
      ensures Current(Get(v.books.receipts, c), v.storage[c], initial[c])
    {
      if c != task.p.conversation {
        assert !StoredPending(w, c);
      }
    }
  }

  lemma FinishKeepsInv(w: World, t: TaskId, initial: map<string, History>)
    requires HoldsItsLock(w, t) && TasksInv(w, initial) && ReceiptsInv(w, initial) && FinishStep(w, t).Some?
    ensures TasksInv(FinishStep(w, t).value, initial) && ReceiptsInv(FinishStep(w, t).value, initial)
  {
    FinishKeepsReceiptsInv(w, t, initial);
    OthersKeepTasksInv(w, FinishStep(w, t).value, t, initial);
  }

  /** The units stored for a conversation along a run, in the order of their writes. */
  function StoredUnits(w: World, actions: seq<Action>, c: string): History
    decreases |actions|
  {
    if actions == [] || Step(w, actions[0]).None? then []
    else
      StoredBy(w, actions[0], c) + StoredUnits(Step(w, actions[0]).value, actions[1..], c)
  }

  /** The unit a step stores for a conversation, if any. */
  function StoredBy(w: World, a: Action, c: string): History {
    if a.Store? && a.t in w.tasks && w.tasks[a.t].p.conversation == c then UnitOf(w.tasks[a.t]) else []
  }

  lemma EnterKeepsInv(w: World, t: TaskId, initial: map<string, History>)
    requires TasksInv(w, initial) && ReceiptsInv(w, initial) && EnterStep(w, t).Some?
    ensures TasksInv(EnterStep(w, t).value, initial) && ReceiptsInv(EnterStep(w, t).value, initial)
  {
    assert TaskInv(w.tasks[t], w.storage, initial);
    if !IsStale(w.books.latest, w.tasks[t].p) {
      UnitIsUser(w.tasks[t].p, w.tasks[t].text);
    }
    QuietStepKeepsInv(w, EnterStep(w, t).value, t, initial);
  }

  lemma BegunWorld(w: World, t: TaskId, p: Pending, projection: Option<string>)
    requires BeginStep(w, t, p, projection).Some?
    ensures var v := BeginStep(w, t, p, projection).value;
            && t !in w.tasks && v.storage == w.storage && v.books.receipts == w.books.receipts
            && v.lockOwner == w.lockOwner
            && v.tasks == w.tasks[t := if projection.None? then Task(p, "", Returned(false))
                                       else Task(p, projection.value, Queued)]
  {
  }

  lemma BeginKeepsInv(w: World, t: TaskId, p: Pending, projection: Option<string>, initial: map<string, History>)
    requires TasksInv(w, initial) && ReceiptsInv(w, initial)
    requires BeginStep(w, t, p, projection).Some?
    requires projection.Some? ==> WellFormed(p, projection.value) && BaseWasStored(p, w.storage, initial)
    ensures TasksInv(BeginStep(w, t, p, projection).value, initial)
    ensures ReceiptsInv(BeginStep(w, t, p, projection).value, initial)
  {
    hide BeginStep, WellFormed, BaseWasStored, Current;
    BegunWorld(w, t, p, projection);
    var v := BeginStep(w, t, p, projection).value;
    assert forall c :: StoredPending(w, c) ==> StoredPending(v, c);
  }

  lemma LeaveKeepsInv(w: World, t: TaskId, phase: Phase, initial: map<string, History>)
    requires TasksInv(w, initial) && ReceiptsInv(w, initial)
    requires t in w.tasks && !w.tasks[t].phase.Stored? && !Live(phase)
    ensures TasksInv(Leave(w, t, phase), initial) && ReceiptsInv(Leave(w, t, phase), initial)
  {
    QuietStepKeepsInv(w, Leave(w, t, phase), t, initial);
  }

  lemma StepKeepsOtherInvs(w: World, a: Action, initial: map<string, History>)
    requires AppendInv(w, initial) && LegalStep(w, a, initial) && Step(w, a).Some?
    ensures TasksInv(Step(w, a).value, initial) && ReceiptsInv(Step(w, a).value, initial)
  {
    hide LockInv, TasksInv, ReceiptsInv, BeginStep, EnterStep, LoadStep, Leave;
    match a
    case Begin(t, p, projection) => BeginKeepsInv(w, t, p, projection, initial);
    case Enter(t) => EnterKeepsInv(w, t, initial);
    case Load(t, ok) => LoadKeepsInv(w, t, initial);
    case Store(t) =>
      CriticalHoldsLock(w, t);
      StoreKeepsTasksInv(w, t, initial);
      StoreKeepsReceiptsInv(w, t, initial);
    case StoreFails(t) => LeaveKeepsInv(w, t, Returned(false), initial);
    case Finish(t) =>
      CriticalHoldsLock(w, t);
      FinishKeepsInv(w, t, initial);
    case Cancel(t) => LeaveKeepsInv(w, t, Raised, initial);
  }

  /** Only a write changes the stored histories, and it appends its unit to its own conversation's. */
  lemma StepAppends(w: World, a: Action, initial: map<string, History>)
    requires TasksInv(w, initial) && Step(w, a).Some?
    ensures Step(w, a).value.storage.Keys == w.storage.Keys
    ensures forall c :: c in w.storage ==> Step(w, a).value.storage[c] == w.storage[c] + StoredBy(w, a, c)
  {
    if a.Store? {
      StoreAppends(w, a.t, initial);
    }
    forall c | c in w.storage ensures w.storage[c] == w.storage[c] + [] {}
  }

  lemma StepKeepsAppendInv(w: World, a: Action, initial: map<string, History>)
    requires AppendInv(w, initial) && LegalStep(w, a, initial) && Step(w, a).Some?
    ensures AppendInv(Step(w, a).value, initial)
  {
    StepKeepsLockInv(w, a);
    StepKeepsOtherInvs(w, a, initial);
  }

  lemma {:induction false} RunKeepsAppendInv(w: World, actions: seq<Action>, initial: map<string, History>)
    requires AppendInv(w, initial) && LegalRun(w, actions, initial) && Run(w, actions).Some?
    ensures AppendInv(Run(w, actions).value, initial)
    decreases |actions|
  {
    if actions != [] {
      StepKeepsAppendInv(w, actions[0], initial);
      RunKeepsAppendInv(Step(w, actions[0]).value, actions[1..], initial);
    }
  }

  ghost predicate EachStepAppends(w: World, actions: seq<Action>, c: string)
    requires c in w.storage
    decreases |actions|
  {
    actions == [] ||
    match Step(w, actions[0])
    case None => true
    case Some(v) =>
      && c in v.storage
      && v.storage[c] == w.storage[c] + StoredBy(w, actions[0], c)
      && EachStepAppends(v, actions[1..], c)
  }

  lemma {:induction false} LegalStepsAppend(w: World, actions: seq<Action>, initial: map<string, History>, c: string)
    requires AppendInv(w, initial) && LegalRun(w, actions, initial)
    requires c in w.storage
    ensures EachStepAppends(w, actions, c)
    decreases |actions|
  {
    if actions != [] && Step(w, actions[0]).Some? {
      StepKeepsAppendInv(w, actions[0], initial);
      StepAppends(w, actions[0], initial);
      LegalStepsAppend(Step(w, actions[0]).value, actions[1..], initial, c);
    }
  }

  lemma {:induction false} AppendsAddUp(w: World, actions: seq<Action>, c: string, final: World)
    requires c in w.storage && EachStepAppends(w, actions, c) && Run(w, actions) == Some(final)
    ensures c in final.storage && final.storage[c] == w.storage[c] + StoredUnits(w, actions, c)
    decreases |actions|
  {
    if actions != [] {
      match Step(w, actions[0]) {
        case Some(v) =>
          AppendsAddUp(v, actions[1..], c, final);
          Associates(w.storage[c], StoredBy(w, actions[0], c), StoredUnits(v, actions[1..], c));
      }
    }
  }

  lemma Associates(a: History, b: History, c: History)
    ensures a + b + c == a + (b + c)
  {
  }

  /** The theorem: from any stored histories (for at most as many conversations as receipts are kept for),
      every legal run ends with each conversation's history followed by exactly the units of its accepted
      commits, each once, in order. */
  lemma LegalRunsOnlyAppend(initial: map<string, History>, actions: seq<Action>)
    requires |initial| <= HISTORY_RECEIPT_LIMIT
    requires LegalRun(Start(initial), actions, initial) && Run(Start(initial), actions).Some?
    ensures Run(Start(initial), actions).value.storage.Keys == initial.Keys
    ensures forall c :: c in initial ==>
                          Run(Start(initial), actions).value.storage[c]
                          == initial[c] + StoredUnits(Start(initial), actions, c)
  {
    var w := Start(initial);
    RunKeepsAppendInv(w, actions, initial);
    forall c | c in initial
      ensures Run(w, actions).value.storage[c] == initial[c] + StoredUnits(w, actions, c)
    {
      LegalStepsAppend(w, actions, initial, c);
      AppendsAddUp(w, actions, c, Run(w, actions).value);
    }
  }
}
