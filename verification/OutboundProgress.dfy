/** What holds on every run of the outbound gate, when its locks end up free, and when its tasks can finish. */
module OutboundProgress {
  import opened Options
  import opened OutboundGate
  import opened OutboundProtocol
  import opened OutboundInvariant
  import opened OutboundSteps

  // ---------------------------------------------------------------- every reachable state

  lemma AnyStepKeepsInv(w: World, a: Action)
    requires Inv(w) && Step(w, a).Some?
    ensures Inv(Step(w, a).value) && |Step(w, a).value.tasks| == |w.tasks|
  {
    hide Inv;
    match a
    case Bind(t, e, u) => BindKeepsInv(w, t, e, u);
    case BindAgain(t, e) => BindAgainKeepsInv(w, t, e);
    case Hold(t) => HoldKeepsInv(w, t);
    case BareHold(t, e, u) => BareHoldKeepsInv(w, t, e, u);
    case EnterAround(t, u) => EnterKeepsInv(w, t, u);
    case Acquire(t) =>
      if w.tasks[t].wait.HoldWaits? {
        AcquireForHoldKeepsInv(w, t);
      } else {
        AcquireForSendKeepsInv(w, t);
      }
    case Registered(t) =>
      if w.tasks[t].wait.loose {
        RegisteredBareKeepsInv(w, t);
      } else {
        RegisteredTurnKeepsInv(w, t);
      }
    case AbortWait(t) => AbortKeepsInv(w, t);
    case Leave(t) =>
      if w.tasks[t].stack[0].Turn? {
        LeaveTurnKeepsInv(w, t);
      } else {
        LeaveSendKeepsInv(w, t);
      }
    case BareRelease(t, e) => BareReleaseKeepsInv(w, t, e);
  }

  /** The task has a turn for the event, holds for it without a turn, or is about to. */
  predicate UsesEvent(ts: TaskState, e: EventId) {
    || BindsEvent(ts.stack, e) || FindLoose(ts.loose, e).Some?
    || ((ts.wait.HoldWaits? || ts.wait.HoldAcquired?) && ts.wait.loose && ts.wait.event == e)
  }

  /** A bound event is in use by its task. */
  ghost predicate BoundAreUsed(w: World) {
    forall e :: e in w.bound ==> w.bound[e] < |w.tasks| && UsesEvent(w.tasks[w.bound[e]], e)
  }

  lemma {:induction false} SetModeBinds(stack: seq<Frame>, e: EventId, m: Mode, x: EventId)
    ensures BindsEvent(SetMode(stack, e, m), x) <==> BindsEvent(stack, x)
  {
    if stack != [] {
      SetModeBinds(stack[1..], e, m, x);
    }
  }

  lemma {:induction false} FindAppended(loose: seq<Loose>, l: Loose, e: EventId)
    ensures FindLoose(loose + [l], e).Some? <==> FindLoose(loose, e).Some? || e == l.event
  {
    if loose == [] {
      assert loose + [l] == [l] && [l][1..] == [];
    } else {
      assert (loose + [l])[1..] == loose[1..] + [l];
      FindAppended(loose[1..], l, e);
    }
  }

  lemma {:induction false} FindDropped(loose: seq<Loose>, e: EventId, x: EventId)
    requires x != e && FindLoose(loose, x).Some?
    ensures FindLoose(Dropped(loose, e), x).Some?
  {
    if loose[0].event != e && loose[0].event != x {
      FindDropped(loose[1..], e, x);
    }
  }

  /** What a step of `t` leaves in use. */
  lemma StepKeepsUse(w: World, a: Action, e: EventId)
    requires Step(w, a).Some? && e in w.bound && e in Step(w, a).value.bound
    requires a.t < |w.tasks| && UsesEvent(w.tasks[a.t], e)
    ensures UsesEvent(Step(w, a).value.tasks[a.t], e)
  {
    var (ts, after) := (w.tasks[a.t], Step(w, a).value.tasks[a.t]);
    if (a.Bind? || a.BindAgain? || a.EnterAround? || a.Acquire?) && |after.stack| > |ts.stack| {
      assert after.stack[1..] == ts.stack;
    }
    if a.Hold? {
      SetModeBinds(ts.stack, CurrentTurn(ts.stack).value.event, Nests, e);
    } else if a.Registered? {
      SetModeBinds(ts.stack, ts.wait.event, Owns, e);
      FindAppended(ts.loose, Loose(ts.wait.event, ts.wait.umo, true), e);
    } else if a.BareHold? {
      FindAppended(ts.loose, Loose(a.e, a.u, false), e);
    } else if (a.BareRelease? || a.BindAgain?) && e != a.e && FindLoose(ts.loose, e).Some? {
      FindDropped(ts.loose, a.e, e);
    }
  }

  lemma NewlyBoundIsUsed(w: World, a: Action, e: EventId)
    requires Step(w, a).Some? && e in Step(w, a).value.bound && e !in w.bound
    ensures (a.Bind? || a.BareHold?) && e == a.e && Step(w, a).value.bound[e] == a.t
    ensures a.t < |w.tasks| == |Step(w, a).value.tasks| && UsesEvent(Step(w, a).value.tasks[a.t], e)
  {
    if a.BareHold? {
      FindAppended(w.tasks[a.t].loose, Loose(a.e, a.u, false), e);
    }
  }

  lemma StaysBound(w: World, a: Action, e: EventId)
    requires Step(w, a).Some? && e in Step(w, a).value.bound && e in w.bound
    ensures a.t < |w.tasks| == |Step(w, a).value.tasks| && Step(w, a).value.bound[e] == w.bound[e]
    ensures forall t: TaskId :: t < |w.tasks| && t != a.t ==> Step(w, a).value.tasks[t] == w.tasks[t]
  {
  }

  lemma StepKeepsBoundUsed(w: World, a: Action)
    requires BoundAreUsed(w) && Step(w, a).Some?
    ensures BoundAreUsed(Step(w, a).value)
  {
    hide Step, UsesEvent;
    var v := Step(w, a).value;
    forall e | e in v.bound ensures v.bound[e] < |v.tasks| && UsesEvent(v.tasks[v.bound[e]], e) {
      if e in w.bound {
        StaysBound(w, a, e);
        if w.bound[e] == a.t {
          StepKeepsUse(w, a, e);
        }
      } else {
        NewlyBoundIsUsed(w, a, e);
      }
    }
  }

  lemma {:induction false} RunKeepsInv(w: World, actions: seq<Action>)
    requires Inv(w) && BoundAreUsed(w) && Run(w, actions).Some?
    ensures Inv(Run(w, actions).value) && BoundAreUsed(Run(w, actions).value)
    ensures |Run(w, actions).value.tasks| == |w.tasks|
    decreases |actions|
  {
    hide Inv, BoundAreUsed;
    if actions != [] {
      StepKeepsBoundUsed(w, actions[0]);
      AnyStepKeepsInv(w, actions[0]);
      RunKeepsInv(Step(w, actions[0]).value, actions[1..]);
    }
  }

  lemma ReachableInv(taskCount: nat, w: World)
    requires Reachable(taskCount, w)
    ensures Inv(w) && BoundAreUsed(w) && |w.tasks| == taskCount
  {
    var actions :| Run(Start(taskCount), actions) == Some(w);
    RunKeepsInv(Start(taskCount), actions);
  }

  /** Recorded owners of a UMO's lock among the first `k` tasks. */
  function RecordedOwners(w: World, u: Umo, k: nat): nat
    requires k <= |w.tasks|
  {
    if k == 0 then 0 else RecordedOwners(w, u, k - 1) + Owners(w.tasks[k - 1], u)
  }

  lemma {:induction false} OwnersAreTheLock(w: World, u: Umo, k: nat)
    requires Inv(w) && k <= |w.tasks|
    ensures RecordedOwners(w, u, k) == One(u in w.lock && w.lock[u] < k)
  {
    if k > 0 {
      OwnersAreTheLock(w, u, k - 1);
      assert TaskOk(w.gate, w.lock, w.bound, k - 1, w.tasks[k - 1]);
      assert Owners(w.tasks[k - 1], u) == One(LockedBy(w.lock, u, k - 1));
    }
  }

  /** In every reachable state a UMO's lock is taken exactly when it has one recorded owner, and each task's depth
      counts its live holds; a task that never held without a turn has the lock of each UMO it holds, and holds
      each UMO whose lock it has. */
  lemma LockHasOneRecordedOwner(taskCount: nat, w: World, u: Umo)
    requires Reachable(taskCount, w)
    ensures RecordedOwners(w, u, |w.tasks|) == One(u in w.lock)
    ensures forall t :: 0 <= t < |w.tasks| ==> DepthOf(w.gate, t, u) == LiveHolds(w.tasks[t], u)
    ensures forall t :: 0 <= t < |w.tasks| && !w.tasks[t].strayed ==>
                          (LockedBy(w.lock, u, t) <==> LiveHolds(w.tasks[t], u) > 0
                                                       || (w.tasks[t].wait.HoldAcquired? && w.tasks[t].wait.umo == u))
  {
    ReachableInv(taskCount, w);
    OwnersAreTheLock(w, u, |w.tasks|);
    forall t | 0 <= t < |w.tasks|
      ensures DepthOf(w.gate, t, u) == LiveHolds(w.tasks[t], u)
      ensures !w.tasks[t].strayed ==>
                (LockedBy(w.lock, u, t) <==> LiveHolds(w.tasks[t], u) > 0
                                             || (w.tasks[t].wait.HoldAcquired? && w.tasks[t].wait.umo == u))
    {
      var ts := w.tasks[t];
      assert TaskOk(w.gate, w.lock, w.bound, t, ts);
      assert Owners(ts, u) == One(LockedBy(w.lock, u, t));
      if !ts.strayed {
        OneOwnerPerHeldUmo(ts.stack, u);
      }
    }
  }

  // ---------------------------------------------------------------- when the locks are free

  /** The task keeps the lock with a hold that no turn will release, or has lost its handle. */
  predicate Kept(ts: TaskState, u: Umo) {
    LooseOwnCount(ts.loose, u) > 0 || u in ts.leaked
  }

  /** Once every task is back at its top level, a lock is taken exactly if a hold without a turn keeps it. */
  lemma FinishedLockIff(taskCount: nat, w: World, u: Umo)
    requires Reachable(taskCount, w) && Finished(w)
    ensures u in w.lock <==> exists t: TaskId :: t < |w.tasks| && Kept(w.tasks[t], u)
  {
    ReachableInv(taskCount, w);
    forall t: TaskId | t < |w.tasks| ensures LockedBy(w.lock, u, t) <==> Kept(w.tasks[t], u) {
      assert TaskOk(w.gate, w.lock, w.bound, t, w.tasks[t]);
      assert Owners(w.tasks[t], u) == One(LockedBy(w.lock, u, t));
    }
    if u in w.lock {
      assert LockedBy(w.lock, u, w.lock[u]);
    }
  }

  /** All locks are free in the end if and only if no hold without a turn keeps one. */
  lemma FinishedIsFreeIff(taskCount: nat, w: World)
    requires Reachable(taskCount, w) && Finished(w)
    ensures w.lock == map[] <==> forall t: TaskId, u :: t < |w.tasks| ==> !Kept(w.tasks[t], u)
  {
    if w.lock == map[] {
      forall t: TaskId, u | t < |w.tasks| ensures !Kept(w.tasks[t], u) {
        FinishedLockIff(taskCount, w, u);
      }
    } else {
      var u :| u in w.lock;
      FinishedLockIff(taskCount, w, u);
    }
  }

  lemma TaskIsOk(w: World, t: TaskId)
    requires Inv(w) && t < |w.tasks|
    ensures TaskOk(w.gate, w.lock, w.bound, t, w.tasks[t])
  {
  }

  lemma LooseIsRegistered(w: World, t: TaskId)
    requires Inv(w) && t < |w.tasks| && w.tasks[t].loose != []
    ensures w.tasks[t].loose[0].event in w.gate.turnCms
  {
    hide Inv;
    TaskIsOk(w, t);
    assert w.tasks[t].loose[0] in w.tasks[t].loose;
  }

  /** A registered event of a finished task is one it holds without a turn. */
  lemma RegisteredIsLoose(w: World, e: EventId)
    requires Inv(w) && BoundAreUsed(w) && Finished(w) && e in w.gate.turnCms
    ensures e in w.bound && w.bound[e] < |w.tasks| && w.tasks[w.bound[e]].loose != []
  {
    hide TaskOk;
    assert UsesEvent(w.tasks[w.bound[e]], e);
    assert Idle(w.tasks[w.bound[e]]);
  }

  lemma NobodyIsPending(w: World)
    requires Inv(w) && Finished(w)
    ensures w.gate.pending == {} && w.gate.turnCms.Keys == w.gate.turnUmos.Keys
  {
    hide TaskOk;
    forall e | e in w.gate.pending ensures false {
      assert Pending(w, e) && Idle(w.tasks[w.bound[e]]);
    }
  }

  lemma DepthIsLoose(w: World, t: TaskId, u: Umo)
    requires Inv(w) && Finished(w) && t < |w.tasks|
    ensures DepthOf(w.gate, t, u) == LooseCount(w.tasks[t].loose, u)
  {
    hide Inv;
    TaskIsOk(w, t);
    assert Idle(w.tasks[t]);
  }

  /** The gate remembers nothing in the end if and only if every hold without a turn was released. */
  lemma FinishedIsForgottenIff(taskCount: nat, w: World)
    requires Reachable(taskCount, w) && Finished(w)
    ensures (forall t: TaskId :: t < |w.tasks| ==> w.tasks[t].loose == [])
            <==> w.gate.turnCms == map[] && w.gate.turnUmos == map[]
    ensures w.gate.pending == {}
    ensures forall t: TaskId, u :: t < |w.tasks| ==> DepthOf(w.gate, t, u) == LooseCount(w.tasks[t].loose, u)
  {
    hide Inv, BoundAreUsed, Reachable, Finished;
    ReachableInv(taskCount, w);
    NobodyIsPending(w);
    forall t: TaskId, u | t < |w.tasks| ensures DepthOf(w.gate, t, u) == LooseCount(w.tasks[t].loose, u) {
      DepthIsLoose(w, t, u);
    }
    forall t: TaskId | t < |w.tasks| && w.tasks[t].loose != []
      ensures w.tasks[t].loose[0].event in w.gate.turnCms
    {
      LooseIsRegistered(w, t);
    }
    if e :| e in w.gate.turnCms {
      RegisteredIsLoose(w, e);
    }
  }

  // ---------------------------------------------------------------- when every task can finish

  ghost predicate AllOn(stack: seq<Frame>, u: Umo) {
    stack == [] || (stack[0].umo == u && AllOn(stack[1..], u))
  }

  /** Every task stays on its home UMO. */
  ghost predicate AtHome(w: World, home: seq<Umo>) {
    && |home| == |w.tasks|
    && forall t :: 0 <= t < |w.tasks| ==>
                     && AllOn(w.tasks[t].stack, home[t])
                     && (!w.tasks[t].wait.Ready? ==> w.tasks[t].wait.umo == home[t])
  }

  /** The steps that only move on what was already entered. */
  predicate Finishing(a: Action) {
    a.Acquire? || a.Registered? || a.Leave?
  }

  ghost predicate FinishingRun(w: World, actions: seq<Action>) {
    (forall a :: a in actions ==> Finishing(a)) && Run(w, actions).Some? && Finished(Run(w, actions).value)
  }

  /** The task waits for a lock. */
  predicate Awaits(ts: TaskState, u: Umo) {
    (ts.wait.HoldWaits? || ts.wait.SendWaits?) && ts.wait.umo == u
  }

  predicate BareWaits(ts: TaskState) {
    ts.wait.HoldWaits? && ts.wait.loose
  }

  /** Among the frames is a turn that owns the lock and will end before other holds of the task. */
  predicate WillLeak(stack: seq<Frame>, loose: seq<Loose>, u: Umo) {
    stack != []
    && (|| (stack[0].Turn? && stack[0].mode == Owns && stack[0].umo == u
            && HoldCount(stack[1..], u) + LooseCount(loose, u) > 0)
        || WillLeak(stack[1..], loose, u))
  }

  /** The task keeps the lock beyond the end of all its frames. */
  predicate Keeps(ts: TaskState, u: Umo) {
    Kept(ts, u) || WillLeak(ts.stack, ts.loose, u)
  }

  /** The first task keeps, or is about to keep, a lock that the second one waits for; or both wait to keep it. */
  predicate Blocks(w: World, t: TaskId, t2: TaskId) {
    && t < |w.tasks| && t2 < |w.tasks| && !w.tasks[t2].wait.Ready?
    && var (a, b, u) := (w.tasks[t], w.tasks[t2], w.tasks[t2].wait.umo);
       || (Awaits(b, u) && (Keeps(a, u) || (a.wait.HoldAcquired? && a.wait.loose && a.wait.umo == u)))
       || (t != t2 && BareWaits(a) && BareWaits(b) && a.wait.umo == u)
  }

  /** No hold without a turn is in anyone's way. */
  ghost predicate Clear(w: World) {
    forall t: TaskId, t2: TaskId :: !Blocks(w, t, t2)
  }

  lemma OwnersAre(w: World, t: TaskId, u: Umo)
    requires Inv(w) && t < |w.tasks|
    ensures Owners(w.tasks[t], u) == One(LockedBy(w.lock, u, t))
  {
    hide Owners, LiveHolds;
    assert TaskOk(w.gate, w.lock, w.bound, t, w.tasks[t]);
  }

  lemma KeptIsLocked(w: World, t: TaskId, u: Umo)
    requires Inv(w) && t < |w.tasks| && Kept(w.tasks[t], u)
    ensures LockedBy(w.lock, u, t)
  {
    hide Inv;
    OwnersAre(w, t, u);
  }

  lemma {:induction false} WillLeakOwns(stack: seq<Frame>, loose: seq<Loose>, u: Umo)
    requires WillLeak(stack, loose, u)
    ensures OwnCount(stack, u) > 0
  {
    if !Owner(stack[0], u) {
      WillLeakOwns(stack[1..], loose, u);
    }
  }

  lemma {:induction false} WillLeakByCount(stack: seq<Frame>, loose: seq<Loose>, more: seq<Loose>, u: Umo)
    requires LooseCount(loose, u) <= LooseCount(more, u)
    ensures WillLeak(stack, loose, u) ==> WillLeak(stack, more, u)
  {
    if stack != [] {
      WillLeakByCount(stack[1..], loose, more, u);
    }
  }

  lemma {:induction false} NothingHeldLeaks(stack: seq<Frame>, loose: seq<Loose>, u: Umo)
    requires HoldCount(stack, u) == 0
    ensures !WillLeak(stack, loose, u)
  {
    if stack != [] {
      NothingHeldLeaks(stack[1..], loose, u);
    }
  }

  /** A turn that ends drops its handle exactly if other holds of its task are left. */
  lemma LeavingLeaksIff(w: World, t: TaskId, u: Umo)
    requires Inv(w) && LeaveStep(w, t).Some?
    ensures t < |w.tasks| == |LeaveStep(w, t).value.tasks|
    ensures var (ts, after) := (w.tasks[t], LeaveStep(w, t).value.tasks[t]);
            && ts.stack != [] && after.stack == ts.stack[1..] && after.loose == ts.loose
            && (u in after.leaked <==>
                  || u in ts.leaked
                  || (ts.stack[0].Turn? && ts.stack[0].mode == Owns && ts.stack[0].umo == u
                      && HoldCount(ts.stack[1..], u) + LooseCount(ts.loose, u) > 0))
  {
    hide FramesOk, EventsUnique, LooseUnique, WaitOk, LockOk, StayedOk, TablesOk;
    var ts := w.tasks[t];
    assert TaskOk(w.gate, w.lock, w.bound, t, ts);
    if ts.stack[0].Turn? {
      assert FrameLinked(w.gate, w.bound, t, ts.stack[0]);
      assert DepthOf(w.gate, t, ts.stack[0].umo) == LiveHolds(ts, ts.stack[0].umo);
    }
  }

  lemma LeavingKeepsIff(w: World, t: TaskId, u: Umo)
    requires Inv(w) && LeaveStep(w, t).Some?
    ensures Keeps(LeaveStep(w, t).value.tasks[t], u) <==> Keeps(w.tasks[t], u)
  {
    hide Inv, LeaveStep;
    LeavingLeaksIff(w, t, u);
  }

  lemma AcquiringKeepsIff(w: World, t: TaskId, u: Umo)
    requires AcquireStep(w, t).Some?
    ensures Keeps(AcquireStep(w, t).value.tasks[t], u) <==> Keeps(w.tasks[t], u)
  {
    if w.tasks[t].wait.SendWaits? {
      assert AcquireStep(w, t).value.tasks[t].stack[1..] == w.tasks[t].stack;
    }
  }

  /** What a waiting task knows. */
  lemma WaiterHolds(w: World, t: TaskId)
    requires Inv(w) && t < |w.tasks| && w.tasks[t].wait.HoldAcquired?
    ensures var (ts, wait) := (w.tasks[t], w.tasks[t].wait);
            && HoldCount(ts.stack, wait.umo) == 0 && LooseCount(ts.loose, wait.umo) == 0
            && (!wait.loose ==> ts.stack != [] && ts.stack[0] == Turn(wait.event, wait.umo, Unheld))
  {
    hide FramesOk, EventsOk, DepthOk, LockOk, StayedOk, TablesOk;
    assert TaskOk(w.gate, w.lock, w.bound, t, w.tasks[t]);
  }

  /** Registering makes a task keep a lock only if it does so without a turn. */
  lemma RegisteringKeepsIff(w: World, t: TaskId, u: Umo)
    requires Inv(w) && RegisteredStep(w, t).Some?
    ensures var (ts, after) := (w.tasks[t], RegisteredStep(w, t).value.tasks[t]);
            Keeps(after, u) <==> Keeps(ts, u) || (ts.wait.loose && ts.wait.umo == u)
  {
    hide Inv;
    var (ts, after) := (w.tasks[t], RegisteredStep(w, t).value.tasks[t]);
    WaiterHolds(w, t);
    if ts.wait.loose {
      var l := Loose(ts.wait.event, ts.wait.umo, true);
      LooseOwnAppended(ts.loose, l, u);
      LooseCountAppended(ts.loose, l, u);
      if u != l.umo {
        WillLeakByCount(ts.stack, ts.loose, after.loose, u);
        WillLeakByCount(ts.stack, after.loose, ts.loose, u);
      } else {
        NothingHeldLeaks(ts.stack, ts.loose, u);
      }
    } else {
      assert after.stack == [ts.stack[0].(mode := Owns)] + ts.stack[1..];
      assert after.stack[1..] == ts.stack[1..];
    }
  }

  lemma {:induction false} LooseCountAppended(loose: seq<Loose>, l: Loose, u: Umo)
    ensures LooseCount(loose + [l], u) == LooseCount(loose, u) + One(l.umo == u)
  {
    if loose == [] {
      assert loose + [l] == [l] && [l][1..] == [];
    } else {
      assert (loose + [l])[1..] == loose[1..] + [l];
      LooseCountAppended(loose[1..], l, u);
    }
  }

  /** Moving on, a task comes to keep a lock only by registering a hold without a turn, and keeps what it kept. */
  lemma FinishingKeepsIff(w: World, a: Action, u: Umo)
    requires Inv(w) && Finishing(a) && Step(w, a).Some?
    ensures a.t < |w.tasks| == |Step(w, a).value.tasks|
    ensures forall t: TaskId :: t < |w.tasks| && t != a.t ==> Step(w, a).value.tasks[t] == w.tasks[t]
    ensures Keeps(Step(w, a).value.tasks[a.t], u) <==>
            Keeps(w.tasks[a.t], u) || (a.Registered? && w.tasks[a.t].wait.loose && w.tasks[a.t].wait.umo == u)
  {
    hide Inv, Keeps;
    match a
    case Acquire(t) => AcquiringKeepsIff(w, t, u);
    case Registered(t) => RegisteringKeepsIff(w, t, u);
    case Leave(t) => LeavingKeepsIff(w, t, u);
  }

  /** A task in the way stays in the way. */
  lemma BlocksForGood(w: World, t: TaskId, t2: TaskId, a: Action)
    requires Inv(w) && Blocks(w, t, t2) && Finishing(a) && Step(w, a).Some?
    ensures Blocks(Step(w, a).value, t, t2) || Blocks(Step(w, a).value, t2, t)
  {
    hide Inv, Keeps, SetMode, Register, SendAcquired, ReleaseTurn, LeaveSend;
    var (ts, u) := (w.tasks[t], w.tasks[t2].wait.umo);
    FinishingKeepsIff(w, a, u);
    if Awaits(w.tasks[t2], u) && (Keeps(ts, u) || (ts.wait.HoldAcquired? && ts.wait.umo == u)) {
      LockIsTaken(w, t, u);
    }
  }

  lemma LockIsTaken(w: World, t: TaskId, u: Umo)
    requires Inv(w) && t < |w.tasks|
    requires Keeps(w.tasks[t], u) || (w.tasks[t].wait.HoldAcquired? && w.tasks[t].wait.umo == u)
    ensures u in w.lock
  {
    hide Inv;
    OwnersAre(w, t, u);
    if WillLeak(w.tasks[t].stack, w.tasks[t].loose, u) {
      WillLeakOwns(w.tasks[t].stack, w.tasks[t].loose, u);
    }
  }

  lemma {:induction false} LooseOwnAppended(loose: seq<Loose>, l: Loose, u: Umo)
    ensures LooseOwnCount(loose + [l], u) == LooseOwnCount(loose, u) + One(l.umo == u && l.owns)
  {
    if loose == [] {
      assert loose + [l] == [l] && [l][1..] == [];
    } else {
      assert (loose + [l])[1..] == loose[1..] + [l];
      LooseOwnAppended(loose[1..], l, u);
    }
  }

  lemma {:induction false} BlockedRunNeverFinishes(w: World, t: TaskId, t2: TaskId, actions: seq<Action>)
    requires Inv(w) && Blocks(w, t, t2)
    ensures !FinishingRun(w, actions)
    decreases |actions|
  {
    if FinishingRun(w, actions) {
      if actions == [] {
        assert false;
      } else {
        var v := Step(w, actions[0]).value;
        BlocksForGood(w, t, t2, actions[0]);
        AnyStepKeepsInv(w, actions[0]);
        assert FinishingRun(v, actions[1..]);
        if Blocks(v, t, t2) {
          BlockedRunNeverFinishes(v, t, t2, actions[1..]);
        } else {
          BlockedRunNeverFinishes(v, t2, t, actions[1..]);
        }
      }
    }
  }

  /** Moving on keeps the way clear, if a hold without a turn takes a lock only when nobody else waits for it. */
  lemma ClearStays(w: World, a: Action)
    requires Inv(w) && Clear(w) && Finishing(a) && Step(w, a).Some?
    requires a.Acquire? && BareWaits(w.tasks[a.t]) ==>
               forall t2: TaskId :: t2 < |w.tasks| && t2 != a.t ==> !Awaits(w.tasks[t2], w.tasks[a.t].wait.umo)
    ensures Clear(Step(w, a).value)
  {
    hide Inv, Keeps, SetMode, Register, SendAcquired, ReleaseTurn, LeaveSend;
    var v := Step(w, a).value;
    forall t: TaskId, t2: TaskId ensures !Blocks(v, t, t2) {
      assert !Blocks(w, t, t2) && !Blocks(w, t2, t);
      if t2 < |w.tasks| && !w.tasks[t2].wait.Ready? {
        FinishingKeepsIff(w, a, w.tasks[t2].wait.umo);
      }
    }
  }

  function WaitWork(wait: Wait): nat {
    match wait
    case Ready => 0
    case HoldAcquired(_, _, _) => 1
    case _ => 2
  }

  function Work(tasks: seq<TaskState>): nat {
    if tasks == [] then 0 else |tasks[0].stack| + WaitWork(tasks[0].wait) + Work(tasks[1..])
  }

  lemma {:induction false} WorkShrinks(tasks: seq<TaskState>, t: nat, ts: TaskState)
    requires t < |tasks|
    ensures Work(tasks[t := ts]) == Work(tasks) - |tasks[t].stack| - WaitWork(tasks[t].wait)
                                    + |ts.stack| + WaitWork(ts.wait)
  {
    if t > 0 {
      assert tasks[t := ts][1..] == tasks[1..][t - 1 := ts];
      WorkShrinks(tasks[1..], t - 1, ts);
    }
  }

  lemma {:induction false} SetModeShape(stack: seq<Frame>, e: EventId, m: Mode, u: Umo)
    ensures |SetMode(stack, e, m)| == |stack|
    ensures AllOn(stack, u) ==> AllOn(SetMode(stack, e, m), u)
  {
    if stack != [] {
      SetModeShape(stack[1..], e, m, u);
    }
  }

  lemma FinishingShrinks(w: World, a: Action)
    requires Finishing(a) && Step(w, a).Some?
    ensures Work(Step(w, a).value.tasks) < Work(w.tasks)
  {
    hide Register, SendAcquired, ReleaseTurn, LeaveSend, SetMode;
    WorkShrinks(w.tasks, a.t, Step(w, a).value.tasks[a.t]);
    if a.Registered? {
      SetModeShape(w.tasks[a.t].stack, w.tasks[a.t].wait.event, Owns, w.tasks[a.t].wait.umo);
    }
  }

  lemma FinishingKeepsHome(w: World, a: Action, home: seq<Umo>)
    requires Finishing(a) && Step(w, a).Some? && AtHome(w, home)
    ensures AtHome(Step(w, a).value, home)
  {
    hide Register, SendAcquired, ReleaseTurn, LeaveSend, SetMode;
    if a.Registered? {
      SetModeShape(w.tasks[a.t].stack, w.tasks[a.t].wait.event, Owns, home[a.t]);
    }
  }

  lemma {:induction false} OwnedMeansHeld(stack: seq<Frame>, u: Umo)
    requires OwnCount(stack, u) > 0
    ensures stack != [] && HoldCount(stack, u) > 0
    ensures forall x :: AllOn(stack, x) ==> x == u
  {
    if !Owner(stack[0], u) {
      OwnedMeansHeld(stack[1..], u);
    }
  }

  /** If a task waits for a taken lock and nothing is in its way, the lock's holder can move on. */
  lemma HolderCanMoveOn(w: World, home: seq<Umo>, t: TaskId, u: Umo) returns (a: Action)
    requires Inv(w) && AtHome(w, home) && Clear(w)
    requires t < |w.tasks| && Awaits(w.tasks[t], u) && u in w.lock
    ensures (a.Registered? || a.Leave?) && Step(w, a).Some?
  {
    var t2 := w.lock[u];
    var holder := w.tasks[t2];
    assert !Blocks(w, t2, t);
    assert TaskOk(w.gate, w.lock, w.bound, t2, holder);
    assert Owners(holder, u) == One(LockedBy(w.lock, u, t2));
    if holder.wait.HoldAcquired? {
      return Registered(t2);
    }
    OwnedMeansHeld(holder.stack, u);
    assert home[t2] == u;
    return Leave(t2);
  }

  /** While some task has not finished and the way is clear, a step leads on and keeps it clear. */
  lemma SomeoneCanMoveOn(w: World, home: seq<Umo>) returns (a: Action)
    requires Inv(w) && AtHome(w, home) && Clear(w) && !Finished(w)
    ensures Finishing(a) && Step(w, a).Some? && Clear(Step(w, a).value)
  {
    if t: TaskId :| t < |w.tasks| && !Idle(w.tasks[t]) && !BareWaits(w.tasks[t]) {
      var ts := w.tasks[t];
      if ts.wait.Ready? {
        a := Leave(t);
      } else if ts.wait.HoldAcquired? {
        a := Registered(t);
      } else if ts.wait.umo in w.lock {
        a := HolderCanMoveOn(w, home, t, ts.wait.umo);
      } else {
        a := Acquire(t);
      }
    } else {
      var t: TaskId :| t < |w.tasks| && !Idle(w.tasks[t]);
      var u := w.tasks[t].wait.umo;
      if u in w.lock {
        a := HolderCanMoveOn(w, home, t, u);
      } else {
        a := Acquire(t);
        forall t2: TaskId | t2 < |w.tasks| && t2 != t ensures !Awaits(w.tasks[t2], u) {
          assert !Blocks(w, t, t2);
        }
      }
    }
    ClearStays(w, a);
  }

  lemma {:induction false} ClearRunCanFinish(w: World, home: seq<Umo>) returns (actions: seq<Action>)
    requires Inv(w) && AtHome(w, home) && Clear(w)
    ensures FinishingRun(w, actions)
    decreases Work(w.tasks)
  {
    if Finished(w) {
      actions := [];
    } else {
      var a := SomeoneCanMoveOn(w, home);
      AnyStepKeepsInv(w, a);
      FinishingShrinks(w, a);
      FinishingKeepsHome(w, a, home);
      var rest := ClearRunCanFinish(Step(w, a).value, home);
      actions := [a] + rest;
      assert actions[1..] == rest;
    }
  }

  /** If tasks stay on one UMO each, finishing what was entered is possible if and only if nobody waits for a lock
      that a hold without a turn, or a handle dropped because of one, keeps or is about to keep. */
  lemma CanFinishIff(w: World, home: seq<Umo>)
    requires Inv(w) && AtHome(w, home)
    ensures (exists actions :: FinishingRun(w, actions)) <==> Clear(w)
  {
    if Clear(w) {
      var actions := ClearRunCanFinish(w, home);
    } else {
      var t: TaskId, t2: TaskId :| Blocks(w, t, t2);
      forall actions ensures !FinishingRun(w, actions) {
        BlockedRunNeverFinishes(w, t, t2, actions);
      }
    }
  }

  lemma {:induction false} NestedDoesNotLeak(stack: seq<Frame>, u: Umo)
    requires OutboundInvariant.Nested(stack)
    ensures !WillLeak(stack, [], u)
  {
    if stack != [] {
      NestedDoesNotLeak(stack[1..], u);
    }
  }

  /** Without holds outside a turn the way is always clear. */
  lemma StayedIsClear(w: World)
    requires Inv(w) && forall t :: 0 <= t < |w.tasks| ==> !w.tasks[t].strayed
    ensures Clear(w)
  {
    forall t: TaskId, t2: TaskId ensures !Blocks(w, t, t2) {
      if t < |w.tasks| {
        assert TaskOk(w.gate, w.lock, w.bound, t, w.tasks[t]);
        if t2 < |w.tasks| && !w.tasks[t2].wait.Ready? {
          NestedDoesNotLeak(w.tasks[t].stack, w.tasks[t2].wait.umo);
        }
      }
    }
  }
}
