/** What every run of the outbound gate keeps, whatever its tasks do. */
module OutboundInvariant {
  import opened Options
  import opened OutboundGate
  import opened OutboundProtocol

  // ---------------------------------------------------------------- one task's holds

  function Holds(f: Frame, u: Umo): bool {
    f.umo == u && (f.Turn? ==> f.mode != Unheld)
  }

  function Owner(f: Frame, u: Umo): bool {
    f.umo == u && (if f.Turn? then f.mode == Owns else f.owner)
  }

  /** Live holds of a UMO among a task's frames. */
  function HoldCount(stack: seq<Frame>, u: Umo): nat {
    if stack == [] then 0 else (if Holds(stack[0], u) then 1 else 0) + HoldCount(stack[1..], u)
  }

  /** Frames that keep the lock itself. */
  function OwnCount(stack: seq<Frame>, u: Umo): nat {
    if stack == [] then 0 else (if Owner(stack[0], u) then 1 else 0) + OwnCount(stack[1..], u)
  }

  function LooseCount(loose: seq<Loose>, u: Umo): nat {
    if loose == [] then 0 else (if loose[0].umo == u then 1 else 0) + LooseCount(loose[1..], u)
  }

  function LooseOwnCount(loose: seq<Loose>, u: Umo): nat {
    if loose == [] then 0 else (if loose[0].umo == u && loose[0].owns then 1 else 0) + LooseOwnCount(loose[1..], u)
  }

  /** All live holds of a UMO by one task. */
  function LiveHolds(ts: TaskState, u: Umo): nat {
    HoldCount(ts.stack, u) + LooseCount(ts.loose, u)
  }

  function One(b: bool): nat {
    if b then 1 else 0
  }

  /** Recorded owners of a UMO's lock in one task: turns with a handle, outermost sends, holds without a turn that
      have a handle, holds between taking the lock and registering it, and leaked handles. */
  function Owners(ts: TaskState, u: Umo): nat {
    OwnCount(ts.stack, u) + LooseOwnCount(ts.loose, u)
    + One(ts.wait.HoldAcquired? && ts.wait.umo == u) + One(u in ts.leaked)
  }

  /** The innermost turn has been held. */
  predicate Settled(stack: seq<Frame>) {
    match CurrentTurn(stack)
    case None => true
    case Some(turn) => turn.mode != Unheld
  }

  /** No send is entered under a turn that is not held yet. */
  predicate FramesOk(stack: seq<Frame>) {
    stack == [] || (FramesOk(stack[1..]) && (stack[0].Send? ==> Settled(stack[1..])))
  }

  /** The outermost hold of a UMO owns its lock and the others nest in it. */
  predicate Nested(stack: seq<Frame>) {
    stack == [] ||
    (Nested(stack[1..])
     && (Holds(stack[0], stack[0].umo) ==>
           (Owner(stack[0], stack[0].umo) <==> HoldCount(stack[1..], stack[0].umo) == 0)))
  }

  predicate BindsEvent(stack: seq<Frame>, e: EventId) {
    stack != [] && ((stack[0].Turn? && stack[0].event == e) || BindsEvent(stack[1..], e))
  }

  predicate EventsUnique(stack: seq<Frame>) {
    stack == [] ||
    (EventsUnique(stack[1..]) && (stack[0].Turn? ==> !BindsEvent(stack[1..], stack[0].event)))
  }

  /** No event is held twice without a turn, or both with one and without. */
  predicate LooseUnique(loose: seq<Loose>, stack: seq<Frame>) {
    loose == [] ||
    (&& LooseUnique(loose[1..], stack)
     && FindLoose(loose[1..], loose[0].event).None? && !BindsEvent(stack, loose[0].event))
  }

  lemma {:induction false} OneOwnerPerHeldUmo(stack: seq<Frame>, u: Umo)
    requires Nested(stack)
    ensures OwnCount(stack, u) == One(HoldCount(stack, u) > 0)
  {
    if stack != [] {
      OneOwnerPerHeldUmo(stack[1..], u);
    }
  }

  // ---------------------------------------------------------------- the invariant

  /** A turn frame and the gate's tables agree about the turn. */
  ghost predicate FrameLinked(g: GateState, bound: map<EventId, TaskId>, t: TaskId, f: Frame) {
    f.Turn? ==>
      && f.event in bound && bound[f.event] == t
      && (f.mode == Unheld <==> f.event !in g.turnCms)
      && (f.mode != Unheld ==> g.turnCms[f.event] == (f.mode == Owns)
                               && f.event in g.turnUmos && g.turnUmos[f.event] == f.umo)
  }

  ghost predicate Linked(g: GateState, bound: map<EventId, TaskId>, t: TaskId, stack: seq<Frame>) {
    stack == [] || (FrameLinked(g, bound, t, stack[0]) && Linked(g, bound, t, stack[1..]))
  }

  ghost predicate LooseLinked(g: GateState, bound: map<EventId, TaskId>, t: TaskId, loose: seq<Loose>) {
    forall l | l in loose ::
      && l.event in bound && bound[l.event] == t
      && l.event in g.turnCms && g.turnCms[l.event] == l.owns
      && l.event in g.turnUmos && g.turnUmos[l.event] == l.umo
  }

  ghost predicate EventsOk(g: GateState, bound: map<EventId, TaskId>, t: TaskId, ts: TaskState) {
    && EventsUnique(ts.stack) && LooseUnique(ts.loose, ts.stack)
    && Linked(g, bound, t, ts.stack) && LooseLinked(g, bound, t, ts.loose)
  }

  /** A task in `hold_turn` waits for its innermost turn, or for an event of its own without a turn. */
  ghost predicate HoldOk(g: GateState, bound: map<EventId, TaskId>, t: TaskId, ts: TaskState, e: EventId, u: Umo, loose: bool) {
    && e in g.pending && e in bound && bound[e] == t && e !in g.turnCms
    && if loose then CurrentTurn(ts.stack).None? && ts.strayed
       else ts.stack != [] && ts.stack[0] == Turn(e, u, Unheld)
  }

  ghost predicate WaitOk(g: GateState, bound: map<EventId, TaskId>, t: TaskId, ts: TaskState) {
    && (ts.wait.HoldWaits? || ts.wait.HoldAcquired? ==> HoldOk(g, bound, t, ts, ts.wait.event, ts.wait.umo, ts.wait.loose))
    && (ts.wait.SendWaits? ==> Settled(ts.stack))
    && (!ts.wait.Ready? ==> LiveHolds(ts, ts.wait.umo) == 0)
  }

  ghost predicate LockedBy(lock: map<Umo, TaskId>, u: Umo, t: TaskId) {
    u in lock && lock[u] == t
  }

  /** The gate's depth counts the live holds. */
  ghost predicate DepthOk(g: GateState, t: TaskId, ts: TaskState) {
    forall u :: DepthOf(g, t, u) == LiveHolds(ts, u)
  }

  /** The task has a lock exactly when it has one recorded owner of it. */
  ghost predicate LockOk(lock: map<Umo, TaskId>, t: TaskId, ts: TaskState) {
    forall u :: Owners(ts, u) == One(LockedBy(lock, u, t))
  }

  /** A task that never held without a turn has nothing loose, and its holds nest. */
  ghost predicate StayedOk(ts: TaskState) {
    !ts.strayed ==> ts.loose == [] && ts.leaked == {} && Nested(ts.stack)
  }

  ghost predicate TaskOk(g: GateState, lock: map<Umo, TaskId>, bound: map<EventId, TaskId>, t: TaskId, ts: TaskState) {
    && FramesOk(ts.stack)
    && EventsOk(g, bound, t, ts)
    && WaitOk(g, bound, t, ts)
    && DepthOk(g, t, ts)
    && LockOk(lock, t, ts)
    && StayedOk(ts)
  }

  ghost predicate Pending(w: World, e: EventId) {
    && e in w.bound && w.bound[e] < |w.tasks|
    && var wait := w.tasks[w.bound[e]].wait; (wait.HoldWaits? || wait.HoldAcquired?) && wait.event == e
  }

  /** The tables mention only events and tasks there are. */
  ghost predicate TablesOk(w: World) {
    && (forall u :: u in w.lock ==> w.lock[u] < |w.tasks|)
    && w.gate.turnCms.Keys == w.gate.turnUmos.Keys
    && (forall e :: e in w.gate.turnCms ==> e in w.bound)
    && (forall e :: e in w.gate.pending ==> Pending(w, e))
    && (forall e :: e in w.bound ==> w.bound[e] < |w.tasks|)
  }

  ghost predicate Inv(w: World) {
    && (forall t :: 0 <= t < |w.tasks| ==> TaskOk(w.gate, w.lock, w.bound, t, w.tasks[t]))
    && TablesOk(w)
  }

  // ---------------------------------------------------------------- what a step leaves alone

  /** The gate and the binding table say the same about an event before and after. */
  ghost predicate SameEvent(w: World, v: World, e: EventId) {
    && e in w.bound && e in v.bound && w.bound[e] == v.bound[e]
    && (e in w.gate.turnCms <==> e in v.gate.turnCms)
    && (e in w.gate.turnCms ==> w.gate.turnCms[e] == v.gate.turnCms[e])
    && (e in w.gate.turnUmos <==> e in v.gate.turnUmos)
    && (e in w.gate.turnUmos ==> w.gate.turnUmos[e] == v.gate.turnUmos[e])
  }

  lemma {:induction false} LinkedKept(w: World, v: World, t: TaskId, stack: seq<Frame>)
    requires Linked(w.gate, w.bound, t, stack)
    requires forall e :: BindsEvent(stack, e) ==> SameEvent(w, v, e)
    ensures Linked(v.gate, v.bound, t, stack)
  {
    if stack != [] {
      if stack[0].Turn? {
        assert BindsEvent(stack, stack[0].event);
      }
      forall e | BindsEvent(stack[1..], e) ensures SameEvent(w, v, e) {
        assert BindsEvent(stack, e);
      }
      LinkedKept(w, v, t, stack[1..]);
    }
  }

  lemma {:induction false} BoundHere(g: GateState, bound: map<EventId, TaskId>, t: TaskId, stack: seq<Frame>, e: EventId)
    requires Linked(g, bound, t, stack) && BindsEvent(stack, e)
    ensures e in bound && bound[e] == t
  {
    if !(stack[0].Turn? && stack[0].event == e) {
      BoundHere(g, bound, t, stack[1..], e);
    }
  }

  lemma {:induction false} FindLooseIn(loose: seq<Loose>, e: EventId)
    ensures FindLoose(loose, e).Some? <==> exists l | l in loose :: l.event == e
    ensures FindLoose(loose, e).Some? ==> FindLoose(loose, e).value in loose && FindLoose(loose, e).value.event == e
  {
    if loose != [] {
      FindLooseIn(loose[1..], e);
      assert loose == [loose[0]] + loose[1..];
    }
  }

  /** The events of one task are linked as before when the tables say the same about them. */
  lemma EventsKept(w: World, v: World, t: TaskId, stack: seq<Frame>, loose: seq<Loose>)
    requires Linked(w.gate, w.bound, t, stack) && LooseLinked(w.gate, w.bound, t, loose)
    requires forall e :: BindsEvent(stack, e) || FindLoose(loose, e).Some? ==> SameEvent(w, v, e)
    ensures Linked(v.gate, v.bound, t, stack) && LooseLinked(v.gate, v.bound, t, loose)
  {
    LinkedKept(w, v, t, stack);
    forall l | l in loose ensures SameEvent(w, v, l.event) {
      FindLooseIn(loose, l.event);
    }
  }

  /** A step of task `t` leaves every other task's depths, locks and events as they were. */
  ghost predicate OnlyTouches(w: World, v: World, t: TaskId) {
    && t < |w.tasks| == |v.tasks| && v.tasks == w.tasks[t := v.tasks[t]]
    && (forall t2, u :: t2 != t ==> DepthOf(v.gate, t2, u) == DepthOf(w.gate, t2, u))
    && (forall t2, u :: t2 != t ==> (LockedBy(v.lock, u, t2) <==> LockedBy(w.lock, u, t2)))
    && (forall e :: e in w.bound && w.bound[e] != t ==>
          SameEvent(w, v, e) && (e in w.gate.pending <==> e in v.gate.pending))
  }

  lemma OtherTaskOk(w: World, v: World, t: TaskId, t2: TaskId)
    requires OnlyTouches(w, v, t) && t2 != t && t2 < |w.tasks|
    requires TaskOk(w.gate, w.lock, w.bound, t2, w.tasks[t2])
    ensures TaskOk(v.gate, v.lock, v.bound, t2, v.tasks[t2])
  {
    hide FramesOk, EventsUnique, LooseUnique, StayedOk, Owners, LiveHolds;
    var ts := w.tasks[t2];
    forall e | BindsEvent(ts.stack, e) || FindLoose(ts.loose, e).Some? ensures SameEvent(w, v, e) {
      if BindsEvent(ts.stack, e) {
        BoundHere(w.gate, w.bound, t2, ts.stack, e);
      } else {
        FindLooseIn(ts.loose, e);
      }
    }
    EventsKept(w, v, t2, ts.stack, ts.loose);
  }

  /** What is left to show of a step of `t`: its own state, and that the tables mention live events only. */
  lemma StepKeepsInv(w: World, v: World, t: TaskId)
    requires Inv(w) && OnlyTouches(w, v, t)
    requires TaskOk(v.gate, v.lock, v.bound, t, v.tasks[t]) && TablesOk(v)
    ensures Inv(v)
  {
    hide TaskOk, TablesOk;
    forall t2 | 0 <= t2 < |v.tasks| ensures TaskOk(v.gate, v.lock, v.bound, t2, v.tasks[t2]) {
      if t2 != t {
        OtherTaskOk(w, v, t, t2);
      }
    }
  }

  /** The tables after a step of `t`: its own events aside, they are as before. */
  lemma TablesKept(w: World, v: World, t: TaskId)
    requires Inv(w) && OnlyTouches(w, v, t)
    requires forall u :: u in v.lock ==> v.lock[u] == t || (u in w.lock && v.lock[u] == w.lock[u])
    requires v.gate.turnCms.Keys == v.gate.turnUmos.Keys
    requires forall e :: e in v.gate.turnCms ==> e in v.bound
    requires forall e :: e in v.bound ==> v.bound[e] == t || (e in w.bound && v.bound[e] == w.bound[e])
    requires forall e :: e in v.gate.pending ==> e in w.gate.pending || Pending(v, e)
    requires forall e :: e in v.gate.pending && e in w.bound && w.bound[e] == t ==> Pending(v, e)
    ensures TablesOk(v)
  {
    forall e | e in v.gate.pending ensures Pending(v, e) {
      if e in w.gate.pending {
        assert Pending(w, e);
      }
    }
  }
}
