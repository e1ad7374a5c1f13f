/** What the gate is for: while one task holds a group's outbound, no other task sends to the group. */
module OutboundSends {
  import opened Options
  import opened OutboundGate
  import opened OutboundProtocol
  import opened OutboundInvariant
  import opened OutboundSteps
  import opened OutboundProgress

  /** A send that does not go through the gate: to the UMO of the task's own turn, which is held by then, or to a UMO
      that no turn holds. */
  predicate SendsDirectly(w: World, t: TaskId, u: Umo)
    requires t < |w.tasks|
  {
    match CurrentTurn(w.tasks[t].stack)
    case None => u !in w.gate.turnUmos.Values
    case Some(turn) => turn.mode != Unheld && (turn.umo == u || u !in w.gate.turnUmos.Values)
  }

  /** A turn of the task holds the UMO. */
  predicate TurnHolds(stack: seq<Frame>, u: Umo) {
    stack != []
    && ((stack[0].Turn? && stack[0].umo == u && stack[0].mode != Unheld) || TurnHolds(stack[1..], u))
  }

  /** A task whose turn, if it has one, is held either sends directly or goes through the gate. */
  lemma DirectOrThroughTheGate(w: World, t: TaskId, u: Umo)
    requires t < |w.tasks| && w.tasks[t].wait.Ready? && Settled(w.tasks[t].stack)
    ensures Step(w, EnterAround(t, u)).Some? <==> !SendsDirectly(w, t, u)
  {
  }

  lemma {:induction false} TurnHoldsCounts(g: GateState, bound: map<EventId, TaskId>, t: TaskId, stack: seq<Frame>, u: Umo)
    requires Linked(g, bound, t, stack) && TurnHolds(stack, u)
    ensures HoldCount(stack, u) > 0 && u in g.turnUmos.Values
  {
    if !(stack[0].Turn? && stack[0].umo == u && stack[0].mode != Unheld) {
      TurnHoldsCounts(g, bound, t, stack[1..], u);
    }
  }

  lemma {:induction false} CurrentTurnHolds(stack: seq<Frame>, u: Umo)
    requires CurrentTurn(stack).Some? && CurrentTurn(stack).value.umo == u && CurrentTurn(stack).value.mode != Unheld
    ensures HoldCount(stack, u) > 0
  {
    if !stack[0].Turn? {
      CurrentTurnHolds(stack[1..], u);
    }
  }

  /** A task whose turn holds a UMO has its lock, and a task that has not the lock holds nothing of it. */
  lemma HolderHasTheLock(taskCount: nat, w: World, t: TaskId, u: Umo)
    requires Reachable(taskCount, w) && t < |w.tasks| && !w.tasks[t].strayed
    ensures TurnHolds(w.tasks[t].stack, u) ==> LockedBy(w.lock, u, t) && u in w.gate.turnUmos.Values
    ensures !LockedBy(w.lock, u, t) ==> LiveHolds(w.tasks[t], u) == 0 && DepthOf(w.gate, t, u) == 0
  {
    hide Reachable, FramesOk, LooseUnique, EventsUnique, WaitOk, LockOk, StayedOk, TablesOk;
    ReachableInv(taskCount, w);
    LockHasOneRecordedOwner(taskCount, w, u);
    assert TaskOk(w.gate, w.lock, w.bound, t, w.tasks[t]);
    if TurnHolds(w.tasks[t].stack, u) {
      TurnHoldsCounts(w.gate, w.bound, t, w.tasks[t].stack, u);
    }
  }

  lemma GoesThroughTheGate(w: World, t: TaskId, u: Umo)
    requires t < |w.tasks| && w.tasks[t].wait.Ready? && Settled(w.tasks[t].stack) && !SendsDirectly(w, t, u)
    requires DepthOf(w.gate, t, u) == 0 && u in w.lock
    ensures Step(w, EnterAround(t, u)).Some?
    ensures Step(w, EnterAround(t, u)).value.tasks[t].wait == SendWaits(u)
    ensures Step(Step(w, EnterAround(t, u)).value, Acquire(t)).None?
  {
    DirectOrThroughTheGate(w, t, u);
  }

  lemma NothingHeldNotDirect(w: World, t: TaskId, u: Umo)
    requires t < |w.tasks| && LiveHolds(w.tasks[t], u) == 0 && u in w.gate.turnUmos.Values
    ensures !SendsDirectly(w, t, u)
  {
    match CurrentTurn(w.tasks[t].stack) {
      case Some(turn) =>
        if turn.umo == u && turn.mode != Unheld {
          CurrentTurnHolds(w.tasks[t].stack, u);
        }
      case None =>
    }
  }

  /** In every reachable state, while a turn of one task holds a UMO, another task neither is inside a send to it nor
      holds it nor can send to it past the gate; it has to wait. This is for tasks that never held without a turn. */
  lemma NobodyElseSends(taskCount: nat, w: World, holder: TaskId, t: TaskId, u: Umo)
    requires Reachable(taskCount, w) && holder < |w.tasks| && t < |w.tasks| && holder != t
    requires !w.tasks[holder].strayed && !w.tasks[t].strayed && TurnHolds(w.tasks[holder].stack, u)
    ensures HoldCount(w.tasks[t].stack, u) == 0 && !SendsDirectly(w, t, u)
    ensures w.tasks[t].wait.Ready? && Settled(w.tasks[t].stack) ==>
              && Step(w, EnterAround(t, u)).Some?
              && Step(w, EnterAround(t, u)).value.tasks[t].wait == SendWaits(u)
              && Step(Step(w, EnterAround(t, u)).value, Acquire(t)).None?
  {
    hide Reachable, Step, TurnHolds, SendsDirectly, Settled;
    HolderHasTheLock(taskCount, w, holder, u);
    HolderHasTheLock(taskCount, w, t, u);
    NothingHeldNotDirect(w, t, u);
    if w.tasks[t].wait.Ready? && Settled(w.tasks[t].stack) {
      GoesThroughTheGate(w, t, u);
    }
  }

  // ---------------------------------------------------------------- holding and giving up

  /** The innermost turn of a task, which no other frame covers while it is not held. */
  lemma UnheldIsOnTop(w: World, t: TaskId, turn: Frame)
    requires Inv(w) && t < |w.tasks| && CurrentTurn(w.tasks[t].stack) == Some(turn) && turn.mode == Unheld
    ensures w.tasks[t].stack != [] && w.tasks[t].stack[0] == turn && turn.event !in w.gate.turnCms
    ensures DepthOf(w.gate, t, turn.umo) == LiveHolds(w.tasks[t], turn.umo)
  {
    TaskIsOk(w, t);
    UnheldTurnIsInnermost(w.tasks[t].stack);
    assert FrameLinked(w.gate, w.bound, t, turn);
  }

  lemma NotPendingWhenReady(w: World, t: TaskId, e: EventId)
    requires Inv(w) && t < |w.tasks| && w.tasks[t].wait.Ready? && e in w.bound && w.bound[e] == t
    ensures e !in w.gate.pending
  {
    if e in w.gate.pending {
      assert Pending(w, e);
    }
  }

  /** The first real send of a turn holds: a turn that is held already stays as it is; one whose task holds the UMO
      nests in that; another one waits for the lock. */
  lemma HoldsOrWaits(w: World, t: TaskId, turn: Frame)
    requires Inv(w) && t < |w.tasks| && w.tasks[t].wait.Ready? && CurrentTurn(w.tasks[t].stack) == Some(turn)
    ensures Step(w, Hold(t)).Some?
    ensures var (v, ts) := (Step(w, Hold(t)).value, w.tasks[t]);
            && v.lock == w.lock && v.bound == w.bound
            && (turn.mode != Unheld ==> v == w)
            && (turn.mode == Unheld && LiveHolds(ts, turn.umo) > 0 ==>
                  && v.tasks == w.tasks[t := ts.(stack := [turn.(mode := Nests)] + ts.stack[1..])]
                  && turn.event in v.gate.turnCms)
            && (turn.mode == Unheld && LiveHolds(ts, turn.umo) == 0 ==>
                  v.tasks == w.tasks[t := ts.(wait := HoldWaits(turn.event, turn.umo, false))])
  {
    TaskIsOk(w, t);
    CurrentTurnLinked(w.gate, w.bound, t, w.tasks[t].stack);
    if turn.mode == Unheld {
      UnheldIsOnTop(w, t, turn);
      NotPendingWhenReady(w, t, turn.event);
      hide Inv, TaskOk, Linked, FrameLinked, LiveHolds;
    }
  }

  /** A bare send without a bound turn holds for its event: an event that is held stays as it is; a new one nests if
      its task holds the UMO, and waits for the lock if not. */
  lemma BareHoldsOrWaits(w: World, t: TaskId, e: EventId, u: Umo)
    requires Inv(w) && t < |w.tasks| && w.tasks[t].wait.Ready? && CurrentTurn(w.tasks[t].stack).None?
    requires e !in w.bound || w.bound[e] == t
    ensures Step(w, BareHold(t, e, u)).Some?
    ensures var (v, ts) := (Step(w, BareHold(t, e, u)).value, w.tasks[t]);
            && v.lock == w.lock
            && (e in w.gate.turnCms ==> v == w)
            && (e !in w.gate.turnCms && LiveHolds(ts, u) > 0 ==>
                  && v.tasks == w.tasks[t := ts.(loose := ts.loose + [Loose(e, u, false)], strayed := true)]
                  && v.bound == w.bound[e := t] && e in v.gate.turnCms)
            && (e !in w.gate.turnCms && LiveHolds(ts, u) == 0 ==>
                  && v.tasks == w.tasks[t := ts.(wait := HoldWaits(e, u, true), strayed := true)]
                  && v.bound == w.bound[e := t])
  {
    TaskIsOk(w, t);
    assert DepthOf(w.gate, t, u) == LiveHolds(w.tasks[t], u);
    if e in w.gate.pending {
      assert Pending(w, e);
    }
    hide TaskOk, LiveHolds;
  }

  /** A send through the gate nests if its task holds the UMO, and waits for the lock if not. */
  lemma EntersOrWaits(w: World, t: TaskId, u: Umo)
    requires Inv(w) && t < |w.tasks| && Step(w, EnterAround(t, u)).Some?
    ensures var (v, ts) := (Step(w, EnterAround(t, u)).value, w.tasks[t]);
            && v.lock == w.lock && v.bound == w.bound
            && v.tasks == w.tasks[t := if LiveHolds(ts, u) > 0 then ts.(stack := [Send(u, false)] + ts.stack)
                                       else ts.(wait := SendWaits(u))]
  {
    TaskIsOk(w, t);
    assert DepthOf(w.gate, t, u) == LiveHolds(w.tasks[t], u);
    hide TaskOk, LiveHolds, Inv;
  }

  /** A waiting task gets the lock if and only if it is free, and then has it: a send is entered at once, a hold is
      registered next. */
  lemma AcquiresIff(w: World, t: TaskId, u: Umo)
    requires t < |w.tasks| && Awaits(w.tasks[t], u)
    ensures Step(w, Acquire(t)).Some? <==> u !in w.lock
    ensures Step(w, Acquire(t)).Some? ==>
              var (v, ts) := (Step(w, Acquire(t)).value, w.tasks[t]);
              && v.lock == w.lock[u := t] && v.bound == w.bound
              && v.tasks == w.tasks[t := if ts.wait.SendWaits? then ts.(stack := [Send(u, true)] + ts.stack, wait := Ready)
                                         else ts.(wait := HoldAcquired(ts.wait.event, u, ts.wait.loose))]
  {
  }

  /** A hold that has its lock is registered as its turn's, or as one without a turn. */
  lemma RegistersExactly(w: World, t: TaskId)
    requires Inv(w) && t < |w.tasks| && w.tasks[t].wait.HoldAcquired?
    ensures Step(w, Registered(t)).Some?
    ensures var (v, ts) := (Step(w, Registered(t)).value, w.tasks[t]);
            && v.lock == w.lock && v.bound == w.bound
            && v.tasks == w.tasks[t := if ts.wait.loose
                                       then ts.(wait := Ready, loose := ts.loose + [Loose(ts.wait.event, ts.wait.umo, true)])
                                       else ts.(wait := Ready, stack := [Turn(ts.wait.event, ts.wait.umo, Owns)] + ts.stack[1..])]
  {
    WaiterHolds(w, t);
  }

  /** A wait that is given up leaves everything as it was before the hold. */
  lemma AbortUndoesHold(w: World, t: TaskId, turn: Frame)
    requires Inv(w) && t < |w.tasks| && w.tasks[t].wait.Ready? && CurrentTurn(w.tasks[t].stack) == Some(turn)
    requires turn.mode == Unheld && LiveHolds(w.tasks[t], turn.umo) == 0
    ensures Step(w, Hold(t)).Some? && Step(Step(w, Hold(t)).value, AbortWait(t)).Some?
    ensures var v := Step(Step(w, Hold(t)).value, AbortWait(t)).value;
            && v.tasks == w.tasks && v.lock == w.lock && v.bound == w.bound
            && v.gate.turnCms == w.gate.turnCms && v.gate.turnUmos == w.gate.turnUmos
            && v.gate.pending == w.gate.pending
            && forall t2, u :: DepthOf(v.gate, t2, u) == DepthOf(w.gate, t2, u)
  {
    HoldsOrWaits(w, t, turn);
    UnheldIsOnTop(w, t, turn);
    TaskIsOk(w, t);
    assert FrameLinked(w.gate, w.bound, t, turn);
    NotPendingWhenReady(w, t, turn.event);
    hide Inv, TaskOk, FrameLinked, LiveHolds;
    assert w.gate.pending + {turn.event} - {turn.event} == w.gate.pending;
  }

  /** A send whose wait is given up leaves everything as it was, but for a depth entry of 0. */
  lemma AbortUndoesSend(w: World, t: TaskId, u: Umo)
    requires Inv(w) && t < |w.tasks| && Step(w, EnterAround(t, u)).Some? && LiveHolds(w.tasks[t], u) == 0
    ensures Step(Step(w, EnterAround(t, u)).value, AbortWait(t))
              == Some(w.(gate := w.gate.(depth := w.gate.depth[(t, u) := 0])))
  {
    EntersOrWaits(w, t, u);
    TaskIsOk(w, t);
    assert DepthOf(w.gate, t, u) == LiveHolds(w.tasks[t], u);
    hide TaskOk, LiveHolds, Inv;
    assert Step(w, EnterAround(t, u)).value.tasks[t := w.tasks[t]] == w.tasks;
  }

  /** Leaving a frame takes it off; the lock goes if the frame owns it, and for a turn only if no other hold of the
      task on the UMO is left. */
  lemma LeavesExactly(w: World, t: TaskId)
    requires Inv(w) && t < |w.tasks| && w.tasks[t].wait.Ready? && w.tasks[t].stack != []
    ensures Step(w, Leave(t)).Some?
    ensures var (v, ts) := (Step(w, Leave(t)).value, w.tasks[t]);
            var f := ts.stack[0];
            var others := HoldCount(ts.stack[1..], f.umo) + LooseCount(ts.loose, f.umo);
            && v.tasks[t].stack == ts.stack[1..] && v.tasks[t].loose == ts.loose && v.tasks[t].wait == ts.wait
            && (forall t2: TaskId :: t2 < |w.tasks| && t2 != t ==> v.tasks[t2] == w.tasks[t2])
            && v.bound == (if f.Turn? then w.bound - {f.event} else w.bound)
            && v.lock == (if Owner(f, f.umo) && (f.Send? || others == 0) then w.lock - {f.umo} else w.lock)
            && (Holds(f, f.umo) && others == 0 ==> (t, f.umo) !in v.gate.depth)
  {
    TaskIsOk(w, t);
    var (ts, f) := (w.tasks[t], w.tasks[t].stack[0]);
    assert DepthOf(w.gate, t, f.umo) == LiveHolds(ts, f.umo);
    if f.Turn? {
      assert FrameLinked(w.gate, w.bound, t, f);
    }
    hide Inv, TaskOk, Linked, FrameLinked;
  }
}
