/** Two ways in which outbound sends wait for ever: crossed sends, and a hold without a turn that nobody releases. */
module OutboundExamples {
  import opened Options
  import opened OutboundGate
  import opened OutboundProtocol
  import opened OutboundInvariant
  import opened OutboundSteps
  import opened OutboundProgress

  lemma {:induction false} RunThen(w: World, first: seq<Action>, second: seq<Action>)
    requires Run(w, first).Some?
    ensures Run(w, first + second) == Run(Run(w, first).value, second)
    decreases |first|
  {
    if first == [] {
      assert first + second == second;
    } else {
      assert (first + second)[1..] == first[1..] + second;
      RunThen(Step(w, first[0]).value, first[1..], second);
    }
  }

  lemma RunTwo(w: World, a: Action, b: Action)
    requires Step(w, a).Some? && Step(Step(w, a).value, b).Some?
    ensures Run(w, [a, b]) == Step(Step(w, a).value, b)
  {
    var v := Step(w, a).value;
    assert [a, b][1..] == [b];
    assert [b][1..] == [];
    assert Run(v, [b]) == Run(Step(v, b).value, []);
  }

  lemma RunFour(w: World, a: Action, b: Action, c: Action, d: Action)
    requires Run(w, [a, b]).Some? && Run(Run(w, [a, b]).value, [c, d]).Some?
    ensures Run(w, [a, b, c, d]) == Run(Run(w, [a, b]).value, [c, d])
  {
    assert [a, b, c, d] == [a, b] + [c, d];
    RunThen(w, [a, b], [c, d]);
  }

  // ---------------------------------------------------------------- crossed sends

  /** An idle task binds a new turn and holds its free UMO. */
  lemma HoldOwnUmo(w: World, t: TaskId, e: EventId, u: Umo) returns (actions: seq<Action>)
    requires t < |w.tasks| && w.tasks[t] == NEW_TASK
    requires e !in w.bound && e !in w.gate.turnCms && e !in w.gate.pending && u !in w.lock
    requires DepthOf(w.gate, t, u) == 0
    ensures Run(w, actions).Some?
    ensures var v := Run(w, actions).value;
            && v.tasks == w.tasks[t := NEW_TASK.(stack := [Turn(e, u, Owns)])]
            && v.lock == w.lock[u := t] && v.bound == w.bound[e := t]
            && v.gate.turnCms == w.gate.turnCms[e := true] && v.gate.turnUmos == w.gate.turnUmos[e := u]
            && v.gate.pending == w.gate.pending && DepthOf(v.gate, t, u) == 1
            && forall t2: TaskId, u2: Umo :: (t2, u2) != (t, u) ==> DepthOf(v.gate, t2, u2) == DepthOf(w.gate, t2, u2)
  {
    actions := [Bind(t, e, u), Hold(t), Acquire(t), Registered(t)];
    var w1 := Step(w, Bind(t, e, u)).value;
    assert w1.tasks[t].stack == [Turn(e, u, Unheld)];
    var w2 := Step(w1, Hold(t)).value;
    var w3 := Step(w2, Acquire(t)).value;
    var w4 := Step(w3, Registered(t)).value;
    assert w4.gate.pending == w.gate.pending;
    assert w4.tasks[t].stack == [Turn(e, u, Owns)];
    assert w4.tasks == w.tasks[t := NEW_TASK.(stack := [Turn(e, u, Owns)])];
    RunTwo(w, Bind(t, e, u), Hold(t));
    RunTwo(w2, Acquire(t), Registered(t));
    RunFour(w, Bind(t, e, u), Hold(t), Acquire(t), Registered(t));
  }

  /** A state in which a task has not finished but none can move on. */
  predicate Stuck(w: World) {
    && (exists t :: 0 <= t < |w.tasks| && !Idle(w.tasks[t]))
    && forall t :: 0 <= t < |w.tasks| ==>
                     && Step(w, Acquire(t)).None?
                     && Step(w, Registered(t)).None?
                     && Step(w, Leave(t)).None?
  }

  /** Two tasks that hold one UMO each and then send to the other's wait for each other. */
  lemma SendAcross(w: World, a: Umo, b: Umo, e0: EventId, e1: EventId)
    requires a != b
    requires w.tasks == [NEW_TASK.(stack := [Turn(e0, a, Owns)]), NEW_TASK.(stack := [Turn(e1, b, Owns)])]
    requires a in w.lock && b in w.lock
    requires HasTurnHolder(w.gate, a) && HasTurnHolder(w.gate, b)
    requires DepthOf(w.gate, 0, b) == 0 && DepthOf(w.gate, 1, a) == 0
    ensures var actions := [EnterAround(0, b), EnterAround(1, a)];
            Run(w, actions).Some? && Stuck(Run(w, actions).value)
  {
    var w1 := Step(w, EnterAround(0, b)).value;
    var w2 := Step(w1, EnterAround(1, a)).value;
    assert w2.tasks[0].wait == SendWaits(b) && w2.tasks[1].wait == SendWaits(a);
    RunTwo(w, EnterAround(0, b), EnterAround(1, a));
  }

  /** With two UMOs per task the protocol can deadlock. */
  lemma TwoUmosCanDeadlock()
    ensures exists w :: Reachable(2, w) && Stuck(w)
  {
    var w0 := Start(2);
    var (a, b) := ("a", "b");
    assert a[0] != b[0];
    var first := HoldOwnUmo(w0, 0, 10, a);
    var w1 := Run(w0, first).value;
    var second := HoldOwnUmo(w1, 1, 11, b);
    var w2 := Run(w1, second).value;
    assert w2.gate.turnUmos[10] == a && w2.gate.turnUmos[11] == b;
    SendAcross(w2, a, b, 10, 11);
    var third := [EnterAround(0, b), EnterAround(1, a)];
    RunThen(w0, first, second);
    RunThen(w0, first + second, third);
    assert Run(w0, first + second + third) == Run(w2, third);
    assert Reachable(2, Run(w2, third).value);
  }

  // ---------------------------------------------------------------- a hold nobody releases

  lemma {:induction false} OthersStayOwned(loose: seq<Loose>, e: EventId, u: Umo)
    requires FindLoose(loose, e).Some? && !(FindLoose(loose, e).value.umo == u && FindLoose(loose, e).value.owns)
    ensures LooseOwnCount(Dropped(loose, e), u) == LooseOwnCount(loose, u)
  {
    if loose[0].event != e {
      OthersStayOwned(loose[1..], e, u);
    }
  }

  /** The step releases the hold, made without a turn, that owns `u`'s lock in task `t`, or hands it to a turn. */
  predicate Releases(w: World, a: Action, t: TaskId, u: Umo) {
    && (a.BareRelease? || a.BindAgain?) && a.t == t && t < |w.tasks|
    && FindLoose(w.tasks[t].loose, a.e).Some?
    && FindLoose(w.tasks[t].loose, a.e).value.umo == u && FindLoose(w.tasks[t].loose, a.e).value.owns
  }

  predicate NeverReleases(w: World, actions: seq<Action>, t: TaskId, u: Umo)
    decreases |actions|
  {
    actions == [] ||
    (&& !Releases(w, actions[0], t, u)
     && match Step(w, actions[0])
        case None => true
        case Some(v) => NeverReleases(v, actions[1..], t, u))
  }

  lemma StepKeepsKept(w: World, a: Action, t: TaskId, u: Umo)
    requires t < |w.tasks| && Kept(w.tasks[t], u) && Step(w, a).Some?
    requires !Releases(w, a, t, u)
    ensures t < |Step(w, a).value.tasks| && Kept(Step(w, a).value.tasks[t], u)
  {
    hide Register, SendAcquired, LeaveSend, SetMode;
    var ts := w.tasks[t];
    if a.t == t {
      match a
      case BareHold(_, e, u2) => LooseOwnAppended(ts.loose, Loose(e, u2, false), u);
      case Registered(_) =>
        if ts.wait.loose {
          LooseOwnAppended(ts.loose, Loose(ts.wait.event, ts.wait.umo, true), u);
        }
      case BareRelease(_, e) => OthersStayOwned(ts.loose, e, u);
      case BindAgain(_, e) => OthersStayOwned(ts.loose, e, u);
      case _ =>
    }
  }

  lemma StepKeepsLeaked(w: World, a: Action, t: TaskId, u: Umo)
    requires t < |w.tasks| && u in w.tasks[t].leaked && Step(w, a).Some?
    ensures t < |Step(w, a).value.tasks| && u in Step(w, a).value.tasks[t].leaked
  {
  }

  /** A lock that a task keeps with a hold made without a turn stays taken, by that task, whatever all tasks do,
      until that hold is released or its event is bound again. */
  lemma {:induction false} KeptLockIsNeverFree(w: World, actions: seq<Action>, t: TaskId, u: Umo)
    requires Inv(w) && t < |w.tasks| && Kept(w.tasks[t], u) && Run(w, actions).Some?
    requires NeverReleases(w, actions, t, u)
    ensures LockedBy(Run(w, actions).value.lock, u, t)
    decreases |actions|
  {
    hide Inv, Step, Kept, Releases;
    if actions == [] {
      KeptIsLocked(w, t, u);
    } else {
      StepKeepsKept(w, actions[0], t, u);
      AnyStepKeepsInv(w, actions[0]);
      KeptLockIsNeverFree(Step(w, actions[0]).value, actions[1..], t, u);
    }
  }

  /** A lock whose handle was dropped stays taken in every run. */
  lemma {:induction false} LeakedLockIsNeverFree(w: World, actions: seq<Action>, t: TaskId, u: Umo)
    requires Inv(w) && t < |w.tasks| && u in w.tasks[t].leaked && Run(w, actions).Some?
    ensures LockedBy(Run(w, actions).value.lock, u, t)
    decreases |actions|
  {
    hide Inv, Step;
    if actions == [] {
      KeptIsLocked(w, t, u);
    } else {
      StepKeepsLeaked(w, actions[0], t, u);
      AnyStepKeepsInv(w, actions[0]);
      LeakedLockIsNeverFree(Step(w, actions[0]).value, actions[1..], t, u);
    }
  }

  /** An idle task without a turn sends an event on a free UMO and does not release it. */
  lemma BareHoldKeeps(w: World, t: TaskId, e: EventId, u: Umo) returns (actions: seq<Action>)
    requires t < |w.tasks| && w.tasks[t] == NEW_TASK
    requires e !in w.bound && e !in w.gate.turnCms && e !in w.gate.pending && u !in w.lock
    requires DepthOf(w.gate, t, u) == 0
    ensures Run(w, actions).Some?
    ensures var v := Run(w, actions).value;
            && v.tasks == w.tasks[t := TaskState([], Ready, [Loose(e, u, true)], {}, true)]
            && v.lock == w.lock[u := t] && HasTurnHolder(v.gate, u) && DepthOf(v.gate, t, u) == 1
            && v.bound == w.bound[e := t] && v.gate.pending == w.gate.pending
            && v.gate.turnCms == w.gate.turnCms[e := true] && v.gate.turnUmos == w.gate.turnUmos[e := u]
            && forall t2: TaskId, u2: Umo :: (t2, u2) != (t, u) ==> DepthOf(v.gate, t2, u2) == DepthOf(w.gate, t2, u2)
  {
    actions := [BareHold(t, e, u), Acquire(t)] + [Registered(t)];
    var w1 := Step(w, BareHold(t, e, u)).value;
    var w2 := Step(w1, Acquire(t)).value;
    var w3 := Step(w2, Registered(t)).value;
    assert w3.tasks[t].loose == [Loose(e, u, true)];
    assert w3.tasks == w.tasks[t := TaskState([], Ready, [Loose(e, u, true)], {}, true)];
    assert w3.gate.turnUmos[e] == u && w3.gate.pending == w.gate.pending;
    RunTwo(w, BareHold(t, e, u), Acquire(t));
    RunThen(w, [BareHold(t, e, u), Acquire(t)], [Registered(t)]);
    assert [Registered(t)][1..] == [];
    assert Run(w3, []) == Some(w3);
  }

  /** The turn ends and nothing is left of it. */
  lemma TurnEnds(w: World, t: TaskId, e: EventId, u: Umo)
    requires t < |w.tasks| && w.tasks[t] == NEW_TASK.(stack := [Turn(e, u, Owns)])
    requires e in w.gate.turnCms && w.gate.turnCms[e] && e in w.gate.turnUmos && w.gate.turnUmos[e] == u
    requires DepthOf(w.gate, t, u) == 1
    ensures Run(w, [Leave(t)]).Some?
    ensures var v := Run(w, [Leave(t)]).value;
            && v.tasks == w.tasks[t := NEW_TASK] && v.lock == w.lock - {u} && v.bound == w.bound - {e}
            && v.gate.turnCms == w.gate.turnCms - {e} && v.gate.pending == w.gate.pending && DepthOf(v.gate, t, u) == 0
            && forall t2: TaskId, u2: Umo :: (t2, u2) != (t, u) ==> DepthOf(v.gate, t2, u2) == DepthOf(w.gate, t2, u2)
  {
    var v := Step(w, Leave(t)).value;
    assert v.tasks[t].leaked == {};
    assert [Leave(t)][1..] == [];
    assert Run(v, []) == Some(v);
  }

  /** A task without a turn sends to a UMO that another turn holds. */
  lemma SendWaitsThere(w: World, t: TaskId, u: Umo) returns (v: World)
    requires t < |w.tasks| && w.tasks[t] == NEW_TASK && HasTurnHolder(w.gate, u) && DepthOf(w.gate, t, u) == 0
    ensures Run(w, [EnterAround(t, u)]) == Some(v)
    ensures v.tasks == w.tasks[t := NEW_TASK.(wait := SendWaits(u))] && v.lock == w.lock
  {
    v := Step(w, EnterAround(t, u)).value;
    assert [EnterAround(t, u)][1..] == [];
    assert Run(v, []) == Some(v);
  }

  /** Task 0 finishes its turn and sends the event once more; task 1 sends to the same UMO and waits for ever: no
      run of waiting tasks going on and of turns and sends ending reaches an end, although all stay on one UMO. */
  lemma BareSendWedgesTheOther()
    ensures exists w ::
              && Reachable(2, w) && AtHome(w, ["u", "u"])
              && Idle(w.tasks[0]) && w.tasks[1] == NEW_TASK.(wait := SendWaits("u"))
              && forall actions :: !FinishingRun(w, actions)
  {
    hide Step, Inv;
    var (w0, u, e) := (Start(2), "u", 10);
    var first := HoldOwnUmo(w0, 0, e, u);
    var w1 := Run(w0, first).value;
    RunThen(w0, first, []);
    assert first + [] == first;
    assert Reachable(2, w1);
    TurnEnds(w1, 0, e, u);
    var w2 := Run(w1, [Leave(0)]).value;
    var third := BareHoldKeeps(w2, 0, e, u);
    var w3 := Run(w2, third).value;
    var w4 := SendWaitsThere(w3, 1, u);
    RunThen(w0, first, [Leave(0)]);
    RunThen(w0, first + [Leave(0)], third);
    RunThen(w0, first + [Leave(0)] + third, [EnterAround(1, u)]);
    assert Reachable(2, w4);
    ReachableInv(2, w4);
    assert Blocks(w4, 0, 1);
    forall actions ensures !FinishingRun(w4, actions) {
      BlockedRunNeverFinishes(w4, 0, 1, actions);
    }
  }

  /** If the event of such a hold is bound to a turn again, the end of that turn frees the lock. */
  lemma BoundAgainIsReleased(w: World, t: TaskId, e: EventId, u: Umo)
    requires t < |w.tasks| && w.tasks[t] == TaskState([], Ready, [Loose(e, u, true)], {}, true)
    requires e in w.gate.turnCms && w.gate.turnCms[e] && e in w.gate.turnUmos && w.gate.turnUmos[e] == u
    requires DepthOf(w.gate, t, u) == 1
    ensures Run(w, [BindAgain(t, e), Leave(t)]).Some?
    ensures var v := Run(w, [BindAgain(t, e), Leave(t)]).value;
            v.lock == w.lock - {u} && v.tasks == w.tasks[t := TaskState([], Ready, [], {}, true)]
  {
    var w1 := Step(w, BindAgain(t, e)).value;
    assert w1.tasks[t] == TaskState([Turn(e, u, Owns)], Ready, [], {}, true);
    var w2 := Step(w1, Leave(t)).value;
    assert w2.tasks[t].leaked == {} && w2.tasks[t].stack == [];
    RunTwo(w, BindAgain(t, e), Leave(t));
  }

  /** A second hold of the same task nests in the first, and the first is released before it: the lock's handle is
      dropped, and the lock stays taken although every hold has been released. */
  lemma NestedHoldLeaks(w: World, t: TaskId, e: EventId, e2: EventId, u: Umo) returns (actions: seq<Action>)
    requires t < |w.tasks| && w.tasks[t] == TaskState([], Ready, [Loose(e, u, true)], {}, true) && e != e2
    requires e in w.gate.turnCms && w.gate.turnCms[e] && e in w.gate.turnUmos && w.gate.turnUmos[e] == u
    requires e2 !in w.bound && e2 !in w.gate.turnCms && e2 !in w.gate.pending
    requires DepthOf(w.gate, t, u) == 1 && u in w.lock
    ensures actions == [BareHold(t, e2, u), BareRelease(t, e)] + [BareRelease(t, e2)]
    ensures Run(w, actions).Some?
    ensures var v := Run(w, actions).value;
            && v.lock == w.lock && v.tasks == w.tasks[t := TaskState([], Ready, [], {u}, true)]
  {
    actions := [BareHold(t, e2, u), BareRelease(t, e)] + [BareRelease(t, e2)];
    var w1 := Step(w, BareHold(t, e2, u)).value;
    assert w1.tasks[t].loose == [Loose(e, u, true), Loose(e2, u, false)];
    var w2 := Step(w1, BareRelease(t, e)).value;
    assert w2.tasks[t].loose == [Loose(e2, u, false)] && w2.tasks[t].leaked == {u} && w2.lock == w.lock;
    var w3 := Step(w2, BareRelease(t, e2)).value;
    assert w3.tasks[t].loose == [] && w3.tasks[t].leaked == {u} && w3.lock == w.lock;
    assert w3.tasks == w.tasks[t := TaskState([], Ready, [], {u}, true)];
    RunTwo(w, BareHold(t, e2, u), BareRelease(t, e));
    RunThen(w, [BareHold(t, e2, u), BareRelease(t, e)], [BareRelease(t, e2)]);
    assert [BareRelease(t, e2)][1..] == [] && Run(w3, []) == Some(w3);
  }

  /** So a lock may stay taken although its task is idle and has released every hold. */
  lemma ReleasedButTaken()
    ensures exists w :: Reachable(1, w) && w.tasks == [TaskState([], Ready, [], {"u"}, true)] && "u" in w.lock
  {
    hide Step;
    var (w0, u) := (Start(1), "u");
    var first := BareHoldKeeps(w0, 0, 10, u);
    var w1 := Run(w0, first).value;
    var second := NestedHoldLeaks(w1, 0, 10, 11, u);
    var w2 := Run(w1, second).value;
    RunThen(w0, first, second);
    assert Reachable(1, w2);
  }
}
