/** When all locks end up free, in terms of what happened on the run. */
module OutboundLeaks {
  import opened Options
  import opened OutboundGate
  import opened OutboundProtocol
  import opened OutboundInvariant
  import opened OutboundSteps
  import opened OutboundProgress

  /** The step releases the hold that owns `u`'s lock while task `t` holds the UMO more than once. */
  predicate Leaks(w: World, a: Action, t: TaskId, u: Umo) {
    && a.t == t && t < |w.tasks| && DepthOf(w.gate, t, u) > 1
    && var ts := w.tasks[t];
       || (a.BareRelease? && FindLoose(ts.loose, a.e) == Some(Loose(a.e, u, true)))
       || (a.Leave? && ts.stack != [] && ts.stack[0].Turn? && ts.stack[0].mode == Owns && ts.stack[0].umo == u)
  }

  predicate LeaksOnRun(w: World, actions: seq<Action>, t: TaskId, u: Umo)
    decreases |actions|
  {
    actions != [] &&
    (|| Leaks(w, actions[0], t, u)
     || match Step(w, actions[0])
        case None => false
        case Some(v) => LeaksOnRun(v, actions[1..], t, u))
  }

  lemma LeavingLeaks(w: World, t: TaskId, u: Umo)
    requires Inv(w) && LeaveStep(w, t).Some?
    ensures t < |w.tasks| == |LeaveStep(w, t).value.tasks|
    ensures u in LeaveStep(w, t).value.tasks[t].leaked <==> u in w.tasks[t].leaked || Leaks(w, Leave(t), t, u)
  {
    hide FramesOk, EventsOk, WaitOk, LockOk, StayedOk, TablesOk;
    LeavingLeaksIff(w, t, u);
    assert TaskOk(w.gate, w.lock, w.bound, t, w.tasks[t]);
    assert DepthOf(w.gate, t, u) == LiveHolds(w.tasks[t], u);
  }

  lemma ReleasingLeaks(w: World, t: TaskId, e: EventId, u: Umo)
    requires Inv(w) && BareReleaseStep(w, t, e).Some?
    ensures t < |w.tasks| == |BareReleaseStep(w, t, e).value.tasks|
    ensures u in BareReleaseStep(w, t, e).value.tasks[t].leaked
            <==> u in w.tasks[t].leaked || Leaks(w, BareRelease(t, e), t, u)
  {
    hide FramesOk, WaitOk, DepthOk, LockOk, StayedOk, TablesOk;
    assert TaskOk(w.gate, w.lock, w.bound, t, w.tasks[t]);
    FindLooseIn(w.tasks[t].loose, e);
    assert FindLoose(w.tasks[t].loose, e).value in w.tasks[t].loose;
  }

  lemma OthersLeakNothing(w: World, a: Action, t: TaskId)
    requires Step(w, a).Some? && t < |w.tasks| && (a.t != t || (!a.Leave? && !a.BareRelease?))
    ensures |Step(w, a).value.tasks| == |w.tasks| && Step(w, a).value.tasks[t].leaked == w.tasks[t].leaked
  {
    hide Reserve, Abandon, Register, ReleaseTurn, EnterSend, SendAcquired, LeaveSend, SetMode, Dropped;
  }

  lemma {:induction false} LeakedIff(w: World, actions: seq<Action>, t: TaskId, u: Umo)
    requires Inv(w) && t < |w.tasks| && Run(w, actions).Some?
    ensures |Run(w, actions).value.tasks| == |w.tasks|
    ensures u in Run(w, actions).value.tasks[t].leaked <==> u in w.tasks[t].leaked || LeaksOnRun(w, actions, t, u)
    decreases |actions|
  {
    hide Inv, Leaks;
    if actions != [] {
      var a := actions[0];
      AnyStepKeepsInv(w, a);
      StepLeaksIff(w, a, t, u);
      hide Step;
      LeakedIff(Step(w, a).value, actions[1..], t, u);
    }
  }

  lemma StepLeaksIff(w: World, a: Action, t: TaskId, u: Umo)
    requires Inv(w) && Step(w, a).Some? && t < |w.tasks|
    ensures |Step(w, a).value.tasks| == |w.tasks|
    ensures u in Step(w, a).value.tasks[t].leaked <==> u in w.tasks[t].leaked || Leaks(w, a, t, u)
  {
    hide Inv, LeaveStep, BareReleaseStep;
    if a.t == t && a.Leave? {
      LeavingLeaks(w, t, u);
    } else if a.t == t && a.BareRelease? {
      ReleasingLeaks(w, t, a.e, u);
    } else {
      OthersLeakNothing(w, a, t);
    }
  }

  lemma {:induction false} OwnCountIff(loose: seq<Loose>, u: Umo)
    ensures LooseOwnCount(loose, u) > 0 <==> exists l | l in loose :: l.umo == u && l.owns
  {
    if loose != [] {
      OwnCountIff(loose[1..], u);
      assert loose == [loose[0]] + loose[1..];
      assert loose[0] in loose;
    }
  }

  /** No hold without a turn that owns a lock is left. */
  ghost predicate NoOwnerLeft(w: World) {
    forall t: TaskId, l: Loose :: t < |w.tasks| && l in w.tasks[t].loose ==> !l.owns
  }

  ghost predicate NothingLeaked(taskCount: nat, actions: seq<Action>) {
    forall t: TaskId, u: Umo :: t < taskCount ==> !LeaksOnRun(Start(taskCount), actions, t, u)
  }

  /** All locks are free in the end if and only if every hold without a turn that owned a lock was released or
      handed to a turn, and on the way no owning hold was released while its task held the UMO more than once. */
  lemma FreeInTheEndIff(taskCount: nat, actions: seq<Action>)
    requires Run(Start(taskCount), actions).Some? && Finished(Run(Start(taskCount), actions).value)
    ensures var w := Run(Start(taskCount), actions).value;
            w.lock == map[] <==> NoOwnerLeft(w) && NothingLeaked(taskCount, actions)
  {
    hide Step, Inv, BoundAreUsed, LooseOwnCount, LeaksOnRun, Run;
    var (start, w) := (Start(taskCount), Run(Start(taskCount), actions).value);
    StartIsReachable(taskCount, actions);
    FinishedIsFreeIff(taskCount, w);
    ReachableInv(taskCount, w);
    forall t: TaskId, u | t < taskCount
      ensures Kept(w.tasks[t], u) <==>
              || (exists l | l in w.tasks[t].loose :: l.umo == u && l.owns)
              || LeaksOnRun(start, actions, t, u)
    {
      OwnCountIff(w.tasks[t].loose, u);
      LeakedIff(start, actions, t, u);
    }
    if w.lock == map[] {
      forall t: TaskId, l | t < |w.tasks| && l in w.tasks[t].loose ensures !l.owns {
        assert !Kept(w.tasks[t], l.umo);
      }
      forall t: TaskId, u | t < taskCount ensures !LeaksOnRun(start, actions, t, u) {
        assert !Kept(w.tasks[t], u);
      }
    } else {
      var t: TaskId, u :| t < |w.tasks| && Kept(w.tasks[t], u);
      if !LeaksOnRun(start, actions, t, u) {
        var l :| l in w.tasks[t].loose && l.umo == u && l.owns;
        assert !NoOwnerLeft(w);
      } else {
        assert !NothingLeaked(taskCount, actions);
      }
    }
  }

  lemma StartIsReachable(taskCount: nat, actions: seq<Action>)
    requires Run(Start(taskCount), actions).Some?
    ensures Reachable(taskCount, Run(Start(taskCount), actions).value)
    ensures Inv(Start(taskCount))
  {
    assert Run(Start(taskCount), []) == Some(Start(taskCount));
    ReachableInv(taskCount, Start(taskCount));
  }
}
