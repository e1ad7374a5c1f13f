/** Exactly when `stop_platform` can return while an execution of its platform is still there. */
module EventBusStops {
  import opened EventBuses
  import opened EventBusProtocol

  /** Executions of the platform that `_pending_tasks` does not list. */
  function Missed(s: Sys, p: string): set<nat> {
    set t | t in s.bus.runs && s.bus.runs[t].event.platform == p && t !in s.bus.pending
  }

  /** The state right after a `stop_platform` call began to wait knows of all the platform's executions if and only
      if `_pending_tasks` lists them. */
  lemma StopKnowsAllIff(s: Sys, call: nat, p: string)
    requires Lists(s.bus.pending, s.bus.runs)
    ensures Silent(StepStop(s, call, p), p, TasksOf(s.bus.pending, p)) <==> Missed(s, p) == {}
    ensures Silent(StepStop(s, call, p), p, TasksOf(s.bus.pending, p) + Missed(s, p))
  {
    AskCancelFacts(s.bus.runs, TasksOf(s.bus.pending, p));
    forall t | t in s.bus.runs && s.bus.runs[t].event.platform == p
      ensures t in TasksOf(s.bus.pending, p) || t in Missed(s, p) {}
    if t :| t in Missed(s, p) {
      assert t in StepStop(s, call, p).bus.runs && t !in TasksOf(s.bus.pending, p);
    }
  }

  /** Neither lets the platform in again nor belongs to this call. */
  predicate Elsewhere(a: Action, call: nat, p: string) {
    a != Reopens(p) && a != StopReturns(call)
  }

  ghost predicate AllElsewhere(actions: seq<Action>, call: nat, p: string) {
    forall i :: 0 <= i < |actions| ==> Elsewhere(actions[i], call, p)
  }

  predicate RunsOf(s: Sys, p: string) {
    exists t | t in s.bus.runs :: s.bus.runs[t].event.platform == p
  }

  ghost predicate WaitsFor(s: Sys, call: nat, p: string, tasks: set<nat>) {
    call in s.stops && s.stops[call] == Stop(p, tasks, false)
  }

  lemma StillWaits(s: Sys, a: Action, call: nat, p: string, tasks: set<nat>)
    requires WaitsFor(s, call, p, tasks) && Enabled(s, a) && Elsewhere(a, call, p)
    ensures WaitsFor(Step(s, a), call, p, tasks)
  {
  }

  lemma {:induction false} WaitsOn(s: Sys, actions: seq<Action>, call: nat, p: string, tasks: set<nat>, but: set<nat>)
    requires WaitsFor(s, call, p, tasks) && Silent(s, p, but)
    requires Possible(s, actions) && AllElsewhere(actions, call, p)
    ensures WaitsFor(After(s, actions), call, p, tasks) && Silent(After(s, actions), p, but)
    decreases |actions|
  {
    hide Step, Enabled, Silent, WaitsFor;
    if actions != [] {
      assert Elsewhere(actions[0], call, p);
      StillWaits(s, actions[0], call, p, tasks);
      StoppedGetsNoRun(s, actions[0], p, but);
      WaitsOn(Step(s, actions[0]), actions[1..], call, p, tasks, but);
    }
  }

  /** All tasks of a set end and are called back, one after the other. */
  lemma {:induction false} EndAll(s: Sys, tasks: set<nat>, call: nat, p: string) returns (actions: seq<Action>)
    requires tasks <= s.bus.runs.Keys
    ensures Possible(s, actions) && AllElsewhere(actions, call, p)
    ensures After(s, actions).bus.runs.Keys == s.bus.runs.Keys - tasks
    ensures forall t | t in After(s, actions).bus.runs :: After(s, actions).bus.runs[t] == s.bus.runs[t]
    decreases |tasks|
  {
    if tasks == {} {
      actions := [];
    } else {
      var t :| t in tasks;
      var v := Step(s, TaskEnds(t));
      var u := Step(v, DoneCallback(t));
      assert u.bus.runs.Keys == s.bus.runs.Keys - {t};
      assert |tasks - {t}| < |tasks|;
      var rest := EndAll(u, tasks - {t}, call, p);
      TwoSteps(s, TaskEnds(t), DoneCallback(t), rest);
      actions := [TaskEnds(t), DoneCallback(t)] + rest;
    }
  }

  /** A run after the call began, at whose end the call can return although an execution of its platform is there. */
  ghost predicate ReturnsTooEarly(s: Sys, call: nat, p: string, actions: seq<Action>) {
    var v := StepStop(s, call, p);
    && Possible(v, actions) && AllElsewhere(actions, call, p)
    && Enabled(After(v, actions), StopReturns(call)) && RunsOf(After(v, actions), p)
  }

  lemma NothingTooEarly(s: Sys, call: nat, p: string, actions: seq<Action>)
    requires Lists(s.bus.pending, s.bus.runs) && Missed(s, p) == {}
    ensures !ReturnsTooEarly(s, call, p, actions)
  {
    if ReturnsTooEarly(s, call, p, actions) {
      var v := StepStop(s, call, p);
      var tasks := TasksOf(s.bus.pending, p);
      StopKnowsAllIff(s, call, p);
      WaitsOn(v, actions, call, p, tasks, tasks);
    }
  }

  lemma MissedAreThere(s: Sys, v: Sys, tasks: set<nat>, p: string)
    requires Missed(s, p) != {} && tasks !! Missed(s, p)
    requires v.bus.runs.Keys == s.bus.runs.Keys - tasks
    requires forall t | t in v.bus.runs :: v.bus.runs[t].event == s.bus.runs[t].event
    ensures RunsOf(v, p)
  {
    var t :| t in Missed(s, p);
    assert t in v.bus.runs && v.bus.runs[t].event.platform == p;
  }

  lemma MissedStays(s: Sys, call: nat, p: string) returns (actions: seq<Action>)
    requires Lists(s.bus.pending, s.bus.runs) && Missed(s, p) != {}
    ensures ReturnsTooEarly(s, call, p, actions)
  {
    hide Possible, After, Silent, RunsOf;
    var v := StepStop(s, call, p);
    var tasks := TasksOf(s.bus.pending, p);
    AskCancelFacts(s.bus.runs, tasks);
    actions := EndAll(v, tasks, call, p);
    StopKnowsAllIff(s, call, p);
    WaitsOn(v, actions, call, p, tasks, tasks + Missed(s, p));
    MissedAreThere(s, After(v, actions), tasks, p);
    assert Enabled(After(v, actions), StopReturns(call));
  }

  /** A `stop_platform` call that begins now can return while an execution of its platform is still there, before
      the platform is let in again, if and only if `_pending_tasks` misses one of its executions now. */
  lemma ReturnsTooEarlyIff(s: Sys, call: nat, p: string)
    requires Lists(s.bus.pending, s.bus.runs)
    ensures (exists actions :: ReturnsTooEarly(s, call, p, actions)) <==> Missed(s, p) != {}
  {
    if Missed(s, p) != {} {
      var actions := MissedStays(s, call, p);
    } else {
      forall actions ensures !ReturnsTooEarly(s, call, p, actions) {
        NothingTooEarly(s, call, p, actions);
      }
    }
  }

  lemma {:induction false} RegisteredAfter(s: Sys, actions: seq<Action>)
    requires Registered(s) && Possible(s, actions)
    ensures Registered(After(s, actions))
    decreases |actions|
  {
    hide Step, Enabled, Registered;
    if actions != [] {
      StepKeepsRegistered(s, actions[0]);
      RegisteredAfter(Step(s, actions[0]), actions[1..]);
    }
  }

  /** That describes every reachable state, and only a state after a forgetful `shutdown` misses an execution. */
  lemma OnlyForgottenAreMissed(queueSize: nat, maxConcurrency: int, actions: seq<Action>, p: string)
    requires Possible(Initial(queueSize, maxConcurrency), actions)
    ensures var s := After(Initial(queueSize, maxConcurrency), actions);
            && Lists(s.bus.pending, s.bus.runs)
            && (Missed(s, p) != {} ==> s.forgot)
  {
    RegisteredAfter(Initial(queueSize, maxConcurrency), actions);
  }
}
