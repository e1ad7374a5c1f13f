/** Which executions a stopping platform or bus asks to cancel, and that nothing takes the request back. */
module EventBusCancels {
  import opened EventBuses
  import opened EventBusProtocol
  import opened EventBusStops

  predicate Asked(s: Sys, t: nat) {
    t in s.bus.runs && s.bus.runs[t].cancelAsked
  }

  /** `stop_platform` asks exactly the platform's listed executions that are not over, besides those asked before;
      which executions there are, and which are over, does not change. */
  lemma StopAsksExactly(s: Sys, call: nat, p: string)
    requires Lists(s.bus.pending, s.bus.runs) && Enabled(s, StopBegins(call, p))
    ensures var v := Step(s, StopBegins(call, p));
            && v.bus.runs.Keys == s.bus.runs.Keys
            && forall t | t in s.bus.runs ::
                 && v.bus.runs[t].event == s.bus.runs[t].event && v.bus.runs[t].ended == s.bus.runs[t].ended
                 && (Asked(v, t) <==> || Asked(s, t)
                                      || (t in s.bus.pending && s.bus.runs[t].event.platform == p && !s.bus.runs[t].ended))
  {
  }

  /** `shutdown` asks exactly the listed executions that are not over, besides those asked before. */
  lemma ShutdownAsksExactly(s: Sys, call: nat)
    requires Enabled(s, ShutdownBegins(call))
    ensures var v := Step(s, ShutdownBegins(call));
            && v.bus.runs.Keys == s.bus.runs.Keys
            && forall t | t in s.bus.runs ::
                 && v.bus.runs[t].event == s.bus.runs[t].event && v.bus.runs[t].ended == s.bus.runs[t].ended
                 && (Asked(v, t) <==> Asked(s, t) || (t in s.bus.pending && !s.bus.runs[t].ended))
  {
  }

  /** No other step asks an execution to cancel. */
  lemma OthersAskNobody(s: Sys, a: Action, t: nat)
    requires Enabled(s, a) && !a.StopBegins? && !a.ShutdownBegins?
    ensures Asked(Step(s, a), t) ==> Asked(s, t)
  {
    hide Others, Own, Held;
  }

  /** A request to cancel stays until the execution's done callback. */
  lemma StepKeepsAsked(s: Sys, a: Action, t: nat)
    requires Asked(s, t) && Enabled(s, a) && a != DoneCallback(t)
    ensures Asked(Step(s, a), t) && Step(s, a).bus.runs[t].event == s.bus.runs[t].event
  {
    hide Others, Own, Held;
  }

  lemma {:induction false} AskedUntilDone(s: Sys, actions: seq<Action>, t: nat)
    requires Asked(s, t) && Possible(s, actions) && DoneCallback(t) !in actions
    ensures Asked(After(s, actions), t) && After(s, actions).bus.runs[t].event == s.bus.runs[t].event
    decreases |actions|
  {
    hide Step, Enabled, Asked;
    if actions != [] {
      StepKeepsAsked(s, actions[0], t);
      AskedUntilDone(Step(s, actions[0]), actions[1..], t);
    }
  }

  /** On every run, from the call of `stop_platform` on: each of the platform's listed executions that was not over
      is asked to cancel and stays so until it is called back. */
  lemma StoppedAreAskedUntilDone(queueSize: nat, maxConcurrency: int, before: seq<Action>, call: nat, p: string,
                                 after: seq<Action>, t: nat)
    requires Possible(Initial(queueSize, maxConcurrency), before)
    requires var s := After(Initial(queueSize, maxConcurrency), before);
             && Enabled(s, StopBegins(call, p)) && Possible(Step(s, StopBegins(call, p)), after)
             && t in s.bus.pending && t in s.bus.runs && s.bus.runs[t].event.platform == p && !s.bus.runs[t].ended
             && DoneCallback(t) !in after
    ensures var s := After(Initial(queueSize, maxConcurrency), before);
            Asked(After(Step(s, StopBegins(call, p)), after), t)
  {
    var s := After(Initial(queueSize, maxConcurrency), before);
    OnlyForgottenAreMissed(queueSize, maxConcurrency, before, p);
    StopAsksExactly(s, call, p);
    AskedUntilDone(Step(s, StopBegins(call, p)), after, t);
  }
}
