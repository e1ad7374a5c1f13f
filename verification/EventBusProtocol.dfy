/** Every run of the event bus: permits are conserved, a stopped platform stays silent, and order is kept. */
module EventBusProtocol {
  import opened EventBuses
  import opened Subsequences

  /** A `stop_platform` call that is waiting for its tasks; `reopened` once the platform was let in again. */
  datatype Stop = Stop(platform: string, tasks: set<nat>, reopened: bool)

  /** A `shutdown` call that is waiting for its tasks; `quiet` if the dispatcher was cancelled before it began. */
  datatype Shutdown = Shutdown(tasks: set<nat>, quiet: bool)

  /** The bus, the calls under way, and what happened so far. `forgot` once `shutdown` cleared `_pending_tasks` over
      an execution that was still there. */
  datatype Sys = Sys(bus: Bus, queueSize: nat, stops: map<nat, Stop>, shutdowns: map<nat, Shutdown>,
                     drained: set<string>, forgot: bool,
                     accepted: seq<Event>, started: seq<Event>, dropped: seq<Event>)

  datatype Action =
    | PutEvent(event: Event)
    | TakeEvent(routed: bool, t: nat)
    | ResumeTake(t: nat)
    | DispatchCancelled
    | TaskEnds(t: nat)
    | DoneCallback(t: nat)
    | StopBegins(call: nat, platform: string)
    | StopReturns(call: nat)
    | Reopens(platform: string)
    | ShutdownBegins(call: nat)
    | ShutdownReturns(call: nat)

  function Held(d: Dispatcher): seq<Event> {
    match d
    case Waiting(e) => [e]
    case Handed(e) => [e]
    case _ => []
  }

  predicate Enabled(s: Sys, a: Action) {
    match a
    case PutEvent(_) => s.queueSize > 0 ==> |s.bus.queue| < s.queueSize
    case TakeEvent(_, t) => s.bus.dispatcher == AtQueue && s.bus.queue != [] && t !in s.bus.runs
    case ResumeTake(t) => s.bus.dispatcher.Handed? && t !in s.bus.runs
    case DispatchCancelled => true
    case TaskEnds(t) => t in s.bus.runs
    case DoneCallback(t) => t in s.bus.runs && s.bus.runs[t].ended
    case StopBegins(call, _) => call !in s.stops
    case StopReturns(call) => call in s.stops && s.stops[call].tasks !! s.bus.runs.Keys
    case Reopens(_) => true
    case ShutdownBegins(call) => call !in s.shutdowns
    case ShutdownReturns(call) => call in s.shutdowns && s.shutdowns[call].tasks !! s.bus.runs.Keys
  }

  function StepTake(s: Sys, routed: bool, t: nat): Sys
    requires Enabled(s, TakeEvent(routed, t))
  {
    var v := s.(bus := Take(s.bus, routed, t));
    var e := s.bus.queue[0];
    if e.platform in s.bus.stopped || !routed then v.(dropped := s.dropped + [e])
    else if s.bus.free > 0 then v.(started := s.started + [e])
    else v
  }

  function StepResume(s: Sys, t: nat): Sys
    requires Enabled(s, ResumeTake(t))
  {
    var v := s.(bus := Resume(s.bus, t));
    var e := s.bus.dispatcher.event;
    if e.platform in s.bus.stopped then v.(dropped := s.dropped + [e]) else v.(started := s.started + [e])
  }

  function StepStop(s: Sys, call: nat, p: string): Sys {
    s.(bus := Stopping(s.bus, p),
       stops := s.stops[call := Stop(p, TasksOf(s.bus.pending, p), false)],
       dropped := s.dropped + Own(s.bus.queue, p))
  }

  function Own(queue: seq<Event>, platform: string): seq<Event> {
    if queue == [] then []
    else if queue[0].platform == platform then [queue[0]] + Own(queue[1..], platform)
    else Own(queue[1..], platform)
  }

  function StepStopReturns(s: Sys, call: nat): Sys
    requires call in s.stops
  {
    var c := s.stops[call];
    s.(stops := s.stops - {call}, drained := if c.reopened then s.drained else s.drained + {c.platform})
  }

  /** `stopped_platforms.discard` when an adapter with this id is loaded again. */
  function StepReopens(s: Sys, p: string): Sys {
    s.(bus := s.bus.(stopped := s.bus.stopped - {p}),
       stops := map c | c in s.stops :: if s.stops[c].platform == p then s.stops[c].(reopened := true) else s.stops[c],
       drained := s.drained - {p})
  }

  function StepShutdown(s: Sys, call: nat): Sys {
    s.(bus := s.bus.(runs := AskCancel(s.bus.runs, s.bus.pending.Keys)),
       shutdowns := s.shutdowns[call := Shutdown(s.bus.pending.Keys, s.bus.dispatcher.Cancelled?)])
  }

  function StepShutdownReturns(s: Sys, call: nat): Sys {
    s.(bus := s.bus.(pending := map[]), shutdowns := s.shutdowns - {call},
       forgot := s.forgot || s.bus.runs != map[])
  }

  function Step(s: Sys, a: Action): Sys
    requires Enabled(s, a)
  {
    match a
    case PutEvent(e) => s.(bus := s.bus.(queue := s.bus.queue + [e]), accepted := s.accepted + [e])
    case TakeEvent(routed, t) => StepTake(s, routed, t)
    case ResumeTake(t) => StepResume(s, t)
    case DispatchCancelled => s.(bus := CancelDispatch(s.bus), dropped := s.dropped + Held(s.bus.dispatcher))
    case TaskEnds(t) => s.(bus := End(s.bus, t))
    case DoneCallback(t) => s.(bus := OnTaskDone(s.bus, t))
    case StopBegins(call, p) => StepStop(s, call, p)
    case StopReturns(call) => StepStopReturns(s, call)
    case Reopens(p) => StepReopens(s, p)
    case ShutdownBegins(call) => StepShutdown(s, call)
    case ShutdownReturns(call) => StepShutdownReturns(s, call)
  }

  // ---------------------------------------------------------------- permits

  function InTransit(d: Dispatcher): nat {
    if d.Handed? then 1 else 0
  }

  /** Each permit is free, held by an execution, or on its way to the dispatcher; and the dispatcher never waits
      while one is free. */
  ghost predicate PermitsInv(s: Sys, limit: nat) {
    PermitsAddUp(s.bus, limit)
  }

  ghost predicate PermitsAddUp(b: Bus, limit: nat) {
    && b.free + |b.runs| + InTransit(b.dispatcher) == limit
    && (b.dispatcher.Waiting? ==> b.free == 0)
  }

  /** `_pending_tasks` lists every execution, unless `shutdown` forgot one. */
  ghost predicate Registered(s: Sys) {
    Lists(s.bus.pending, s.bus.runs) && (s.forgot || s.bus.pending.Keys == s.bus.runs.Keys)
  }

  ghost predicate Lists(pending: map<nat, Event>, runs: map<nat, Run>) {
    pending.Keys <= runs.Keys && forall t | t in pending :: pending[t] == runs[t].event
  }

  // ---------------------------------------------------------------- stopped platforms

  ghost predicate Silent(s: Sys, p: string, but: set<nat>) {
    p in s.bus.stopped && RunsOnlyIn(s.bus.runs, p, but)
  }

  ghost predicate RunsOnlyIn(runs: map<nat, Run>, p: string, but: set<nat>) {
    forall t | t in runs && runs[t].event.platform == p :: t in but
  }

  ghost predicate StopsInv(s: Sys) {
    && (forall c | c in s.stops && !s.stops[c].reopened :: Silent(s, s.stops[c].platform, s.stops[c].tasks))
    && (forall p | p in s.drained :: Silent(s, p, {}))
  }

  // ---------------------------------------------------------------- order and conservation

  ghost predicate OrderInv(s: Sys) {
    && Ledger(s.started, Held(s.bus.dispatcher), s.bus.queue, s.dropped, s.accepted)
    && (s.queueSize > 0 ==> |s.bus.queue| <= s.queueSize)
  }

  ghost predicate Ledger(started: seq<Event>, held: seq<Event>, queue: seq<Event>, dropped: seq<Event>,
                         accepted: seq<Event>) {
    && Sub(started + held + queue, accepted)
    && multiset(accepted) == multiset(started) + multiset(held) + multiset(queue) + multiset(dropped)
  }

  function Initial(queueSize: nat, maxConcurrency: int): Sys {
    Sys(Bus([], {}, Permits(maxConcurrency), AtQueue, map[], map[]), queueSize, map[], map[], {}, false, [], [], [])
  }

  ghost predicate Possible(s: Sys, actions: seq<Action>)
    decreases |actions|
  {
    actions == [] || (Enabled(s, actions[0]) && Possible(Step(s, actions[0]), actions[1..]))
  }

  function After(s: Sys, actions: seq<Action>): Sys
    requires Possible(s, actions)
    decreases |actions|
  {
    if actions == [] then s else After(Step(s, actions[0]), actions[1..])
  }

  lemma RemoveOne(m: map<nat, Run>, t: nat)
    requires t in m
    ensures |m - {t}| == |m| - 1
  {
    assert (m - {t}).Keys == m.Keys - {t};
  }

  lemma AddOne(m: map<nat, Run>, t: nat, r: Run)
    ensures |m[t := r]| == if t in m then |m| else |m| + 1
  {
    assert m[t := r].Keys == m.Keys + {t};
  }

  lemma AskCancelFacts(runs: map<nat, Run>, tasks: set<nat>)
    ensures AskCancel(runs, tasks).Keys == runs.Keys && |AskCancel(runs, tasks)| == |runs|
    ensures forall t | t in runs :: AskCancel(runs, tasks)[t].event == runs[t].event
  {
    var asked := AskCancel(runs, tasks);
    assert asked.Keys == runs.Keys;
    assert |asked| == |asked.Keys| && |runs| == |runs.Keys|;
  }

  lemma TakeKeepsPermits(b: Bus, routed: bool, t: nat, limit: nat)
    requires PermitsAddUp(b, limit) && b.dispatcher == AtQueue && b.queue != [] && t !in b.runs
    ensures PermitsAddUp(Take(b, routed, t), limit)
  {
    AddOne(b.runs, t, Run(b.queue[0], false, false));
  }

  lemma ResumeKeepsPermits(b: Bus, t: nat, limit: nat)
    requires PermitsAddUp(b, limit) && b.dispatcher.Handed? && t !in b.runs
    ensures PermitsAddUp(Resume(b, t), limit)
  {
    AddOne(b.runs, t, Run(b.dispatcher.event, false, false));
  }

  lemma EndingKeepsPermits(b: Bus, t: nat, limit: nat)
    requires PermitsAddUp(b, limit) && t in b.runs
    ensures PermitsAddUp(End(b, t), limit) && PermitsAddUp(OnTaskDone(b, t), limit)
  {
    AddOne(b.runs, t, b.runs[t].(ended := true));
    RemoveOne(b.runs, t);
  }

  lemma StepKeepsPermits(s: Sys, a: Action, limit: nat)
    requires PermitsInv(s, limit) && Enabled(s, a)
    ensures PermitsInv(Step(s, a), limit)
  {
    hide AskCancel, TasksOf, Others, Own, Held, Take, Resume, End, OnTaskDone;
    match a
    case TakeEvent(routed, t) => TakeKeepsPermits(s.bus, routed, t, limit);
    case ResumeTake(t) => ResumeKeepsPermits(s.bus, t, limit);
    case TaskEnds(t) => EndingKeepsPermits(s.bus, t, limit);
    case DoneCallback(t) => EndingKeepsPermits(s.bus, t, limit);
    case StopBegins(_, p) => AskCancelFacts(s.bus.runs, TasksOf(s.bus.pending, p));
    case ShutdownBegins(_) => AskCancelFacts(s.bus.runs, s.bus.pending.Keys);
    case _ =>
  }

  /** In every reachable state the permits add up to `max(1, max_concurrency)`, and the dispatcher does not wait
      while one is free. */
  lemma {:induction false} PermitsAreConserved(s: Sys, actions: seq<Action>, limit: nat)
    requires PermitsInv(s, limit) && Possible(s, actions)
    ensures PermitsInv(After(s, actions), limit)
    decreases |actions|
  {
    if actions != [] {
      StepKeepsPermits(s, actions[0], limit);
      PermitsAreConserved(Step(s, actions[0]), actions[1..], limit);
    }
  }

  lemma ListsAfter(pending: map<nat, Event>, runs: map<nat, Run>, t: nat, e: Event, tasks: set<nat>)
    requires Lists(pending, runs)
    ensures t !in runs ==> Lists(pending[t := e], runs[t := Run(e, false, false)])
    ensures t in runs ==> Lists(pending, runs[t := runs[t].(ended := true)])
    ensures Lists(pending - {t}, runs - {t})
    ensures Lists(pending, AskCancel(runs, tasks)) && AskCancel(runs, tasks).Keys == runs.Keys
  {
    AskCancelFacts(runs, tasks);
  }

  lemma StepKeepsRegistered(s: Sys, a: Action)
    requires Registered(s) && Enabled(s, a)
    ensures Registered(Step(s, a))
  {
    hide Lists, AskCancel, TasksOf, Others, Own, Held;
    var (pending, runs) := (s.bus.pending, s.bus.runs);
    match a
    case PutEvent(_) =>
    case TakeEvent(_, t) => ListsAfter(pending, runs, t, s.bus.queue[0], {});
    case ResumeTake(t) => ListsAfter(pending, runs, t, s.bus.dispatcher.event, {});
    case DispatchCancelled =>
    case TaskEnds(t) => ListsAfter(pending, runs, t, runs[t].event, {});
    case DoneCallback(t) => ListsAfter(pending, runs, t, runs[t].event, {});
    case StopBegins(_, p) => ListsAfter(pending, runs, 0, Event(0, p), TasksOf(pending, p));
    case StopReturns(_) =>
    case Reopens(_) =>
    case ShutdownBegins(_) => ListsAfter(pending, runs, 0, Event(0, ""), pending.Keys);
    case ShutdownReturns(_) => NothingListed(runs);
  }

  lemma NothingListed(runs: map<nat, Run>)
    ensures Lists(map[], runs)
  {
  }

  lemma RunsOnlyInAfter(runs: map<nat, Run>, p: string, but: set<nat>, t: nat, e: Event, tasks: set<nat>)
    requires RunsOnlyIn(runs, p, but)
    ensures e.platform != p ==> RunsOnlyIn(runs[t := Run(e, false, false)], p, but)
    ensures t in runs ==> RunsOnlyIn(runs[t := runs[t].(ended := true)], p, but)
    ensures RunsOnlyIn(runs - {t}, p, but) && RunsOnlyIn(AskCancel(runs, tasks), p, but)
  {
  }

  /** The dispatcher starts nothing for a stopped platform. */
  lemma DispatchStartsNoRun(s: Sys, a: Action, p: string, but: set<nat>)
    requires Silent(s, p, but) && Enabled(s, a) && (a.TakeEvent? || a.ResumeTake?)
    ensures Silent(Step(s, a), p, but)
  {
    hide AskCancel, TasksOf, Others, Own, RunsOnlyIn, Held;
    if a.TakeEvent? {
      RunsOnlyInAfter(s.bus.runs, p, but, a.t, s.bus.queue[0], {});
    } else {
      RunsOnlyInAfter(s.bus.runs, p, but, a.t, s.bus.dispatcher.event, {});
    }
  }

  lemma EndingStartsNoRun(s: Sys, a: Action, p: string, but: set<nat>)
    requires Silent(s, p, but) && Enabled(s, a) && (a.TaskEnds? || a.DoneCallback?)
    ensures Silent(Step(s, a), p, but)
  {
    hide AskCancel, TasksOf, Others, Own, RunsOnlyIn, Held;
    RunsOnlyInAfter(s.bus.runs, p, but, a.t, s.bus.runs[a.t].event, {});
  }

  lemma AskingStartsNoRun(s: Sys, a: Action, p: string, but: set<nat>)
    requires Silent(s, p, but) && Enabled(s, a) && (a.StopBegins? || a.ShutdownBegins?)
    ensures Silent(Step(s, a), p, but)
  {
    hide AskCancel, TasksOf, Others, Own, RunsOnlyIn, Held;
    if a.StopBegins? {
      RunsOnlyInAfter(s.bus.runs, p, but, 0, Event(0, p), TasksOf(s.bus.pending, a.platform));
    } else {
      RunsOnlyInAfter(s.bus.runs, p, but, 0, Event(0, p), s.bus.pending.Keys);
    }
  }

  /** A platform that is stopped gets no new execution. */
  lemma StoppedGetsNoRun(s: Sys, a: Action, p: string, but: set<nat>)
    requires Silent(s, p, but) && Enabled(s, a) && a != Reopens(p)
    ensures Silent(Step(s, a), p, but)
  {
    hide AskCancel, TasksOf, Others, Own, RunsOnlyIn, Held;
    if a.TakeEvent? || a.ResumeTake? {
      DispatchStartsNoRun(s, a, p, but);
    } else if a.TaskEnds? || a.DoneCallback? {
      EndingStartsNoRun(s, a, p, but);
    } else if a.StopBegins? || a.ShutdownBegins? {
      AskingStartsNoRun(s, a, p, but);
    }
  }

  lemma StepKeepsStops(s: Sys, a: Action)
    requires StopsInv(s) && Registered(s) && !s.forgot && Enabled(s, a)
    ensures StopsInv(Step(s, a))
  {
    hide Silent;
    var v := Step(s, a);
    forall c | c in v.stops && !v.stops[c].reopened ensures Silent(v, v.stops[c].platform, v.stops[c].tasks) {
      if c in s.stops {
        assert v.stops[c] == s.stops[c];
        StoppedGetsNoRun(s, a, s.stops[c].platform, s.stops[c].tasks);
      } else {
        StopCoversAll(s, a.call, a.platform);
      }
    }
    forall p | p in v.drained ensures Silent(v, p, {}) {
      if p in s.drained {
        StoppedGetsNoRun(s, a, p, {});
      } else {
        StoppedGetsNoRun(s, a, p, s.stops[a.call].tasks);
        NothingLeft(v, p, s.stops[a.call].tasks);
      }
    }
  }

  lemma StopCoversAll(s: Sys, call: nat, p: string)
    requires Registered(s) && !s.forgot
    ensures Silent(StepStop(s, call, p), p, TasksOf(s.bus.pending, p))
  {
    AskCancelFacts(s.bus.runs, TasksOf(s.bus.pending, p));
  }

  lemma NothingLeft(s: Sys, p: string, tasks: set<nat>)
    requires Silent(s, p, tasks) && tasks !! s.bus.runs.Keys
    ensures Silent(s, p, {})
  {
  }

  // ---------------------------------------------------------------- shutdown

  /** The lifecycle's order: the dispatch task is cancelled before `shutdown` begins. */
  ghost predicate Orderly(s: Sys, actions: seq<Action>)
    requires Possible(s, actions)
    decreases |actions|
  {
    actions == [] ||
    ((actions[0].ShutdownBegins? ==> s.bus.dispatcher.Cancelled?) && Orderly(Step(s, actions[0]), actions[1..]))
  }

  /** While `shutdown` waits, no execution is added to those it waits for, and none is ever forgotten. */
  ghost predicate ShutdownInv(s: Sys) {
    && !s.forgot
    && forall c | c in s.shutdowns :: s.bus.dispatcher.Cancelled? && s.bus.runs.Keys <= s.shutdowns[c].tasks
  }

  lemma StepKeepsShutdowns(s: Sys, a: Action)
    requires ShutdownInv(s) && Registered(s) && Enabled(s, a)
    requires a.ShutdownBegins? ==> s.bus.dispatcher.Cancelled?
    ensures ShutdownInv(Step(s, a))
    ensures a.ShutdownReturns? ==> Step(s, a).bus.runs == map[]
  {
    hide Lists, Sub;
    match a
    case StopBegins(_, p) => AskCancelFacts(s.bus.runs, TasksOf(s.bus.pending, p));
    case ShutdownBegins(_) => AskCancelFacts(s.bus.runs, s.bus.pending.Keys);
    case ShutdownReturns(c) => assert s.bus.runs.Keys == {};
    case _ =>
  }

  ghost predicate Inv(s: Sys) {
    Registered(s) && StopsInv(s) && ShutdownInv(s)
  }

  lemma {:induction false} OrderlyRunsKeepInv(s: Sys, actions: seq<Action>)
    requires Inv(s) && Possible(s, actions) && Orderly(s, actions)
    ensures Inv(After(s, actions))
    decreases |actions|
  {
    if actions != [] {
      StepKeepsRegistered(s, actions[0]);
      StepKeepsStops(s, actions[0]);
      StepKeepsShutdowns(s, actions[0]);
      hide Step, Enabled, Registered, StopsInv, ShutdownInv;
      OrderlyRunsKeepInv(Step(s, actions[0]), actions[1..]);
    }
  }

  lemma StartsNothingOf(s: Sys, a: Action, p: string)
    requires p in s.bus.stopped && Enabled(s, a)
    ensures s.started <= Step(s, a).started
    ensures forall e | e in Step(s, a).started[|s.started|..] :: e.platform != p
  {
  }

  ghost predicate StartedOthersOnly(before: seq<Event>, after: seq<Event>, p: string) {
    before <= after && forall e | e in after[|before|..] :: e.platform != p
  }

  lemma StartedOthersOnlyTrans(a: seq<Event>, b: seq<Event>, c: seq<Event>, p: string)
    requires StartedOthersOnly(a, b, p) && StartedOthersOnly(b, c, p)
    ensures StartedOthersOnly(a, c, p)
  {
    assert c[|a|..] == b[|a|..] + c[|b|..];
  }

  lemma {:induction false} SilentForGood(s: Sys, more: seq<Action>, p: string)
    requires Silent(s, p, {}) && Possible(s, more) && Reopens(p) !in more
    ensures Silent(After(s, more), p, {})
    ensures StartedOthersOnly(s.started, After(s, more).started, p)
    decreases |more|
  {
    if more != [] {
      StoppedGetsNoRun(s, more[0], p, {});
      StartsNothingOf(s, more[0], p);
      assert StartedOthersOnly(s.started, Step(s, more[0]).started, p);
      hide Step, Enabled, Silent, StartedOthersOnly;
      SilentForGood(Step(s, more[0]), more[1..], p);
      StartedOthersOnlyTrans(s.started, Step(s, more[0]).started, After(s, more).started, p);
    }
  }

  /** Once `stop_platform` has returned, no execution of the platform is there and none starts again until an
      adapter with that id is loaded. */
  lemma StoppedPlatformStaysSilent(queueSize: nat, maxConcurrency: int, before: seq<Action>, call: nat, more: seq<Action>)
    requires Possible(Initial(queueSize, maxConcurrency), before) && Orderly(Initial(queueSize, maxConcurrency), before)
    requires var s := After(Initial(queueSize, maxConcurrency), before);
             && Enabled(s, StopReturns(call)) && !s.stops[call].reopened
             && Possible(Step(s, StopReturns(call)), more) && Reopens(s.stops[call].platform) !in more
    ensures var s := After(Initial(queueSize, maxConcurrency), before);
            var p := s.stops[call].platform;
            var end := After(Step(s, StopReturns(call)), more);
            && (forall t | t in end.bus.runs :: end.bus.runs[t].event.platform != p)
            && StartedOthersOnly(s.started, end.started, p)
  {
    OrderlyRunsKeepInv(Initial(queueSize, maxConcurrency), before);
    var s := After(Initial(queueSize, maxConcurrency), before);
    StepKeepsStops(s, StopReturns(call));
    SilentForGood(Step(s, StopReturns(call)), more, s.stops[call].platform);
  }

  /** Two executions are there and a `shutdown` call knows of the first only. */
  function Beside(e: Event): Sys {
    Sys(Bus([], {}, 0, AtQueue, map[0 := e, 1 := e], map[0 := Run(e, false, true), 1 := Run(e, false, false)]),
        0, map[], map[0 := Shutdown({0}, false)], {}, false, [e, e], [e, e], [])
  }

  lemma TwoSteps(s: Sys, a: Action, b: Action, rest: seq<Action>)
    requires Enabled(s, a) && Enabled(Step(s, a), b) && Possible(Step(Step(s, a), b), rest)
    ensures Possible(s, [a, b] + rest) && After(s, [a, b] + rest) == After(Step(Step(s, a), b), rest)
  {
    hide Step, Enabled;
    var all := [a, b] + rest;
    assert all[1..] == [b] + rest && all[1..][1..] == rest;
  }

  lemma StartedBesideShutdown(e: Event)
    ensures var first := [PutEvent(e), TakeEvent(true, 0), ShutdownBegins(0), PutEvent(e), TakeEvent(true, 1)];
            Possible(Initial(0, 2), first) && After(Initial(0, 2), first) == Beside(e)
  {
    var s2 := Step(Step(Initial(0, 2), PutEvent(e)), TakeEvent(true, 0));
    assert s2 == Sys(Bus([], {}, 1, AtQueue, map[0 := e], map[0 := Run(e, false, false)]),
                     0, map[], map[], {}, false, [e], [e], []);
    SecondBesideShutdown(s2, e);
    var rest := [ShutdownBegins(0), PutEvent(e), TakeEvent(true, 1)];
    TwoSteps(Initial(0, 2), PutEvent(e), TakeEvent(true, 0), rest);
    assert [PutEvent(e), TakeEvent(true, 0)] + rest
           == [PutEvent(e), TakeEvent(true, 0), ShutdownBegins(0), PutEvent(e), TakeEvent(true, 1)];
  }

  lemma SecondBesideShutdown(s: Sys, e: Event)
    requires s == Sys(Bus([], {}, 1, AtQueue, map[0 := e], map[0 := Run(e, false, false)]),
                      0, map[], map[], {}, false, [e], [e], [])
    ensures var rest := [ShutdownBegins(0), PutEvent(e), TakeEvent(true, 1)];
            Possible(s, rest) && After(s, rest) == Beside(e)
  {
    var v := Step(s, ShutdownBegins(0));
    assert s.bus.pending.Keys == {0};
    assert AskCancel(s.bus.runs, {0}) == map[0 := Run(e, false, true)];
    assert v == Sys(Bus([], {}, 1, AtQueue, map[0 := e], map[0 := Run(e, false, true)]),
                    0, map[], map[0 := Shutdown({0}, false)], {}, false, [e], [e], []);
    assert Step(Step(v, PutEvent(e)), TakeEvent(true, 1)) == Beside(e);
    TwoSteps(v, PutEvent(e), TakeEvent(true, 1), []);
    var rest := [ShutdownBegins(0), PutEvent(e), TakeEvent(true, 1)];
    assert rest[1..] == [PutEvent(e), TakeEvent(true, 1)] + [];
  }

  lemma ForgottenThenStopped(e: Event)
    ensures var last := [TaskEnds(0), DoneCallback(0), ShutdownReturns(0), StopBegins(0, e.platform), StopReturns(0)];
            && Possible(Beside(e), last) && e.platform in After(Beside(e), last).drained
            && After(Beside(e), last).bus.runs == map[1 := Run(e, false, false)]
  {
    var s := Step(Step(Beside(e), TaskEnds(0)), DoneCallback(0));
    assert s.bus.runs == map[1 := Run(e, false, false)];
    StoppedAfterClear(s, e);
    var rest := [ShutdownReturns(0), StopBegins(0, e.platform), StopReturns(0)];
    TwoSteps(Beside(e), TaskEnds(0), DoneCallback(0), rest);
    assert [TaskEnds(0), DoneCallback(0)] + rest
           == [TaskEnds(0), DoneCallback(0), ShutdownReturns(0), StopBegins(0, e.platform), StopReturns(0)];
  }

  lemma StoppedAfterClear(s: Sys, e: Event)
    requires s.bus.runs == map[1 := Run(e, false, false)] && s.shutdowns == map[0 := Shutdown({0}, false)]
    requires s.stops == map[]
    ensures var rest := [ShutdownReturns(0), StopBegins(0, e.platform), StopReturns(0)];
            && Possible(s, rest) && e.platform in After(s, rest).drained && After(s, rest).bus.runs == s.bus.runs
  {
    var v := Step(s, ShutdownReturns(0));
    assert v.bus.pending == map[] && v.stops == map[];
    assert TasksOf(v.bus.pending, e.platform) == {} && AskCancel(v.bus.runs, {}) == v.bus.runs;
    TwoSteps(v, StopBegins(0, e.platform), StopReturns(0), []);
    var rest := [ShutdownReturns(0), StopBegins(0, e.platform), StopReturns(0)];
    assert rest[1..] == [StopBegins(0, e.platform), StopReturns(0)] + [];
  }

  /** The order matters: `shutdown` beside a live dispatcher clears `_pending_tasks` over an execution started
      meanwhile, and a later `stop_platform` returns while that execution still runs. */
  lemma ShutdownBesideDispatchForgets(e: Event)
    ensures var actions := [PutEvent(e), TakeEvent(true, 0), ShutdownBegins(0), PutEvent(e), TakeEvent(true, 1),
                            TaskEnds(0), DoneCallback(0), ShutdownReturns(0), StopBegins(0, e.platform), StopReturns(0)];
            && Possible(Initial(0, 2), actions)
            && e.platform in After(Initial(0, 2), actions).drained
            && After(Initial(0, 2), actions).bus.runs == map[1 := Run(e, false, false)]
  {
    hide Possible, After;
    var first := [PutEvent(e), TakeEvent(true, 0), ShutdownBegins(0), PutEvent(e), TakeEvent(true, 1)];
    StartedBesideShutdown(e);
    var last := [TaskEnds(0), DoneCallback(0), ShutdownReturns(0), StopBegins(0, e.platform), StopReturns(0)];
    ForgottenThenStopped(e);
    Chained(Initial(0, 2), first, last);
    assert first + last == [PutEvent(e), TakeEvent(true, 0), ShutdownBegins(0), PutEvent(e), TakeEvent(true, 1),
                            TaskEnds(0), DoneCallback(0), ShutdownReturns(0), StopBegins(0, e.platform), StopReturns(0)];
  }

  lemma {:induction false} Chained(s: Sys, first: seq<Action>, last: seq<Action>)
    requires Possible(s, first) && Possible(After(s, first), last)
    ensures Possible(s, first + last) && After(s, first + last) == After(After(s, first), last)
    decreases |first|
  {
    if first == [] {
      assert first + last == last;
    } else {
      assert (first + last)[1..] == first[1..] + last;
      Chained(Step(s, first[0]), first[1..], last);
    }
  }

  // ---------------------------------------------------------------- order

  lemma {:induction false} OthersAreInOrder(queue: seq<Event>, p: string)
    ensures Sub(Others(queue, p), queue)
    decreases |queue|
  {
    if queue != [] {
      OthersAreInOrder(queue[1..], p);
      if queue[0].platform == p {
        assert Others(queue, p) == Others(queue[1..], p);
      } else {
        assert Others(queue, p)[1..] == Others(queue[1..], p);
      }
    }
  }

  lemma {:induction false} OthersAndOwn(queue: seq<Event>, p: string)
    ensures multiset(queue) == multiset(Others(queue, p)) + multiset(Own(queue, p))
    decreases |queue|
  {
    if queue != [] {
      OthersAndOwn(queue[1..], p);
      assert queue == [queue[0]] + queue[1..];
    }
  }

  lemma LedgerAccepts(started: seq<Event>, held: seq<Event>, queue: seq<Event>, dropped: seq<Event>,
                      accepted: seq<Event>, e: Event)
    requires Ledger(started, held, queue, dropped, accepted)
    ensures Ledger(started, held, queue + [e], dropped, accepted + [e])
  {
    Reflexive([e]);
    Joined(started + held + queue, accepted, [e], [e]);
    assert started + held + (queue + [e]) == started + held + queue + [e];
  }

  lemma LedgerTakes(started: seq<Event>, queue: seq<Event>, dropped: seq<Event>, accepted: seq<Event>)
    requires queue != [] && Ledger(started, [], queue, dropped, accepted)
    ensures Ledger(started, [queue[0]], queue[1..], dropped, accepted)
  {
    assert queue == [queue[0]] + queue[1..];
    assert started + [queue[0]] + queue[1..] == started + [] + queue;
    assert multiset(queue) == multiset([queue[0]]) + multiset(queue[1..]);
  }

  lemma LedgerStarts(started: seq<Event>, held: seq<Event>, queue: seq<Event>, dropped: seq<Event>,
                     accepted: seq<Event>)
    requires Ledger(started, held, queue, dropped, accepted)
    ensures Ledger(started + held, [], queue, dropped, accepted)
  {
    assert started + held + [] == started + held;
  }

  lemma LedgerDrops(started: seq<Event>, held: seq<Event>, queue: seq<Event>, dropped: seq<Event>,
                    accepted: seq<Event>)
    requires Ledger(started, held, queue, dropped, accepted)
    ensures Ledger(started, [], queue, dropped + held, accepted)
  {
    WithoutMiddle(started, held, queue);
    assert started + [] == started;
    Transitive(started + queue, started + held + queue, accepted);
  }

  lemma LedgerDrains(started: seq<Event>, held: seq<Event>, queue: seq<Event>, dropped: seq<Event>,
                     accepted: seq<Event>, p: string)
    requires Ledger(started, held, queue, dropped, accepted)
    ensures Ledger(started, held, Others(queue, p), dropped + Own(queue, p), accepted)
  {
    OthersAreInOrder(queue, p);
    OthersAndOwn(queue, p);
    Reflexive(started + held);
    Joined(started + held, started + held, Others(queue, p), queue);
    Transitive(started + held + Others(queue, p), started + held + queue, accepted);
  }

  lemma TakeKeepsOrder(s: Sys, routed: bool, t: nat)
    requires OrderInv(s) && Enabled(s, TakeEvent(routed, t))
    ensures OrderInv(StepTake(s, routed, t))
  {
    hide Ledger;
    LedgerTakes(s.started, s.bus.queue, s.dropped, s.accepted);
    LedgerStarts(s.started, [s.bus.queue[0]], s.bus.queue[1..], s.dropped, s.accepted);
    LedgerDrops(s.started, [s.bus.queue[0]], s.bus.queue[1..], s.dropped, s.accepted);
  }

  /** Events start in the order they were accepted, none twice; each accepted event is started, held by the
      dispatcher, queued, or dropped; and the queue never overflows. */
  lemma StepKeepsOrder(s: Sys, a: Action)
    requires OrderInv(s) && Enabled(s, a)
    ensures OrderInv(Step(s, a))
  {
    hide TasksOf, AskCancel, Ledger, Others, Own, StepTake, Take;
    match a
    case PutEvent(e) =>
      LedgerAccepts(s.started, Held(s.bus.dispatcher), s.bus.queue, s.dropped, s.accepted, e);
    case TakeEvent(routed, t) =>
      TakeKeepsOrder(s, routed, t);
    case ResumeTake(_) =>
      LedgerStarts(s.started, Held(s.bus.dispatcher), s.bus.queue, s.dropped, s.accepted);
      LedgerDrops(s.started, Held(s.bus.dispatcher), s.bus.queue, s.dropped, s.accepted);
    case DispatchCancelled =>
      LedgerDrops(s.started, Held(s.bus.dispatcher), s.bus.queue, s.dropped, s.accepted);
    case StopBegins(_, p) =>
      LedgerDrains(s.started, Held(s.bus.dispatcher), s.bus.queue, s.dropped, s.accepted, p);
      OthersFacts(s.bus.queue, p);
    case _ =>
  }

  lemma {:induction false} OrderIsKept(s: Sys, actions: seq<Action>)
    requires OrderInv(s) && Possible(s, actions)
    ensures OrderInv(After(s, actions))
    decreases |actions|
  {
    if actions != [] {
      StepKeepsOrder(s, actions[0]);
      OrderIsKept(Step(s, actions[0]), actions[1..]);
    }
  }

  /** In every reachable state: free permits, executions and the permit in transit add up to
      `max(1, max_concurrency)`; order is kept and no accepted event is lost. */
  lemma ReachableBus(queueSize: nat, maxConcurrency: int, actions: seq<Action>)
    requires Possible(Initial(queueSize, maxConcurrency), actions)
    ensures PermitsInv(After(Initial(queueSize, maxConcurrency), actions), Permits(maxConcurrency))
    ensures OrderInv(After(Initial(queueSize, maxConcurrency), actions))
  {
    var s := Initial(queueSize, maxConcurrency);
    PermitsAreConserved(s, actions, Permits(maxConcurrency));
    assert s.started + Held(s.bus.dispatcher) + s.bus.queue == [];
    OrderIsKept(s, actions);
  }
}
