/** What each step of the bus does to events and permits, and that every queued event can be started. */
module EventBusLiveness {
  import opened EventBuses
  import opened EventBusProtocol

  // ---------------------------------------------------------------- single steps

  /** An event is started at once if its platform is not stopped, it has a scheduler, and a permit is free; it waits
      for a permit if only that is missing; otherwise it is dropped. */
  lemma TakesExactly(s: Sys, routed: bool, t: nat)
    requires Enabled(s, TakeEvent(routed, t))
    ensures var (v, e) := (Step(s, TakeEvent(routed, t)), s.bus.queue[0]);
            var wanted := routed && e.platform !in s.bus.stopped;
            && v.bus.queue == s.bus.queue[1..] && v.bus.stopped == s.bus.stopped
            && v.started == s.started + (if wanted && s.bus.free > 0 then [e] else [])
            && v.dropped == s.dropped + (if wanted then [] else [e])
            && v.bus.dispatcher == (if wanted && s.bus.free == 0 then Waiting(e) else AtQueue)
            && v.bus.free == s.bus.free - (if wanted && s.bus.free > 0 then 1 else 0)
            && (if wanted && s.bus.free > 0
                then v.bus.runs == s.bus.runs[t := Run(e, false, false)] && v.bus.pending == s.bus.pending[t := e]
                else v.bus.runs == s.bus.runs && v.bus.pending == s.bus.pending)
  {
  }

  /** With the permit it was handed the dispatcher starts the event it holds, unless the platform was stopped
      meanwhile; then the event is dropped and the permit goes back. */
  lemma ResumesExactly(s: Sys, t: nat)
    requires Enabled(s, ResumeTake(t))
    ensures var (v, e) := (Step(s, ResumeTake(t)), s.bus.dispatcher.event);
            var wanted := e.platform !in s.bus.stopped;
            && v.bus.queue == s.bus.queue && v.bus.stopped == s.bus.stopped && v.bus.dispatcher == AtQueue
            && v.started == s.started + (if wanted then [e] else [])
            && v.dropped == s.dropped + (if wanted then [] else [e])
            && v.bus.free == s.bus.free + (if wanted then 0 else 1)
            && (if wanted
                then v.bus.runs == s.bus.runs[t := Run(e, false, false)] && v.bus.pending == s.bus.pending[t := e]
                else v.bus.runs == s.bus.runs && v.bus.pending == s.bus.pending)
  {
  }

  /** A called-back execution goes, and its permit goes to the waiting dispatcher or back to the pool. */
  lemma DoneExactly(s: Sys, t: nat)
    requires Enabled(s, DoneCallback(t))
    ensures var v := Step(s, DoneCallback(t));
            && v.bus.runs == s.bus.runs - {t} && v.bus.pending == s.bus.pending - {t}
            && v.bus.queue == s.bus.queue && v.bus.stopped == s.bus.stopped
            && v.started == s.started && v.dropped == s.dropped
            && (if s.bus.dispatcher.Waiting?
                then v.bus.dispatcher == Handed(s.bus.dispatcher.event) && v.bus.free == s.bus.free
                else v.bus.dispatcher == s.bus.dispatcher && v.bus.free == s.bus.free + 1)
  {
  }

  /** A stopped platform stays stopped until it is let in again, and stopping one stops no other. */
  lemma StoppedExactly(s: Sys, a: Action, p: string)
    requires Enabled(s, a)
    ensures p in Step(s, a).bus.stopped
            <==> if a.StopBegins? then p == a.platform || p in s.bus.stopped
                 else p in s.bus.stopped && a != Reopens(p)
  {
    hide Others, Own, Held, AskCancel, TasksOf;
    match a
    case TakeEvent(routed, t) => TakesExactly(s, routed, t);
    case ResumeTake(t) => ResumesExactly(s, t);
    case DoneCallback(t) => DoneExactly(s, t);
    case StopBegins(_, q) => assert Step(s, a).bus.stopped == s.bus.stopped + {q};
    case Reopens(q) => assert Step(s, a).bus.stopped == s.bus.stopped - {q};
    case PutEvent(_) =>
    case DispatchCancelled =>
    case TaskEnds(_) =>
    case StopReturns(_) =>
    case ShutdownBegins(_) =>
    case ShutdownReturns(_) =>
  }

  /** Stopping a platform takes its own events out of the queue and no other platform's. */
  lemma {:induction false} DrainsExactly(queue: seq<Event>, p: string)
    ensures forall e :: e in Others(queue, p) <==> e in queue && e.platform != p
    ensures forall e :: e in Own(queue, p) <==> e in queue && e.platform == p
  {
    OthersFacts(queue, p);
    if queue != [] {
      DrainsExactly(queue[1..], p);
      assert forall e :: e in queue <==> e == queue[0] || e in queue[1..];
    }
  }

  /** What happens outside the dispatcher can happen in every state: events arrive while there is room, executions
      end, those that ended are called back, the dispatch task is cancelled, platforms are let in, and stops and
      shutdowns begin and, once their executions are gone, return. */
  lemma OutsideIsFree(s: Sys, e: Event, t: nat, call: nat, p: string)
    ensures Enabled(s, PutEvent(e)) <==> s.queueSize == 0 || |s.bus.queue| < s.queueSize
    ensures Enabled(s, TaskEnds(t)) <==> t in s.bus.runs
    ensures Enabled(s, DoneCallback(t)) <==> t in s.bus.runs && s.bus.runs[t].ended
    ensures Enabled(s, DispatchCancelled) && Enabled(s, Reopens(p))
    ensures Enabled(s, StopBegins(call, p)) <==> call !in s.stops
    ensures Enabled(s, ShutdownBegins(call)) <==> call !in s.shutdowns
    ensures Enabled(s, StopReturns(call))
            <==> call in s.stops && forall x :: x in s.stops[call].tasks ==> x !in s.bus.runs
    ensures Enabled(s, ShutdownReturns(call))
            <==> call in s.shutdowns && forall x :: x in s.shutdowns[call].tasks ==> x !in s.bus.runs
  {
  }

  /** A call that returns waits no more; a shutdown leaves no execution listed. */
  lemma ReturnedIsOver(s: Sys, call: nat)
    ensures Enabled(s, StopReturns(call)) ==>
              && Step(s, StopReturns(call)).stops == s.stops - {call}
              && Step(s, StopReturns(call)).bus == s.bus
    ensures Enabled(s, ShutdownReturns(call)) ==>
              && Step(s, ShutdownReturns(call)).shutdowns == s.shutdowns - {call}
              && Step(s, ShutdownReturns(call)).bus == s.bus.(pending := map[])
  {
  }

  // ---------------------------------------------------------------- no event is stuck

  lemma {:induction false} Above(ids: set<nat>) returns (t: nat)
    ensures forall x :: x in ids ==> x < t
    decreases |ids|
  {
    if ids == {} {
      t := 0;
    } else {
      var x :| x in ids;
      t := Above(ids - {x});
      assert forall y :: y in ids ==> y == x || y in ids - {x};
      if t <= x {
        t := x + 1;
      }
    }
  }

  /** The steps of the dispatcher and of executions that end. */
  predicate Dispatching(a: Action) {
    a.TakeEvent? || a.ResumeTake? || a.TaskEnds? || a.DoneCallback?
  }

  ghost predicate AllDispatching(actions: seq<Action>) {
    forall i :: 0 <= i < |actions| ==> Dispatching(actions[i])
  }

  lemma OneStep(s: Sys, a: Action)
    requires Enabled(s, a)
    ensures Possible(s, [a]) && After(s, [a]) == Step(s, a)
  {
    assert [a][1..] == [];
    assert Possible(Step(s, a), []) && After(Step(s, a), []) == Step(s, a);
  }

  /** What is left of the held event: it is started, if its platform is not stopped. */
  function Wanted(events: seq<Event>, stopped: set<string>): seq<Event> {
    if events == [] then []
    else (if events[0].platform in stopped then [] else [events[0]]) + Wanted(events[1..], stopped)
  }

  ghost predicate Advanced(s: Sys, v: Sys, queue: seq<Event>, started: seq<Event>, limit: nat) {
    && PermitsInv(v, limit) && v.bus.dispatcher == AtQueue && v.bus.queue == queue
    && v.bus.stopped == s.bus.stopped && v.started == s.started + started
  }

  lemma ResumesHeld(s: Sys, limit: nat) returns (actions: seq<Action>)
    requires PermitsInv(s, limit) && s.bus.dispatcher.Handed?
    ensures Possible(s, actions) && AllDispatching(actions)
    ensures Advanced(s, After(s, actions), s.bus.queue, Wanted(Held(s.bus.dispatcher), s.bus.stopped), limit)
  {
    var t := Above(s.bus.runs.Keys);
    ResumesExactly(s, t);
    StepKeepsPermits(s, ResumeTake(t), limit);
    OneStep(s, ResumeTake(t));
    assert Held(s.bus.dispatcher)[1..] == [];
    actions := [ResumeTake(t)];
  }

  /** A dispatcher that waits for a permit gets one when an execution ends, and comes back to the queue. */
  lemma ComesBack(s: Sys, limit: nat) returns (actions: seq<Action>)
    requires PermitsInv(s, limit) && limit > 0 && !s.bus.dispatcher.Cancelled?
    ensures Possible(s, actions) && AllDispatching(actions)
    ensures Advanced(s, After(s, actions), s.bus.queue, Wanted(Held(s.bus.dispatcher), s.bus.stopped), limit)
  {
    match s.bus.dispatcher
    case AtQueue =>
      actions := [];
      assert s.started + [] == s.started;
    case Handed(e) => actions := ResumesHeld(s, limit);
    case Waiting(e) =>
      assert s.bus.runs != map[];
      var t :| t in s.bus.runs;
      StepKeepsPermits(s, TaskEnds(t), limit);
      var v := Step(s, TaskEnds(t));
      DoneExactly(v, t);
      StepKeepsPermits(v, DoneCallback(t), limit);
      var u := Step(v, DoneCallback(t));
      var rest := ResumesHeld(u, limit);
      TwoSteps(s, TaskEnds(t), DoneCallback(t), rest);
      actions := [TaskEnds(t), DoneCallback(t)] + rest;
  }

  /** The dispatcher takes the next event and comes back. */
  lemma TakesNext(s: Sys, limit: nat) returns (actions: seq<Action>)
    requires PermitsInv(s, limit) && limit > 0 && s.bus.dispatcher == AtQueue && s.bus.queue != []
    ensures Possible(s, actions) && AllDispatching(actions)
    ensures Advanced(s, After(s, actions), s.bus.queue[1..], Wanted([s.bus.queue[0]], s.bus.stopped), limit)
  {
    var t := Above(s.bus.runs.Keys);
    TakesExactly(s, true, t);
    StepKeepsPermits(s, TakeEvent(true, t), limit);
    OneStep(s, TakeEvent(true, t));
    var v := Step(s, TakeEvent(true, t));
    var rest := ComesBack(v, limit);
    Chained(s, [TakeEvent(true, t)], rest);
    assert [s.bus.queue[0]][1..] == [];
    actions := [TakeEvent(true, t)] + rest;
  }

  lemma {:induction false} TakesAll(s: Sys, limit: nat, n: nat) returns (actions: seq<Action>)
    requires PermitsInv(s, limit) && limit > 0 && s.bus.dispatcher == AtQueue && n <= |s.bus.queue|
    ensures Possible(s, actions) && AllDispatching(actions)
    ensures Advanced(s, After(s, actions), s.bus.queue[n..], Wanted(s.bus.queue[..n], s.bus.stopped), limit)
    decreases n
  {
    hide PermitsInv, Step, Enabled;
    if n == 0 {
      actions := [];
      assert s.started + [] == s.started && s.bus.queue[0..] == s.bus.queue;
    } else {
      var first := TakesNext(s, limit);
      var v := After(s, first);
      var rest := TakesAll(v, limit, n - 1);
      Chained(s, first, rest);
      var (q, stopped) := (s.bus.queue, s.bus.stopped);
      assert q[1..][n - 1..] == q[n..];
      assert q[..n][0] == q[0] && q[..n][1..] == q[1..][..n - 1];
      assert [q[0]][1..] == [];
      assert Wanted(q[..n], stopped) == Wanted([q[0]], stopped) + Wanted(q[1..][..n - 1], stopped);
      actions := first + rest;
    }
  }

  /** In every reachable state with a living dispatcher, executions that end let all queued events be taken: those
      whose platform is not stopped are started, in the order of the queue, after the one the dispatcher holds. */
  lemma EveryEventCanStart(queueSize: nat, maxConcurrency: int, before: seq<Action>) returns (actions: seq<Action>)
    requires Possible(Initial(queueSize, maxConcurrency), before)
    requires !After(Initial(queueSize, maxConcurrency), before).bus.dispatcher.Cancelled?
    ensures var s := After(Initial(queueSize, maxConcurrency), before);
            && Possible(s, actions) && AllDispatching(actions)
            && After(s, actions).bus.queue == []
            && After(s, actions).started
               == s.started + Wanted(Held(s.bus.dispatcher), s.bus.stopped) + Wanted(s.bus.queue, s.bus.stopped)
  {
    var limit := Permits(maxConcurrency);
    PermitsAreConserved(Initial(queueSize, maxConcurrency), before, limit);
    var s := After(Initial(queueSize, maxConcurrency), before);
    var first := ComesBack(s, limit);
    var v := After(s, first);
    var n := |v.bus.queue|;
    var rest := TakesAll(v, limit, n);
    assert v.bus.queue[..n] == v.bus.queue;
    Chained(s, first, rest);
    actions := first + rest;
  }
}
