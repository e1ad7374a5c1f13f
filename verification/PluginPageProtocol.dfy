/** Every interleaving of host messages, timers, page calls and disposal. */
module PluginPageProtocol {
  import opened NoRepeats
  import opened Options
  import opened PluginPages

  datatype Action =
    | Connects(replaced: bool)
    | HostSays(message: Message)
    | PageRequests(call: Call)
    | TimerFires(id: string)
    | PageDisposes

  predicate Enabled(p: Page, a: Action) {
    match a
    case PageRequests(c) => c.id !in p.promises
    case TimerFires(id) => id in p.timers
    case _ => true
  }

  function Step(p: Page, a: Action): Page
    requires Enabled(p, a)
  {
    match a
    case Connects(replaced) => if replaced then p.(port := true) else Closed(p)
    case HostSays(m) => Handled(p, m)
    case PageRequests(c) => Requested(p, c)
    case TimerFires(id) => TimedOut(p, id)
    case PageDisposes => Closed(p)
  }

  /** A pending request has not been settled and its timer runs; every other request was settled once. */
  ghost predicate SettledOnce(pending: seq<string>, timers: set<string>, promises: map<string, seq<Outcome>>) {
    && NoRepeat(pending)
    && (forall id :: id in pending <==> id in timers)
    && (forall id | id in pending :: id in promises)
    && (forall id | id in promises :: |promises[id]| == if id in pending then 0 else 1)
  }

  ghost predicate Inv(p: Page) {
    && SettledOnce(p.pending, p.timers, p.promises)
    && |p.pending| <= MAX_PENDING
    && (p.disposed ==> p.pending == [])
  }

  lemma {:induction false} WithoutFacts(ids: seq<string>, id: string)
    requires NoRepeat(ids)
    ensures NoRepeat(Without(ids, id)) && |Without(ids, id)| <= |ids|
    ensures forall x :: x in Without(ids, id) <==> x in ids && x != id
  {
    if ids != [] {
      WithoutFacts(ids[1..], id);
      assert ids == [ids[0]] + ids[1..];
      if ids[0] != id {
        assert Without(ids, id)[1..] == Without(ids[1..], id);
      }
    }
  }

  lemma SettleKeepsInv(p: Page, id: string, o: Outcome)
    requires Inv(p) && id in p.pending
    ensures Inv(Settle(p, id, o))
  {
    WithoutFacts(p.pending, id);
  }

  lemma {:induction false} RejectAllSettles(p: Page, o: Outcome)
    requires SettledOnce(p.pending, p.timers, p.promises)
    ensures var q := RejectAll(p, o);
            && q.pending == [] && SettledOnce(q.pending, q.timers, q.promises)
            && q.promises.Keys == p.promises.Keys
            && q == p.(pending := q.pending, timers := q.timers, promises := q.promises)
            && forall id | id in p.promises :: q.promises[id] == if id in p.pending then [o] else p.promises[id]
    decreases |p.pending|
  {
    if p.pending != [] {
      var id := p.pending[0];
      WithoutFirst(p.pending);
      WithoutFacts(p.pending, id);
      RejectAllSettles(Settle(p, id, o), o);
    }
  }

  lemma ClosedKeepsInv(p: Page)
    requires Inv(p)
    ensures Inv(Closed(p)) && Closed(p).disposed && Closed(p).generation == p.generation
  {
    if !p.disposed {
      RejectAllSettles(p.(disposed := true), DISPOSED);
    }
  }

  lemma {:induction false} AppendKeepsNoRepeat(ids: seq<string>, id: string)
    requires NoRepeat(ids) && id !in ids
    ensures NoRepeat(ids + [id])
  {
    if ids != [] {
      assert (ids + [id])[1..] == ids[1..] + [id];
      AppendKeepsNoRepeat(ids[1..], id);
    }
  }

  lemma RequestedKeepsInv(p: Page, c: Call)
    requires Inv(p) && c.id !in p.promises
    ensures Inv(Requested(p, c))
  {
    assert c.id !in p.pending;
    AppendKeepsNoRepeat(p.pending, c.id);
    if !p.disposed && p.port && p.generation.Some? && c.isString && |p.pending| < MAX_PENDING && c.small {
      var q := p.(timers := p.timers + {c.id}, pending := p.pending + [c.id], promises := p.promises[c.id := []]);
      assert Inv(q);
      SettleKeepsInv(q, c.id, Rejected("internal"));
    }
  }

  lemma HandledKeepsInv(p: Page, m: Message)
    requires Inv(p)
    ensures Inv(Handled(p, m))
  {
    hide SettledOnce;
    var q := p.(generation := Pinned(p, m));
    ClosedKeepsInv(q);
    forall id: string, o | id in q.pending ensures Inv(Settle(q, id, o)) {
      SettleKeepsInv(q, id, o);
    }
  }

  lemma StepKeepsInv(p: Page, a: Action)
    requires Inv(p) && Enabled(p, a)
    ensures Inv(Step(p, a))
  {
    match a
    case Connects(replaced) => ClosedKeepsInv(p);
    case HostSays(m) => HandledKeepsInv(p, m);
    case PageRequests(c) => RequestedKeepsInv(p, c);
    case TimerFires(id) => SettleKeepsInv(p, id, Rejected("timeout"));
    case PageDisposes => ClosedKeepsInv(p);
  }

  ghost predicate Possible(p: Page, actions: seq<Action>)
    decreases |actions|
  {
    actions == [] || (Enabled(p, actions[0]) && Possible(Step(p, actions[0]), actions[1..]))
  }

  function After(p: Page, actions: seq<Action>): Page
    requires Possible(p, actions)
    decreases |actions|
  {
    if actions == [] then p else After(Step(p, actions[0]), actions[1..])
  }

  const FIRST := Page(None, false, None, false, None, [], {}, map[])

  lemma {:induction false} RunKeepsInv(p: Page, actions: seq<Action>)
    requires Inv(p) && Possible(p, actions)
    ensures Inv(After(p, actions))
    decreases |actions|
  {
    hide Inv, Step, Enabled;
    if actions != [] {
      StepKeepsInv(p, actions[0]);
      RunKeepsInv(Step(p, actions[0]), actions[1..]);
    }
  }

  /** In every reachable state at most 64 requests are pending, each request was settled once or is pending with its
      timer running, and once the page is closed every request ever made is settled. */
  lemma EveryRequestSettlesOnce(actions: seq<Action>)
    requires Possible(FIRST, actions)
    ensures var p := After(FIRST, actions);
            && |p.pending| <= MAX_PENDING
            && (forall id | id in p.promises :: |p.promises[id]| == if id in p.pending then 0 else 1)
            && (forall id :: id in p.pending <==> id in p.timers)
            && (p.disposed ==> forall id | id in p.promises :: |p.promises[id]| == 1)
  {
    RunKeepsInv(FIRST, actions);
  }

  /** What a step may do to what has been decided: nothing. */
  ghost predicate Keeps(p: Page, q: Page) {
    && (p.generation.Some? ==> q.generation == p.generation)
    && (p.disposed ==> q.disposed)
    && (p.ready.Some? ==> q.ready == p.ready)
    && (forall id | id in p.promises && |p.promises[id]| == 1 :: id in q.promises && q.promises[id] == p.promises[id])
  }

  lemma ClosedKeeps(p: Page)
    requires Inv(p)
    ensures Keeps(p, Closed(p))
  {
    if !p.disposed {
      RejectAllSettles(p.(disposed := true), DISPOSED);
    }
  }

  lemma HandledKeeps(p: Page, m: Message)
    requires Inv(p)
    ensures Keeps(p, Handled(p, m))
  {
    hide Closed;
    ClosedKeeps(p.(generation := Pinned(p, m)));
  }

  lemma RequestedKeeps(p: Page, c: Call)
    requires Inv(p) && c.id !in p.promises
    ensures Keeps(p, Requested(p, c))
  {
  }

  lemma StepKeeps(p: Page, a: Action)
    requires Inv(p) && Enabled(p, a)
    ensures Keeps(p, Step(p, a))
  {
    hide Closed, Handled, Requested;
    match a
    case Connects(_) => ClosedKeeps(p);
    case HostSays(m) => HandledKeeps(p, m);
    case PageRequests(c) => RequestedKeeps(p, c);
    case TimerFires(_) =>
    case PageDisposes => ClosedKeeps(p);
  }

  /** The pinned generation, the disposal, the ready promise and each settled request stay as they are for ever. */
  lemma {:induction false} DecisionsAreFinal(p: Page, actions: seq<Action>)
    requires Inv(p) && Possible(p, actions)
    ensures Keeps(p, After(p, actions))
    decreases |actions|
  {
    if actions != [] {
      StepKeepsInv(p, actions[0]);
      StepKeeps(p, actions[0]);
      hide Inv, Step, Enabled;
      DecisionsAreFinal(Step(p, actions[0]), actions[1..]);
    }
  }

  /** A good response settles the request it names, with its data, and touches no other. */
  lemma ResponseSettlesItsRequest(p: Page, id: string, g: string, data: string)
    requires Inv(p) && id in p.pending && p.generation == Some(g)
    ensures var q := Handled(p, Message(true, Text(g), true, ResponseBody(true, Some(id), true, data)));
            && q.promises == p.promises[id := [Resolved(data)]]
            && (forall x :: x in q.pending <==> x in p.pending && x != id)
            && q.disposed == p.disposed
  {
    WithoutFacts(p.pending, id);
    assert p.promises[id] == [] && p.promises[id] + [Resolved(data)] == [Resolved(data)];
  }

  /** Closing rejects exactly the pending requests. */
  lemma CloseRejectsPending(p: Page)
    requires Inv(p) && !p.disposed
    ensures Closed(p).pending == [] && Closed(p).timers == {}
    ensures forall id | id in p.promises ::
              id in Closed(p).promises
              && Closed(p).promises[id] == if id in p.pending then [DISPOSED] else p.promises[id]
  {
    RejectAllSettles(p.(disposed := true), DISPOSED);
  }

  /** A context message with a null generation, sent before any generation is pinned, makes the page ready without
      pinning one; a context message with a generation text always pins it first. */
  lemma ReadyWithoutGenerationIff(p: Page, m: Message)
    requires p.generation.None? && p.ready.None? && !p.disposed
    ensures var q := Handled(p, m);
            q.ready.Some? && q.ready.value.Resolved? && q.generation.None?
            <==> m.common && m.small && m.gen.NullGeneration? && m.body.ContextBody? && m.body.exact && m.body.context.Some?
  {
    var q := p.(generation := Pinned(p, m));
    ReadyAfterClose(q);
  }

  lemma ReadyAfterClose(p: Page)
    requires p.ready.None? && !p.disposed
    ensures Closed(p).ready == Some(DISPOSED)
  {
    RejectAllKeepsReady(p.(disposed := true), DISPOSED);
  }

  lemma {:induction false} RejectAllKeepsReady(p: Page, o: Outcome)
    ensures RejectAll(p, o).ready == p.ready
    decreases |p.pending|
  {
    if p.pending != [] {
      WithoutFirst(p.pending);
      RejectAllKeepsReady(Settle(p, p.pending[0], o), o);
    }
  }
}
