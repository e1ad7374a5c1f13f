/** What each host message, timer and page call does to the requests of the page. */
module PluginPageReplies {
  import opened Options
  import opened NoRepeats
  import opened PluginPages
  import opened PluginPageProtocol

  /** The message is a context message that a page without a generation takes its generation from. */
  predicate Introduces(m: Message) {
    && m.common && m.body.ContextBody? && m.body.exact && m.body.context.Some?
    && m.gen.Text? && m.gen.s != ""
  }

  /** The message carries the page's generation: the pinned one, or none while none is pinned. */
  predicate Belongs(p: Page, m: Message) {
    match p.generation
    case Some(g) => m.gen == Text(g)
    case None => m.gen.NullGeneration? || Introduces(m)
  }

  predicate WellFormed(b: Body) {
    match b
    case ContextBody(exact, context) => exact && context.Some?
    case ResponseBody(wellFormed, id, _, _) => wellFormed && id.Some?
    case CancelledBody(exact, _) => exact
    case DisposedBody(exact) => exact
    case DisposeBody(_) => false
    case UnknownBody => false
  }

  lemma ClosingCloses(p: Page)
    ensures Closed(p).disposed
  {
    if !p.disposed {
      RejectAllKeepsFields(p.(disposed := true), DISPOSED);
    }
  }

  lemma {:induction false} RejectAllKeepsFields(p: Page, o: Outcome)
    ensures var q := RejectAll(p, o);
            && q.disposed == p.disposed && q.generation == p.generation && q.port == p.port
            && q.context == p.context && q.ready == p.ready
    decreases |p.pending|
  {
    if p.pending != [] {
      WithoutFirst(p.pending);
      RejectAllKeepsFields(Settle(p, p.pending[0], o), o);
    }
  }

  /** A message closes the page if and only if it is not the page's, too large, malformed, or a disposal. */
  lemma ClosesIff(p: Page, m: Message)
    requires !p.disposed
    ensures Handled(p, m).disposed <==> !(m.common && Belongs(p, m) && m.small && WellFormed(m.body))
  {
    ClosingCloses(p.(generation := Pinned(p, m)));
  }

  /** The generation is pinned by the first message that introduces one, and by nothing else. */
  lemma PinsIff(p: Page, m: Message)
    ensures Handled(p, m).generation
            == if p.generation.None? && Introduces(m) then Some(m.gen.s) else p.generation
  {
    RejectAllKeepsFields(p.(generation := Pinned(p, m), disposed := true), DISPOSED);
  }

  /** What a message says about a request, if it answers one. */
  function AnswerOf(b: Body): Option<(string, Outcome)> {
    match b
    case ResponseBody(_, Some(id), true, data) => Some((id, Resolved(data)))
    case ResponseBody(_, Some(id), false, code) => Some((id, Rejected(code)))
    case CancelledBody(_, Some(id)) => Some((id, Rejected("cancelled")))
    case _ => None
  }

  /** A message that does not close the page settles exactly the pending request it answers, with that answer, and
      no other request; a context message readies the page and becomes its context. */
  lemma AnswersExactly(p: Page, m: Message)
    requires Inv(p) && !p.disposed && !Handled(p, m).disposed
    ensures var q := Handled(p, m);
            && (match AnswerOf(m.body)
                case Some((id, o)) =>
                  if id in p.pending
                  then && q.promises == p.promises[id := [o]] && q.timers == p.timers - {id}
                       && (forall x :: x in q.pending <==> x in p.pending && x != id)
                  else q.promises == p.promises && q.timers == p.timers && q.pending == p.pending
                case None => q.promises == p.promises && q.timers == p.timers && q.pending == p.pending)
            && (if m.body.ContextBody?
                then m.body.context.Some? && q.context == m.body.context
                     && q.ready == (if p.ready.Some? then p.ready else Some(Resolved(m.body.context.value)))
                else q.context == p.context && q.ready == p.ready)
            && q.port == p.port
  {
    ClosesIff(p, m);
    match AnswerOf(m.body)
    case None =>
    case Some((id, o)) =>
      if id in p.pending {
        WithoutFacts(p.pending, id);
        assert p.promises[id] == [] && p.promises[id] + [o] == [o];
      }
  }

  /** A message that closes the page rejects what was pending and the ready promise, if that was open, as disposed. */
  lemma ClosingRejects(p: Page, m: Message)
    requires Inv(p) && !p.disposed && Handled(p, m).disposed
    ensures var q := Handled(p, m);
            && q.pending == [] && q.timers == {} && !q.port
            && q.ready == (if p.ready.Some? then p.ready else Some(DISPOSED))
            && q.promises.Keys == p.promises.Keys
            && forall id | id in p.promises :: q.promises[id] == if id in p.pending then [DISPOSED] else p.promises[id]
  {
    var r := p.(generation := Pinned(p, m));
    ClosesIff(p, m);
    RejectAllSettles(r.(disposed := true), DISPOSED);
    RejectAllKeepsFields(r.(disposed := true), DISPOSED);
  }

  /** Why a request is turned away, if it is: the first reason counts. */
  function Refusal(p: Page, c: Call): Option<string> {
    if p.disposed || !p.port || p.generation.None? then Some("not_ready")
    else if !c.isString || |p.pending| >= 64 then Some("request_rejected")
    else if !c.small then Some("message_too_large")
    else if !c.sent then Some("internal")
    else None
  }

  /** A request stays pending, with its timer running, if and only if there is no reason against it; otherwise it is
      rejected at once with the first reason. Nothing else changes. */
  lemma RequestedExactly(p: Page, c: Call)
    requires Inv(p) && c.id !in p.promises
    ensures var q := Requested(p, c);
            && q.promises == p.promises[c.id := match Refusal(p, c)
                                                case None => []
                                                case Some(code) => [Rejected(code)]]
            && (forall x :: x in q.pending <==> x in p.pending || (x == c.id && Refusal(p, c).None?))
            && (forall x :: x in q.timers <==> x in p.timers || (x == c.id && Refusal(p, c).None?))
            && q == p.(pending := q.pending, timers := q.timers, promises := q.promises)
  {
    assert c.id !in p.pending;
    AppendKeepsNoRepeat(p.pending, c.id);
    WithoutFacts(p.pending + [c.id], c.id);
    var internal := Rejected("internal");
    assert [] + [internal] == [internal];
    assert p.promises[c.id := []][c.id := [internal]] == p.promises[c.id := [internal]];
    assert p.timers + {c.id} - {c.id} == p.timers - {c.id};
  }

  /** A timer rejects its request as timed out and touches no other. */
  lemma TimerRejects(p: Page, id: string)
    requires Inv(p) && id in p.timers
    ensures var q := Step(p, TimerFires(id));
            && q.promises == p.promises[id := [Rejected("timeout")]] && q.timers == p.timers - {id}
            && (forall x :: x in q.pending <==> x in p.pending && x != id)
            && q == p.(pending := q.pending, timers := q.timers, promises := q.promises)
  {
    WithoutFacts(p.pending, id);
    assert p.promises[id] == [] && p.promises[id] + [Rejected("timeout")] == [Rejected("timeout")];
    assert p.timers - {id} - {id} == p.timers - {id};
  }

  /** Connecting opens the port; a page that cannot hide its address is closed instead. */
  lemma ConnectsOrCloses(p: Page, replaced: bool)
    requires !p.disposed
    ensures var q := Step(p, Connects(replaced));
            && (q.port <==> replaced) && (q.disposed <==> !replaced)
            && (replaced ==> q == p.(port := true))
  {
    ClosingCloses(p);
    RejectAllKeepsFields(p.(disposed := true), DISPOSED);
  }
}
