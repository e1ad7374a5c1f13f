/** The plugin-page side of the dashboard's message protocol. */
module PluginPages {
  import opened Options

  const MAX_PENDING := 64

  datatype Outcome = Resolved(data: string) | Rejected(code: string)

  /** The `plugin_generation` of a host message; `Absent` also stands for values of another type. */
  datatype Generation = Absent | NullGeneration | Text(s: string)

  /** The kinds of host message with what the shape checks found: exact keys, and valid parts where they are
      looked at. A response's id is `None` unless it is a string. */
  datatype Body =
    | ContextBody(exact: bool, context: Option<string>)
    | ResponseBody(wellFormed: bool, requestId: Option<string>, ok: bool, content: string)
    | CancelledBody(exact: bool, cancelledId: Option<string>)
    | DisposeBody(accepted: bool)
    | DisposedBody(exact: bool)
    | UnknownBody

  /** `common` holds if version and instance are right, `small` if the message is within the size limit. */
  datatype Message = Message(common: bool, gen: Generation, small: bool, body: Body)

  /** The module's variables. `promises` maps each request ever made to the calls made on its `resolve` and
      `reject`; `pending` lists the request ids of the pending map in insertion order. */
  datatype Page = Page(generation: Option<string>, port: bool, context: Option<string>, disposed: bool,
                       ready: Option<Outcome>, pending: seq<string>, timers: set<string>,
                       promises: map<string, seq<Outcome>>)

  function Without(ids: seq<string>, id: string): seq<string> {
    if ids == [] then []
    else if ids[0] == id then ids[1..]
    else [ids[0]] + Without(ids[1..], id)
  }

  /** `pending.delete`, `clearTimeout`, and one call of `resolve` or `reject`. */
  function Settle(p: Page, id: string, o: Outcome): Page {
    p.(pending := Without(p.pending, id), timers := p.timers - {id},
       promises := if id in p.promises then p.promises[id := p.promises[id] + [o]] else p.promises)
  }

  function RejectAll(p: Page, o: Outcome): Page
    decreases |p.pending|
  {
    if p.pending == [] then p
    else
      WithoutFirst(p.pending);
      RejectAll(Settle(p, p.pending[0], o), o)
  }

  lemma WithoutFirst(ids: seq<string>)
    requires ids != []
    ensures Without(ids, ids[0]) == ids[1..]
  {
  }

  /** A promise keeps its first outcome. */
  function First(settled: Option<Outcome>, o: Outcome): Option<Outcome> {
    if settled.Some? then settled else Some(o)
  }

  const DISPOSED := Rejected("disposed")

  function Closed(p: Page): Page {
    if p.disposed then p
    else
      var q := RejectAll(p.(disposed := true), DISPOSED);
      q.(ready := First(q.ready, DISPOSED), port := false)
  }

  /** The first valid context message pins the generation. */
  function Pinned(p: Page, m: Message): Option<string> {
    if p.generation.None? && m.common && m.body.ContextBody? && m.body.exact && m.body.context.Some?
       && m.gen.Text? && m.gen.s != ""
    then Some(m.gen.s) else p.generation
  }

  predicate SameGeneration(g: Generation, generation: Option<string>) {
    match generation
    case None => g.NullGeneration?
    case Some(s) => g == Text(s)
  }

  function Answered(p: Page, id: Option<string>, o: Outcome): Page {
    if id.Some? && id.value in p.pending then Settle(p, id.value, o) else p
  }

  function Handled(p: Page, m: Message): Page {
    var q := p.(generation := Pinned(p, m));
    if !m.common || !SameGeneration(m.gen, q.generation) || !m.small then Closed(q)
    else
      match m.body
      case ContextBody(exact, context) =>
        if !exact || context.None? then Closed(q)
        else q.(context := context, ready := First(q.ready, Resolved(context.value)))
      case ResponseBody(wellFormed, id, ok, content) =>
        if !wellFormed || id.None? then Closed(q)
        else Answered(q, id, if ok then Resolved(content) else Rejected(content))
      case CancelledBody(exact, id) =>
        if !exact then Closed(q) else Answered(q, id, Rejected("cancelled"))
      case DisposeBody(_) => Closed(q)
      case DisposedBody(exact) => if exact then q else Closed(q)
      case UnknownBody => Closed(q)
  }

  /** A page's request: `isString` is the check on the action id, `small` the size check, `sent` whether posting
      the message succeeds. */
  datatype Call = Call(id: string, isString: bool, small: bool, sent: bool)

  function Requested(p: Page, c: Call): Page {
    if p.disposed || !p.port || p.generation.None? then p.(promises := p.promises[c.id := [Rejected("not_ready")]])
    else if !c.isString || |p.pending| >= MAX_PENDING then p.(promises := p.promises[c.id := [Rejected("request_rejected")]])
    else if !c.small then p.(promises := p.promises[c.id := [Rejected("message_too_large")]])
    else
      var q := p.(timers := p.timers + {c.id}, pending := p.pending + [c.id], promises := p.promises[c.id := []]);
      if c.sent then q else Settle(q, c.id, Rejected("internal"))
  }

  /** A timer goes off: nothing happens unless its request is still pending. */
  function TimedOut(p: Page, id: string): Page {
    var q := p.(timers := p.timers - {id});
    if id in p.pending then Settle(q, id, Rejected("timeout")) else q
  }

  class PluginPage {
    var generation: Option<string>
    var port: bool
    var context: Option<string>
    var disposed: bool
    var ready: Option<Outcome>
    var pending: seq<string>
    var timers: set<string>
    var promises: map<string, seq<Outcome>>

    function View(): Page
      reads this
    {
      Page(generation, port, context, disposed, ready, pending, timers, promises)
    }

    constructor ()
      ensures View() == Page(None, false, None, false, None, [], {}, map[])
    {
      generation, port, context, disposed, ready := None, false, None, false, None;
      pending, timers, promises := [], {}, map[];
    }

    method CallBack(id: string, o: Outcome)
      modifies this`promises
      ensures promises == if id in old(promises) then old(promises)[id := old(promises)[id] + [o]] else old(promises)
    {
      if id in promises {
        promises := promises[id := promises[id] + [o]];
      }
    }

    method RejectAllPending(o: Outcome)
      modifies this`pending, this`timers, this`promises
      ensures View() == RejectAll(old(View()), o)
    {
      while pending != []
        invariant RejectAll(View(), o) == RejectAll(old(View()), o)
        decreases |pending|
      {
        var requestId := pending[0];
        WithoutFirst(pending);
        timers := timers - {requestId};
        CallBack(requestId, o);
        pending := pending[1..];
      }
    }

    method Close()
      modifies this
      ensures View() == Closed(old(View()))
    {
      if disposed {
        return;
      }
      disposed := true;
      RejectAllPending(DISPOSED);
      ready := First(ready, DISPOSED);
      port := false;
    }

    method Answer(id: Option<string>, o: Outcome)
      modifies this`pending, this`timers, this`promises
      ensures View() == Answered(old(View()), id, o)
    {
      if id.None? || id.value !in pending {
        return;
      }
      pending := Without(pending, id.value);
      timers := timers - {id.value};
      CallBack(id.value, o);
    }

    method HandlePortMessage(m: Message)
      modifies this
      ensures View() == Handled(old(View()), m)
    {
      generation := Pinned(View(), m);
      if !m.common || !SameGeneration(m.gen, generation) || !m.small {
        Close();
        return;
      }
      match m.body {
        case ContextBody(exact, newContext) =>
          if !exact || newContext.None? {
            Close();
          } else {
            context := newContext;
            ready := First(ready, Resolved(newContext.value));
          }
        case ResponseBody(wellFormed, id, ok, content) =>
          if !wellFormed || id.None? {
            Close();
          } else {
            Answer(id, if ok then Resolved(content) else Rejected(content));
          }
        case CancelledBody(exact, id) =>
          if exact {
            Answer(id, Rejected("cancelled"));
          } else {
            Close();
          }
        case DisposeBody(_) =>
          Close();
        case DisposedBody(exact) =>
          if !exact {
            Close();
          }
        case UnknownBody =>
          Close();
      }
    }

    method Request(c: Call)
      modifies this
      ensures View() == Requested(old(View()), c)
    {
      if disposed || !port || generation.None? {
        promises := promises[c.id := [Rejected("not_ready")]];
        return;
      }
      if !c.isString || |pending| >= MAX_PENDING {
        promises := promises[c.id := [Rejected("request_rejected")]];
        return;
      }
      if !c.small {
        promises := promises[c.id := [Rejected("message_too_large")]];
        return;
      }
      promises := promises[c.id := []];
      timers := timers + {c.id};
      pending := pending + [c.id];
      if !c.sent {
        pending := Without(pending, c.id);
        timers := timers - {c.id};
        CallBack(c.id, Rejected("internal"));
      }
    }

    method Timeout(id: string)
      modifies this
      ensures View() == TimedOut(old(View()), id)
    {
      timers := timers - {id};
      if id in pending {
        pending := Without(pending, id);
        CallBack(id, Rejected("timeout"));
      }
    }
  }
}
