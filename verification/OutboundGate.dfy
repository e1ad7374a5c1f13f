/** The group outbound gate's own tables: who holds a UMO's outbound lock, and how deeply nested. */
module OutboundGate {
  import opened Options

  type TaskId = nat
  type Umo = string
  type EventId = nat

  /** `turnCms[e]` says whether the turn keeps a lock handle or only nests in its task's own hold.
      A missing depth counts as zero, but reading one inserts it. */
  datatype GateState = GateState(
    turnCms: map<EventId, bool>,
    turnUmos: map<EventId, Umo>,
    pending: set<EventId>,
    depth: map<(TaskId, Umo), int>)

  datatype Reservation = AlreadyHeld | Nested | MustWait

  function DepthOf(g: GateState, t: TaskId, u: Umo): int {
    if (t, u) in g.depth then g.depth[(t, u)] else 0
  }

  function WithDepth(g: GateState, t: TaskId, u: Umo, d: int): GateState {
    g.(depth := g.depth[(t, u) := d])
  }

  predicate HasTurnHolder(g: GateState, u: Umo) {
    u in g.turnUmos.Values
  }

  /** `hold_turn` up to the wait for the lock. */
  function Reserve(g: GateState, t: TaskId, u: Umo, e: EventId): (GateState, Reservation) {
    if e in g.turnCms || e in g.pending then (g, AlreadyHeld)
    else
      var d := DepthOf(g, t, u);
      if d != 0 then
        (WithDepth(g, t, u, d + 1).(turnCms := g.turnCms[e := false], turnUmos := g.turnUmos[e := u]), Nested)
      else
        (WithDepth(g, t, u, 0).(pending := g.pending + {e}), MustWait)
  }

  /** `hold_turn` when the wait raises. */
  function Abandon(g: GateState, e: EventId): GateState {
    g.(pending := g.pending - {e})
  }

  /** `hold_turn` once the lock is acquired. */
  function Register(g: GateState, t: TaskId, u: Umo, e: EventId): GateState {
    GateState(g.turnCms[e := true], g.turnUmos[e := u], g.pending - {e}, g.depth[(t, u) := 1])
  }

  /** `release_turn`: the new tables and the UMO whose lock is to be released, if any. */
  function ReleaseTurn(g: GateState, t: TaskId, e: EventId): (GateState, Option<Umo>) {
    var popped := g.(turnUmos := g.turnUmos - {e}, turnCms := g.turnCms - {e});
    if e !in g.turnUmos then (popped, None)
    else
      var u := g.turnUmos[e];
      var d := DepthOf(g, t, u);
      if d > 1 then (WithDepth(popped, t, u, d - 1), None)
      else (popped.(depth := g.depth - {(t, u)}), if e in g.turnCms && g.turnCms[e] then Some(u) else None)
  }

  /** `around_send` on entry: the new tables, and whether this task already holds the UMO. */
  function EnterSend(g: GateState, t: TaskId, u: Umo): (GateState, bool) {
    var d := DepthOf(g, t, u);
    if d != 0 then (WithDepth(g, t, u, d + 1), true) else (WithDepth(g, t, u, 0), false)
  }

  function SendAcquired(g: GateState, t: TaskId, u: Umo): GateState {
    WithDepth(g, t, u, DepthOf(g, t, u) + 1)
  }

  function LeaveSend(g: GateState, t: TaskId, u: Umo): GateState {
    var d := DepthOf(g, t, u) - 1;
    if d <= 0 then g.(depth := g.depth - {(t, u)}) else WithDepth(g, t, u, d)
  }

  class GroupOutboundGate {
    var turnCms: map<EventId, bool>
    var turnUmos: map<EventId, Umo>
    var pending: set<EventId>
    var depth: map<(TaskId, Umo), int>

    ghost function Tables(): GateState
      reads this
    {
      GateState(turnCms, turnUmos, pending, depth)
    }

    constructor ()
      ensures Tables() == GateState(map[], map[], {}, map[])
    {
      turnCms, turnUmos, pending, depth := map[], map[], {}, map[];
    }

    /** Reading the default dictionary stores the zero it answers with. */
    method ReadDepth(t: TaskId, u: Umo) returns (d: int)
      modifies this`depth
      ensures d == DepthOf(old(Tables()), t, u)
      ensures Tables() == WithDepth(old(Tables()), t, u, d)
    {
      if (t, u) !in depth {
        depth := depth[(t, u) := 0];
      }
      d := depth[(t, u)];
    }

    method HoldTurn(t: TaskId, u: Umo, e: EventId) returns (r: Reservation)
      modifies this
      ensures (Tables(), r) == Reserve(old(Tables()), t, u, e)
    {
      if e in turnCms || e in pending {
        return AlreadyHeld;
      }
      var d := ReadDepth(t, u);
      if d != 0 {
        depth := depth[(t, u) := d + 1];
        assert depth == old(depth)[(t, u) := d + 1];
        turnCms := turnCms[e := false];
        turnUmos := turnUmos[e := u];
        return Nested;
      }
      pending := pending + {e};
      return MustWait;
    }

    method HoldFailed(e: EventId)
      modifies this`pending
      ensures Tables() == Abandon(old(Tables()), e)
    {
      pending := pending - {e};
    }

    method HoldAcquired(t: TaskId, u: Umo, e: EventId)
      modifies this
      ensures Tables() == Register(old(Tables()), t, u, e)
    {
      pending := pending - {e};
      turnCms := turnCms[e := true];
      turnUmos := turnUmos[e := u];
      depth := depth[(t, u) := 1];
    }

    method Release(t: TaskId, e: EventId) returns (unlock: Option<Umo>)
      modifies this
      ensures (Tables(), unlock) == ReleaseTurn(old(Tables()), t, e)
    {
      var umo := if e in turnUmos then Some(turnUmos[e]) else None;
      var handle := e in turnCms && turnCms[e];
      turnUmos := turnUmos - {e};
      turnCms := turnCms - {e};
      if umo.None? {
        return None;
      }
      var d := if (t, umo.value) in depth then depth[(t, umo.value)] else 0;
      if d > 1 {
        depth := depth[(t, umo.value) := d - 1];
        return None;
      }
      depth := depth - {(t, umo.value)};
      return if handle then umo else None;
    }

    method SendEntered(t: TaskId, u: Umo) returns (nested: bool)
      modifies this`depth
      ensures (Tables(), nested) == EnterSend(old(Tables()), t, u)
    {
      var d := ReadDepth(t, u);
      nested := d != 0;
      if nested {
        depth := depth[(t, u) := d + 1];
        assert depth == old(depth)[(t, u) := d + 1];
      }
    }

    method SendGotLock(t: TaskId, u: Umo)
      modifies this`depth
      ensures Tables() == SendAcquired(old(Tables()), t, u)
    {
      var d := ReadDepth(t, u);
      depth := depth[(t, u) := d + 1];
    }

    method SendLeft(t: TaskId, u: Umo)
      modifies this`depth
      ensures Tables() == LeaveSend(old(Tables()), t, u)
    {
      var d := ReadDepth(t, u);
      depth := depth[(t, u) := d - 1];
      if depth[(t, u)] <= 0 {
        depth := depth - {(t, u)};
      }
    }
  }

  /** Why `serialize_group_outbound` holds the bound turn first: a task that enters `around_send` on its turn's
      own UMO before the turn's first hold leaves the turn recorded as holder without any lock handle, so the
      send's exit frees the lock while the turn still counts as held. */
  lemma SendBeforeHoldLosesTheLock(g: GateState, t: TaskId, u: Umo, e: EventId)
    requires DepthOf(g, t, u) == 0 && e !in g.turnCms && e !in g.pending
    ensures var (entered, nested) := EnterSend(g, t, u);
            var (held, r) := Reserve(SendAcquired(entered, t, u), t, u, e);
            var left := LeaveSend(held, t, u);
            && !nested && r == Nested
            && HasTurnHolder(left, u) && DepthOf(left, t, u) == 1
            && ReleaseTurn(left, t, e).1 == None
  {
    var held := Reserve(SendAcquired(EnterSend(g, t, u).0, t, u), t, u, e).0;
    assert held.turnUmos[e] == u;
  }
}
