/** Each step of the outbound gate keeps the invariant. */
module OutboundSteps {
  import opened Options
  import opened OutboundGate
  import opened OutboundProtocol
  import opened OutboundInvariant

  // ---------------------------------------------------------------- frames and loose holds

  lemma {:induction false} UnheldTurnIsInnermost(stack: seq<Frame>)
    requires FramesOk(stack) && !Settled(stack)
    ensures stack != [] && Some(stack[0]) == CurrentTurn(stack)
  {
  }

  lemma {:induction false} NoTurnBindsNothing(stack: seq<Frame>, e: EventId)
    requires CurrentTurn(stack).None?
    ensures !BindsEvent(stack, e)
  {
    if stack != [] {
      NoTurnBindsNothing(stack[1..], e);
    }
  }

  lemma {:induction false} LooseUniqueStack(loose: seq<Loose>, stack: seq<Frame>, other: seq<Frame>)
    requires LooseUnique(loose, stack)
    requires forall e :: BindsEvent(other, e) ==> BindsEvent(stack, e) || FindLoose(loose, e).None?
    ensures LooseUnique(loose, other)
  {
    if loose != [] {
      LooseUniqueStack(loose[1..], stack, other);
    }
  }

  lemma {:induction false} LooseAppended(loose: seq<Loose>, l: Loose, stack: seq<Frame>)
    requires LooseUnique(loose, stack) && FindLoose(loose, l.event).None? && !BindsEvent(stack, l.event)
    ensures LooseUnique(loose + [l], stack)
    ensures forall e :: FindLoose(loose + [l], e)
                        == if FindLoose(loose, e).Some? then FindLoose(loose, e) else if e == l.event then Some(l) else None
    ensures forall u :: LooseCount(loose + [l], u) == LooseCount(loose, u) + One(l.umo == u)
    ensures forall u :: LooseOwnCount(loose + [l], u) == LooseOwnCount(loose, u) + One(l.umo == u && l.owns)
  {
    if loose == [] {
      assert loose + [l] == [l] && [l][1..] == [];
      assert FindLoose([], l.event) == None;
    } else {
      assert (loose + [l])[1..] == loose[1..] + [l];
      LooseAppended(loose[1..], l, stack);
    }
  }

  lemma {:induction false} LooseDropped(loose: seq<Loose>, e: EventId, stack: seq<Frame>)
    requires LooseUnique(loose, stack) && FindLoose(loose, e).Some?
    ensures LooseUnique(Dropped(loose, e), stack)
    ensures forall x :: FindLoose(Dropped(loose, e), x) == if x == e then None else FindLoose(loose, x)
    ensures var l := FindLoose(loose, e).value;
            && (forall u :: LooseCount(Dropped(loose, e), u) == LooseCount(loose, u) - One(l.umo == u))
            && (forall u :: LooseOwnCount(Dropped(loose, e), u) == LooseOwnCount(loose, u) - One(l.umo == u && l.owns))
  {
    if loose[0].event != e {
      LooseDropped(loose[1..], e, stack);
      assert Dropped(loose, e)[1..] == Dropped(loose[1..], e);
    }
  }

  /** The linked events of a task are its own, and those without a turn are registered. */
  lemma OwnEvents(w: World, t: TaskId, e: EventId)
    requires Inv(w) && t < |w.tasks|
    ensures BindsEvent(w.tasks[t].stack, e) ==> e in w.bound && w.bound[e] == t
    ensures FindLoose(w.tasks[t].loose, e).Some? ==> e in w.bound && w.bound[e] == t && e in w.gate.turnCms
  {
    hide FramesOk, WaitOk, DepthOk, LockOk, StayedOk;
    assert TaskOk(w.gate, w.lock, w.bound, t, w.tasks[t]);
    if BindsEvent(w.tasks[t].stack, e) {
      BoundHere(w.gate, w.bound, t, w.tasks[t].stack, e);
    }
    FindLooseIn(w.tasks[t].loose, e);
  }

  // ---------------------------------------------------------------- steps

  lemma BindCounts(w: World, t: TaskId, e: EventId, u: Umo)
    requires Inv(w) && BindStep(w, t, e, u).Some?
    ensures var v := BindStep(w, t, e, u).value;
            && DepthOk(v.gate, t, v.tasks[t]) && LockOk(v.lock, t, v.tasks[t])
            && forall t2, u :: t2 != t ==> (LockedBy(v.lock, u, t2) <==> LockedBy(w.lock, u, t2))
  {
    hide EventsUnique, LooseUnique, StayedOk, TablesOk;
    var v := BindStep(w, t, e, u).value;
    var ts := w.tasks[t];
    assert TaskOk(w.gate, w.lock, w.bound, t, ts);
    var after := v.tasks[t].stack;
    assert after[1..] == ts.stack;
    forall x ensures DepthOf(v.gate, t, x) == LiveHolds(v.tasks[t], x) {
      assert DepthOf(w.gate, t, x) == LiveHolds(ts, x);
    }
    forall x ensures Owners(v.tasks[t], x) == One(LockedBy(v.lock, x, t)) {
      assert Owners(ts, x) == One(LockedBy(w.lock, x, t));
    }
  }

  lemma BindEvents(w: World, t: TaskId, e: EventId, u: Umo)
    requires Inv(w) && BindStep(w, t, e, u).Some?
    ensures var v := BindStep(w, t, e, u).value;
            && FramesOk(v.tasks[t].stack) && EventsOk(v.gate, v.bound, t, v.tasks[t])
            && WaitOk(v.gate, v.bound, t, v.tasks[t]) && StayedOk(v.tasks[t])
  {
    hide LockOk, Owners;
    var v := BindStep(w, t, e, u).value;
    var ts := w.tasks[t];
    assert TaskOk(w.gate, w.lock, w.bound, t, ts);
    var after := v.tasks[t].stack;
    assert after[1..] == ts.stack;
    OwnEvents(w, t, e);
    forall x | BindsEvent(ts.stack, x) || FindLoose(ts.loose, x).Some? ensures SameEvent(w, v, x) {
      OwnEvents(w, t, x);
    }
    EventsKept(w, v, t, ts.stack, ts.loose);
    LooseUniqueStack(ts.loose, ts.stack, after);
  }

  lemma BindKeepsInv(w: World, t: TaskId, e: EventId, u: Umo)
    requires Inv(w) && BindStep(w, t, e, u).Some?
    ensures Inv(BindStep(w, t, e, u).value)
  {
    hide DepthOk, LockOk, FramesOk, EventsOk, WaitOk, StayedOk;
    BindCounts(w, t, e, u);
    BindEvents(w, t, e, u);
    TablesKept(w, BindStep(w, t, e, u).value, t);
    StepKeepsInv(w, BindStep(w, t, e, u).value, t);
  }

  lemma BindAgainCounts(w: World, t: TaskId, e: EventId)
    requires Inv(w) && BindAgainStep(w, t, e).Some?
    ensures var v := BindAgainStep(w, t, e).value;
            && DepthOk(v.gate, t, v.tasks[t]) && LockOk(v.lock, t, v.tasks[t])
            && forall t2, u :: t2 != t ==> (LockedBy(v.lock, u, t2) <==> LockedBy(w.lock, u, t2))
  {
    hide EventsUnique, LooseUnique, StayedOk, TablesOk;
    var v := BindAgainStep(w, t, e).value;
    var ts := w.tasks[t];
    assert TaskOk(w.gate, w.lock, w.bound, t, ts);
    LooseDropped(ts.loose, e, ts.stack);
    var after := v.tasks[t].stack;
    assert after[1..] == ts.stack;
    forall x ensures DepthOf(v.gate, t, x) == LiveHolds(v.tasks[t], x) {
      assert DepthOf(w.gate, t, x) == LiveHolds(ts, x);
    }
    forall x ensures Owners(v.tasks[t], x) == One(LockedBy(v.lock, x, t)) {
      assert Owners(ts, x) == One(LockedBy(w.lock, x, t));
    }
  }

  lemma BindAgainEvents(w: World, t: TaskId, e: EventId)
    requires Inv(w) && BindAgainStep(w, t, e).Some?
    ensures var v := BindAgainStep(w, t, e).value;
            && FramesOk(v.tasks[t].stack) && EventsOk(v.gate, v.bound, t, v.tasks[t])
            && WaitOk(v.gate, v.bound, t, v.tasks[t]) && StayedOk(v.tasks[t])
  {
    hide DepthOk, LockOk, Owners, TablesOk;
    var v := BindAgainStep(w, t, e).value;
    var ts := w.tasks[t];
    assert TaskOk(w.gate, w.lock, w.bound, t, ts);
    FindLooseIn(ts.loose, e);
    NotBoundAndLoose(ts.loose, ts.stack, e);
    LooseDropped(ts.loose, e, ts.stack);
    var after := v.tasks[t].stack;
    assert after[1..] == ts.stack;
    forall x | x in v.tasks[t].loose ensures x in ts.loose {
      DroppedIn(ts.loose, e, x);
    }
    LooseUniqueStack(v.tasks[t].loose, ts.stack, after);
  }

  lemma BindAgainKeepsInv(w: World, t: TaskId, e: EventId)
    requires Inv(w) && BindAgainStep(w, t, e).Some?
    ensures Inv(BindAgainStep(w, t, e).value)
  {
    hide DepthOk, LockOk, FramesOk, StayedOk;
    assert TaskOk(w.gate, w.lock, w.bound, t, w.tasks[t]);
    BindAgainCounts(w, t, e);
    BindAgainEvents(w, t, e);
    TablesKept(w, BindAgainStep(w, t, e).value, t);
    StepKeepsInv(w, BindAgainStep(w, t, e).value, t);
  }

  lemma NestedHoldCounts(w: World, t: TaskId, f: Frame)
    requires Inv(w) && HoldStep(w, t).Some? && CurrentTurn(w.tasks[t].stack) == Some(f)
    requires w.tasks[t].stack[0] == f && f.mode == Unheld && f.event !in w.gate.turnCms && f.event !in w.gate.pending
    requires DepthOf(w.gate, t, f.umo) != 0
    ensures var v := HoldStep(w, t).value;
            && DepthOk(v.gate, t, v.tasks[t]) && LockOk(v.lock, t, v.tasks[t])
            && forall t2, u :: t2 != t ==> (LockedBy(v.lock, u, t2) <==> LockedBy(w.lock, u, t2))
  {
    hide EventsUnique, LooseUnique, StayedOk, TablesOk;
    var v := HoldStep(w, t).value;
    var ts := w.tasks[t];
    assert TaskOk(w.gate, w.lock, w.bound, t, ts);
    var stack := ts.stack;
    var after := v.tasks[t].stack;
    assert after == [f.(mode := Nests)] + stack[1..] && after[1..] == stack[1..];
    forall x ensures DepthOf(v.gate, t, x) == LiveHolds(v.tasks[t], x) {
      assert DepthOf(w.gate, t, x) == LiveHolds(ts, x);
    }
    forall x ensures Owners(v.tasks[t], x) == One(LockedBy(v.lock, x, t)) {
      assert Owners(ts, x) == One(LockedBy(w.lock, x, t));
    }
  }

  lemma NestedHoldEvents(w: World, t: TaskId, f: Frame)
    requires Inv(w) && HoldStep(w, t).Some? && CurrentTurn(w.tasks[t].stack) == Some(f)
    requires w.tasks[t].stack[0] == f && f.mode == Unheld && f.event !in w.gate.turnCms && f.event !in w.gate.pending
    requires DepthOf(w.gate, t, f.umo) != 0
    ensures var v := HoldStep(w, t).value;
            && FramesOk(v.tasks[t].stack) && EventsOk(v.gate, v.bound, t, v.tasks[t])
            && WaitOk(v.gate, v.bound, t, v.tasks[t]) && StayedOk(v.tasks[t])
  {
    hide LockOk, Owners, TablesOk;
    var v := HoldStep(w, t).value;
    var ts := w.tasks[t];
    var stack := ts.stack;
    var after := v.tasks[t].stack;
    assert TaskOk(w.gate, w.lock, w.bound, t, ts);
    assert FrameLinked(w.gate, w.bound, t, f);
    assert after == [f.(mode := Nests)] + stack[1..] && after[1..] == stack[1..];
    forall x | BindsEvent(stack[1..], x) || FindLoose(ts.loose, x).Some? ensures SameEvent(w, v, x) {
      OwnEvents(w, t, x);
    }
    EventsKept(w, v, t, stack[1..], ts.loose);
    LooseUniqueStack(ts.loose, stack, after);
  }

  lemma NestedHoldKeepsInv(w: World, t: TaskId, f: Frame)
    requires Inv(w) && HoldStep(w, t).Some? && CurrentTurn(w.tasks[t].stack) == Some(f)
    requires w.tasks[t].stack[0] == f && f.mode == Unheld && f.event !in w.gate.turnCms && f.event !in w.gate.pending
    requires DepthOf(w.gate, t, f.umo) != 0
    ensures Inv(HoldStep(w, t).value)
  {
    hide DepthOk, LockOk, FramesOk, StayedOk;
    assert TaskOk(w.gate, w.lock, w.bound, t, w.tasks[t]) && FrameLinked(w.gate, w.bound, t, f);
    NestedHoldCounts(w, t, f);
    NestedHoldEvents(w, t, f);
    TablesKept(w, HoldStep(w, t).value, t);
    StepKeepsInv(w, HoldStep(w, t).value, t);
  }

  lemma WaitingHoldCounts(w: World, t: TaskId, f: Frame)
    requires Inv(w) && HoldStep(w, t).Some? && CurrentTurn(w.tasks[t].stack) == Some(f)
    requires w.tasks[t].stack[0] == f && f.mode == Unheld && f.event !in w.gate.turnCms && f.event !in w.gate.pending
    requires DepthOf(w.gate, t, f.umo) == 0
    ensures var v := HoldStep(w, t).value;
            && DepthOk(v.gate, t, v.tasks[t]) && LockOk(v.lock, t, v.tasks[t])
            && forall t2, u :: t2 != t ==> (LockedBy(v.lock, u, t2) <==> LockedBy(w.lock, u, t2))
  {
    hide EventsUnique, LooseUnique, StayedOk, TablesOk;
    var v := HoldStep(w, t).value;
    var ts := w.tasks[t];
    assert TaskOk(w.gate, w.lock, w.bound, t, ts);
    forall x ensures DepthOf(v.gate, t, x) == LiveHolds(v.tasks[t], x) {
      assert DepthOf(w.gate, t, x) == LiveHolds(ts, x);
    }
    forall x ensures Owners(v.tasks[t], x) == One(LockedBy(v.lock, x, t)) {
      assert Owners(ts, x) == One(LockedBy(w.lock, x, t));
    }
  }

  lemma WaitingHoldEvents(w: World, t: TaskId, f: Frame)
    requires Inv(w) && HoldStep(w, t).Some? && CurrentTurn(w.tasks[t].stack) == Some(f)
    requires w.tasks[t].stack[0] == f && f.mode == Unheld && f.event !in w.gate.turnCms && f.event !in w.gate.pending
    requires DepthOf(w.gate, t, f.umo) == 0
    ensures var v := HoldStep(w, t).value;
            && FramesOk(v.tasks[t].stack) && EventsOk(v.gate, v.bound, t, v.tasks[t])
            && WaitOk(v.gate, v.bound, t, v.tasks[t]) && StayedOk(v.tasks[t])
  {
    hide LockOk, Owners, TablesOk;
    var v := HoldStep(w, t).value;
    var ts := w.tasks[t];
    assert TaskOk(w.gate, w.lock, w.bound, t, ts);
    assert FrameLinked(w.gate, w.bound, t, f);
    forall x | BindsEvent(ts.stack, x) || FindLoose(ts.loose, x).Some? ensures SameEvent(w, v, x) {
      OwnEvents(w, t, x);
    }
    EventsKept(w, v, t, ts.stack, ts.loose);
  }

  lemma WaitingHoldKeepsInv(w: World, t: TaskId, f: Frame)
    requires Inv(w) && HoldStep(w, t).Some? && CurrentTurn(w.tasks[t].stack) == Some(f)
    requires w.tasks[t].stack[0] == f && f.mode == Unheld && f.event !in w.gate.turnCms && f.event !in w.gate.pending
    requires DepthOf(w.gate, t, f.umo) == 0
    ensures Inv(HoldStep(w, t).value)
  {
    hide DepthOk, LockOk, FramesOk, StayedOk;
    assert TaskOk(w.gate, w.lock, w.bound, t, w.tasks[t]) && FrameLinked(w.gate, w.bound, t, f);
    WaitingHoldCounts(w, t, f);
    WaitingHoldEvents(w, t, f);
    TablesKept(w, HoldStep(w, t).value, t);
    StepKeepsInv(w, HoldStep(w, t).value, t);
  }

  lemma {:induction false} CurrentTurnLinked(g: GateState, bound: map<EventId, TaskId>, t: TaskId, stack: seq<Frame>)
    requires Linked(g, bound, t, stack) && CurrentTurn(stack).Some?
    ensures FrameLinked(g, bound, t, CurrentTurn(stack).value)
  {
    if !stack[0].Turn? {
      CurrentTurnLinked(g, bound, t, stack[1..]);
    }
  }

  lemma HoldKeepsInv(w: World, t: TaskId)
    requires Inv(w) && HoldStep(w, t).Some?
    ensures Inv(HoldStep(w, t).value)
  {
    var stack := w.tasks[t].stack;
    var f := CurrentTurn(stack).value;
    assert TaskOk(w.gate, w.lock, w.bound, t, w.tasks[t]);
    CurrentTurnLinked(w.gate, w.bound, t, stack);
    if f.event in w.gate.turnCms || f.event in w.gate.pending {
      assert HoldStep(w, t).value == w;
    } else {
      UnheldTurnIsInnermost(stack);
      if DepthOf(w.gate, t, f.umo) != 0 {
        NestedHoldKeepsInv(w, t, f);
      } else {
        WaitingHoldKeepsInv(w, t, f);
      }
    }
  }

  lemma NestedBareHoldCounts(w: World, t: TaskId, e: EventId, u: Umo)
    requires Inv(w) && BareHoldStep(w, t, e, u).Some?
    requires e !in w.gate.turnCms && e !in w.gate.pending && DepthOf(w.gate, t, u) != 0
    ensures var v := BareHoldStep(w, t, e, u).value;
            && DepthOk(v.gate, t, v.tasks[t]) && LockOk(v.lock, t, v.tasks[t])
            && forall t2, u :: t2 != t ==> (LockedBy(v.lock, u, t2) <==> LockedBy(w.lock, u, t2))
  {
    hide EventsUnique, LooseUnique, StayedOk, TablesOk;
    var v := BareHoldStep(w, t, e, u).value;
    var ts := w.tasks[t];
    assert TaskOk(w.gate, w.lock, w.bound, t, ts);
    NoTurnBindsNothing(ts.stack, e);
    OwnEvents(w, t, e);
    LooseAppended(ts.loose, Loose(e, u, false), ts.stack);
    forall x ensures DepthOf(v.gate, t, x) == LiveHolds(v.tasks[t], x) {
      assert DepthOf(w.gate, t, x) == LiveHolds(ts, x);
    }
    forall x ensures Owners(v.tasks[t], x) == One(LockedBy(v.lock, x, t)) {
      assert Owners(ts, x) == One(LockedBy(w.lock, x, t));
    }
  }

  lemma NestedBareHoldEvents(w: World, t: TaskId, e: EventId, u: Umo)
    requires Inv(w) && BareHoldStep(w, t, e, u).Some?
    requires e !in w.gate.turnCms && e !in w.gate.pending && DepthOf(w.gate, t, u) != 0
    ensures var v := BareHoldStep(w, t, e, u).value;
            && FramesOk(v.tasks[t].stack) && EventsOk(v.gate, v.bound, t, v.tasks[t])
            && WaitOk(v.gate, v.bound, t, v.tasks[t]) && StayedOk(v.tasks[t])
  {
    hide DepthOk, LockOk, Owners, TablesOk;
    var v := BareHoldStep(w, t, e, u).value;
    var ts := w.tasks[t];
    assert TaskOk(w.gate, w.lock, w.bound, t, ts);
    NoTurnBindsNothing(ts.stack, e);
    OwnEvents(w, t, e);
    LooseAppended(ts.loose, Loose(e, u, false), ts.stack);
    forall x | BindsEvent(ts.stack, x) || FindLoose(ts.loose, x).Some? ensures SameEvent(w, v, x) {
      OwnEvents(w, t, x);
    }
    EventsKept(w, v, t, ts.stack, ts.loose);
  }

  lemma NestedBareHoldKeepsInv(w: World, t: TaskId, e: EventId, u: Umo)
    requires Inv(w) && BareHoldStep(w, t, e, u).Some?
    requires e !in w.gate.turnCms && e !in w.gate.pending && DepthOf(w.gate, t, u) != 0
    ensures Inv(BareHoldStep(w, t, e, u).value)
  {
    hide DepthOk, LockOk, FramesOk, EventsOk, WaitOk, StayedOk;
    NestedBareHoldCounts(w, t, e, u);
    NestedBareHoldEvents(w, t, e, u);
    TablesKept(w, BareHoldStep(w, t, e, u).value, t);
    StepKeepsInv(w, BareHoldStep(w, t, e, u).value, t);
  }

  lemma WaitingBareHoldCounts(w: World, t: TaskId, e: EventId, u: Umo)
    requires Inv(w) && BareHoldStep(w, t, e, u).Some?
    requires e !in w.gate.turnCms && e !in w.gate.pending && DepthOf(w.gate, t, u) == 0
    ensures var v := BareHoldStep(w, t, e, u).value;
            && DepthOk(v.gate, t, v.tasks[t]) && LockOk(v.lock, t, v.tasks[t])
            && forall t2, u :: t2 != t ==> (LockedBy(v.lock, u, t2) <==> LockedBy(w.lock, u, t2))
  {
    hide EventsUnique, LooseUnique, StayedOk, TablesOk;
    var v := BareHoldStep(w, t, e, u).value;
    var ts := w.tasks[t];
    assert TaskOk(w.gate, w.lock, w.bound, t, ts);
    forall x ensures DepthOf(v.gate, t, x) == LiveHolds(v.tasks[t], x) {
      assert DepthOf(w.gate, t, x) == LiveHolds(ts, x);
    }
    forall x ensures Owners(v.tasks[t], x) == One(LockedBy(v.lock, x, t)) {
      assert Owners(ts, x) == One(LockedBy(w.lock, x, t));
    }
  }

  lemma WaitingBareHoldEvents(w: World, t: TaskId, e: EventId, u: Umo)
    requires Inv(w) && BareHoldStep(w, t, e, u).Some?
    requires e !in w.gate.turnCms && e !in w.gate.pending && DepthOf(w.gate, t, u) == 0
    ensures var v := BareHoldStep(w, t, e, u).value;
            && FramesOk(v.tasks[t].stack) && EventsOk(v.gate, v.bound, t, v.tasks[t])
            && WaitOk(v.gate, v.bound, t, v.tasks[t]) && StayedOk(v.tasks[t])
  {
    hide LockOk, Owners, TablesOk;
    var v := BareHoldStep(w, t, e, u).value;
    var ts := w.tasks[t];
    assert TaskOk(w.gate, w.lock, w.bound, t, ts);
    NoTurnBindsNothing(ts.stack, e);
    OwnEvents(w, t, e);
    forall x | BindsEvent(ts.stack, x) || FindLoose(ts.loose, x).Some? ensures SameEvent(w, v, x) {
      OwnEvents(w, t, x);
    }
    EventsKept(w, v, t, ts.stack, ts.loose);
  }

  lemma WaitingBareHoldKeepsInv(w: World, t: TaskId, e: EventId, u: Umo)
    requires Inv(w) && BareHoldStep(w, t, e, u).Some?
    requires e !in w.gate.turnCms && e !in w.gate.pending && DepthOf(w.gate, t, u) == 0
    ensures Inv(BareHoldStep(w, t, e, u).value)
  {
    hide DepthOk, LockOk, FramesOk, EventsOk, WaitOk, StayedOk;
    WaitingBareHoldCounts(w, t, e, u);
    WaitingBareHoldEvents(w, t, e, u);
    TablesKept(w, BareHoldStep(w, t, e, u).value, t);
    StepKeepsInv(w, BareHoldStep(w, t, e, u).value, t);
  }

  lemma BareHoldKeepsInv(w: World, t: TaskId, e: EventId, u: Umo)
    requires Inv(w) && BareHoldStep(w, t, e, u).Some?
    ensures Inv(BareHoldStep(w, t, e, u).value)
  {
    hide Inv;
    if e in w.gate.turnCms || e in w.gate.pending {
      assert BareHoldStep(w, t, e, u).value == w;
    } else if DepthOf(w.gate, t, u) != 0 {
      NestedBareHoldKeepsInv(w, t, e, u);
    } else {
      WaitingBareHoldKeepsInv(w, t, e, u);
    }
  }

  lemma EnterCounts(w: World, t: TaskId, u: Umo)
    requires Inv(w) && EnterStep(w, t, u).Some?
    ensures LiveHolds(w.tasks[t], u) == DepthOf(w.gate, t, u)
    ensures var v := EnterStep(w, t, u).value;
            && DepthOk(v.gate, t, v.tasks[t]) && LockOk(v.lock, t, v.tasks[t])
            && forall t2, u :: t2 != t ==> (LockedBy(v.lock, u, t2) <==> LockedBy(w.lock, u, t2))
  {
    hide EventsUnique, LooseUnique, StayedOk, TablesOk;
    var v := EnterStep(w, t, u).value;
    var ts := w.tasks[t];
    assert TaskOk(w.gate, w.lock, w.bound, t, ts);
    assert DepthOf(w.gate, t, u) != 0 ==> v.tasks[t].stack[1..] == ts.stack;
    forall x ensures DepthOf(v.gate, t, x) == LiveHolds(v.tasks[t], x) {
      assert DepthOf(w.gate, t, x) == LiveHolds(ts, x);
    }
    forall x ensures Owners(v.tasks[t], x) == One(LockedBy(v.lock, x, t)) {
      assert Owners(ts, x) == One(LockedBy(w.lock, x, t));
    }
  }

  lemma EnterEvents(w: World, t: TaskId, u: Umo)
    requires Inv(w) && EnterStep(w, t, u).Some?
    ensures var v := EnterStep(w, t, u).value;
            && FramesOk(v.tasks[t].stack) && EventsOk(v.gate, v.bound, t, v.tasks[t])
            && WaitOk(v.gate, v.bound, t, v.tasks[t]) && StayedOk(v.tasks[t])
  {
    hide DepthOk, LockOk, Owners, TablesOk;
    var v := EnterStep(w, t, u).value;
    var ts := w.tasks[t];
    var after := v.tasks[t].stack;
    assert TaskOk(w.gate, w.lock, w.bound, t, ts);
    assert DepthOf(w.gate, t, u) != 0 ==> after[1..] == ts.stack;
    forall x | BindsEvent(ts.stack, x) || FindLoose(ts.loose, x).Some? ensures SameEvent(w, v, x) {
      OwnEvents(w, t, x);
    }
    EventsKept(w, v, t, ts.stack, ts.loose);
    LooseUniqueStack(ts.loose, ts.stack, after);
    EnterCounts(w, t, u);
  }

  lemma EnterKeepsInv(w: World, t: TaskId, u: Umo)
    requires Inv(w) && EnterStep(w, t, u).Some?
    ensures Inv(EnterStep(w, t, u).value)
  {
    hide DepthOk, LockOk, FramesOk, EventsOk, WaitOk, StayedOk;
    EnterCounts(w, t, u);
    EnterEvents(w, t, u);
    TablesKept(w, EnterStep(w, t, u).value, t);
    StepKeepsInv(w, EnterStep(w, t, u).value, t);
  }

  lemma AcquireForHoldCounts(w: World, t: TaskId)
    requires Inv(w) && AcquireStep(w, t).Some? && w.tasks[t].wait.HoldWaits?
    ensures var v := AcquireStep(w, t).value;
            && DepthOk(v.gate, t, v.tasks[t]) && LockOk(v.lock, t, v.tasks[t])
            && forall t2, u :: t2 != t ==> (LockedBy(v.lock, u, t2) <==> LockedBy(w.lock, u, t2))
  {
    hide EventsUnique, LooseUnique, StayedOk, TablesOk;
    var v := AcquireStep(w, t).value;
    var ts := w.tasks[t];
    assert TaskOk(w.gate, w.lock, w.bound, t, ts);
    forall x ensures DepthOf(v.gate, t, x) == LiveHolds(v.tasks[t], x) {
      assert DepthOf(w.gate, t, x) == LiveHolds(ts, x);
    }
    forall x ensures Owners(v.tasks[t], x) == One(LockedBy(v.lock, x, t)) {
      assert Owners(ts, x) == One(LockedBy(w.lock, x, t));
    }
  }

  lemma AcquireForHoldEvents(w: World, t: TaskId)
    requires Inv(w) && AcquireStep(w, t).Some? && w.tasks[t].wait.HoldWaits?
    ensures var v := AcquireStep(w, t).value;
            && FramesOk(v.tasks[t].stack) && EventsOk(v.gate, v.bound, t, v.tasks[t])
            && WaitOk(v.gate, v.bound, t, v.tasks[t]) && StayedOk(v.tasks[t])
  {
    hide LockOk, Owners, TablesOk;
    var v := AcquireStep(w, t).value;
    var ts := w.tasks[t];
    assert TaskOk(w.gate, w.lock, w.bound, t, ts);
    forall x | BindsEvent(ts.stack, x) || FindLoose(ts.loose, x).Some? ensures SameEvent(w, v, x) {
      OwnEvents(w, t, x);
    }
    EventsKept(w, v, t, ts.stack, ts.loose);
  }

  lemma AcquireForHoldKeepsInv(w: World, t: TaskId)
    requires Inv(w) && AcquireStep(w, t).Some? && w.tasks[t].wait.HoldWaits?
    ensures Inv(AcquireStep(w, t).value)
  {
    hide DepthOk, LockOk, FramesOk, EventsOk, WaitOk, StayedOk;
    AcquireForHoldCounts(w, t);
    AcquireForHoldEvents(w, t);
    TablesKept(w, AcquireStep(w, t).value, t);
    StepKeepsInv(w, AcquireStep(w, t).value, t);
  }

  lemma AcquireForSendCounts(w: World, t: TaskId)
    requires Inv(w) && AcquireStep(w, t).Some? && w.tasks[t].wait.SendWaits?
    ensures var v := AcquireStep(w, t).value;
            && DepthOk(v.gate, t, v.tasks[t]) && LockOk(v.lock, t, v.tasks[t])
            && forall t2, u :: t2 != t ==> (LockedBy(v.lock, u, t2) <==> LockedBy(w.lock, u, t2))
  {
    hide EventsUnique, LooseUnique, StayedOk, TablesOk;
    var v := AcquireStep(w, t).value;
    var ts := w.tasks[t];
    assert TaskOk(w.gate, w.lock, w.bound, t, ts);
    assert v.tasks[t].stack[1..] == ts.stack;
    forall x ensures DepthOf(v.gate, t, x) == LiveHolds(v.tasks[t], x) {
      assert DepthOf(w.gate, t, x) == LiveHolds(ts, x);
    }
    forall x ensures Owners(v.tasks[t], x) == One(LockedBy(v.lock, x, t)) {
      assert Owners(ts, x) == One(LockedBy(w.lock, x, t));
    }
  }

  lemma AcquireForSendEvents(w: World, t: TaskId)
    requires Inv(w) && AcquireStep(w, t).Some? && w.tasks[t].wait.SendWaits?
    ensures var v := AcquireStep(w, t).value;
            && FramesOk(v.tasks[t].stack) && EventsOk(v.gate, v.bound, t, v.tasks[t])
            && WaitOk(v.gate, v.bound, t, v.tasks[t]) && StayedOk(v.tasks[t])
  {
    hide DepthOk, LockOk, Owners, TablesOk;
    var v := AcquireStep(w, t).value;
    var ts := w.tasks[t];
    var after := v.tasks[t].stack;
    assert TaskOk(w.gate, w.lock, w.bound, t, ts);
    assert after[1..] == ts.stack;
    forall x | BindsEvent(ts.stack, x) || FindLoose(ts.loose, x).Some? ensures SameEvent(w, v, x) {
      OwnEvents(w, t, x);
    }
    EventsKept(w, v, t, ts.stack, ts.loose);
    LooseUniqueStack(ts.loose, ts.stack, after);
  }

  lemma AcquireForSendKeepsInv(w: World, t: TaskId)
    requires Inv(w) && AcquireStep(w, t).Some? && w.tasks[t].wait.SendWaits?
    ensures Inv(AcquireStep(w, t).value)
  {
    hide DepthOk, LockOk, FramesOk, EventsOk, WaitOk, StayedOk;
    AcquireForSendCounts(w, t);
    AcquireForSendEvents(w, t);
    TablesKept(w, AcquireStep(w, t).value, t);
    StepKeepsInv(w, AcquireStep(w, t).value, t);
  }

  lemma RegisteredTurnCounts(w: World, t: TaskId)
    requires Inv(w) && RegisteredStep(w, t).Some? && !w.tasks[t].wait.loose
    ensures var v := RegisteredStep(w, t).value;
            && DepthOk(v.gate, t, v.tasks[t]) && LockOk(v.lock, t, v.tasks[t])
            && forall t2, u :: t2 != t ==> (LockedBy(v.lock, u, t2) <==> LockedBy(w.lock, u, t2))
  {
    hide EventsUnique, LooseUnique, StayedOk, TablesOk;
    var v := RegisteredStep(w, t).value;
    var ts := w.tasks[t];
    assert TaskOk(w.gate, w.lock, w.bound, t, ts);
    assert v.tasks[t].stack == [ts.stack[0].(mode := Owns)] + ts.stack[1..];
    assert v.tasks[t].stack[1..] == ts.stack[1..];
    forall x ensures DepthOf(v.gate, t, x) == LiveHolds(v.tasks[t], x) {
      assert DepthOf(w.gate, t, x) == LiveHolds(ts, x);
    }
    forall x ensures Owners(v.tasks[t], x) == One(LockedBy(v.lock, x, t)) {
      assert Owners(ts, x) == One(LockedBy(w.lock, x, t));
    }
  }

  lemma RegisteredTurnEvents(w: World, t: TaskId)
    requires Inv(w) && RegisteredStep(w, t).Some? && !w.tasks[t].wait.loose
    ensures var v := RegisteredStep(w, t).value;
            && FramesOk(v.tasks[t].stack) && EventsOk(v.gate, v.bound, t, v.tasks[t])
            && WaitOk(v.gate, v.bound, t, v.tasks[t]) && StayedOk(v.tasks[t])
  {
    hide DepthOk, LockOk, Owners, TablesOk;
    var v := RegisteredStep(w, t).value;
    var ts := w.tasks[t];
    var stack := ts.stack;
    var after := v.tasks[t].stack;
    assert TaskOk(w.gate, w.lock, w.bound, t, ts);
    var f := stack[0];
    assert after == [f.(mode := Owns)] + stack[1..] && after[1..] == stack[1..];
    forall x | BindsEvent(stack[1..], x) || FindLoose(ts.loose, x).Some? ensures SameEvent(w, v, x) {
      OwnEvents(w, t, x);
    }
    EventsKept(w, v, t, stack[1..], ts.loose);
    LooseUniqueStack(ts.loose, stack, after);
  }

  lemma RegisteredTurnKeepsInv(w: World, t: TaskId)
    requires Inv(w) && RegisteredStep(w, t).Some? && !w.tasks[t].wait.loose
    ensures Inv(RegisteredStep(w, t).value)
  {
    hide DepthOk, LockOk, FramesOk, StayedOk;
    assert TaskOk(w.gate, w.lock, w.bound, t, w.tasks[t]);
    RegisteredTurnCounts(w, t);
    RegisteredTurnEvents(w, t);
    TablesKept(w, RegisteredStep(w, t).value, t);
    StepKeepsInv(w, RegisteredStep(w, t).value, t);
  }

  lemma RegisteredBareCounts(w: World, t: TaskId)
    requires Inv(w) && RegisteredStep(w, t).Some? && w.tasks[t].wait.loose
    ensures var v := RegisteredStep(w, t).value;
            && DepthOk(v.gate, t, v.tasks[t]) && LockOk(v.lock, t, v.tasks[t])
            && forall t2, u :: t2 != t ==> (LockedBy(v.lock, u, t2) <==> LockedBy(w.lock, u, t2))
  {
    hide EventsUnique, LooseUnique, StayedOk, TablesOk;
    var v := RegisteredStep(w, t).value;
    var ts := w.tasks[t];
    assert TaskOk(w.gate, w.lock, w.bound, t, ts);
    NoTurnBindsNothing(ts.stack, ts.wait.event);
    OwnEvents(w, t, ts.wait.event);
    LooseAppended(ts.loose, Loose(ts.wait.event, ts.wait.umo, true), ts.stack);
    forall x ensures DepthOf(v.gate, t, x) == LiveHolds(v.tasks[t], x) {
      assert DepthOf(w.gate, t, x) == LiveHolds(ts, x);
    }
    forall x ensures Owners(v.tasks[t], x) == One(LockedBy(v.lock, x, t)) {
      assert Owners(ts, x) == One(LockedBy(w.lock, x, t));
    }
  }

  lemma RegisteredBareEvents(w: World, t: TaskId)
    requires Inv(w) && RegisteredStep(w, t).Some? && w.tasks[t].wait.loose
    ensures var v := RegisteredStep(w, t).value;
            && FramesOk(v.tasks[t].stack) && EventsOk(v.gate, v.bound, t, v.tasks[t])
            && WaitOk(v.gate, v.bound, t, v.tasks[t]) && StayedOk(v.tasks[t])
  {
    hide DepthOk, LockOk, Owners, TablesOk;
    var v := RegisteredStep(w, t).value;
    var ts := w.tasks[t];
    var HoldAcquired(e, u, _) := ts.wait;
    assert TaskOk(w.gate, w.lock, w.bound, t, ts);
    NoTurnBindsNothing(ts.stack, e);
    OwnEvents(w, t, e);
    LooseAppended(ts.loose, Loose(e, u, true), ts.stack);
    forall x | BindsEvent(ts.stack, x) || FindLoose(ts.loose, x).Some? ensures SameEvent(w, v, x) {
      OwnEvents(w, t, x);
    }
    EventsKept(w, v, t, ts.stack, ts.loose);
  }

  lemma RegisteredBareKeepsInv(w: World, t: TaskId)
    requires Inv(w) && RegisteredStep(w, t).Some? && w.tasks[t].wait.loose
    ensures Inv(RegisteredStep(w, t).value)
  {
    hide DepthOk, LockOk, FramesOk, StayedOk;
    assert TaskOk(w.gate, w.lock, w.bound, t, w.tasks[t]);
    RegisteredBareCounts(w, t);
    RegisteredBareEvents(w, t);
    TablesKept(w, RegisteredStep(w, t).value, t);
    StepKeepsInv(w, RegisteredStep(w, t).value, t);
  }

  lemma AbortCounts(w: World, t: TaskId)
    requires Inv(w) && AbortStep(w, t).Some?
    ensures var v := AbortStep(w, t).value;
            && DepthOk(v.gate, t, v.tasks[t]) && LockOk(v.lock, t, v.tasks[t])
            && forall t2, u :: t2 != t ==> (LockedBy(v.lock, u, t2) <==> LockedBy(w.lock, u, t2))
  {
    hide EventsUnique, LooseUnique, StayedOk, TablesOk;
    var v := AbortStep(w, t).value;
    var ts := w.tasks[t];
    assert TaskOk(w.gate, w.lock, w.bound, t, ts);
    forall x ensures DepthOf(v.gate, t, x) == LiveHolds(v.tasks[t], x) {
      assert DepthOf(w.gate, t, x) == LiveHolds(ts, x);
    }
    forall x ensures Owners(v.tasks[t], x) == One(LockedBy(v.lock, x, t)) {
      assert Owners(ts, x) == One(LockedBy(w.lock, x, t));
    }
  }

  lemma AbortEvents(w: World, t: TaskId)
    requires Inv(w) && AbortStep(w, t).Some?
    ensures var v := AbortStep(w, t).value;
            && FramesOk(v.tasks[t].stack) && EventsOk(v.gate, v.bound, t, v.tasks[t])
            && WaitOk(v.gate, v.bound, t, v.tasks[t]) && StayedOk(v.tasks[t])
  {
    hide LockOk, Owners, TablesOk;
    var v := AbortStep(w, t).value;
    var ts := w.tasks[t];
    assert TaskOk(w.gate, w.lock, w.bound, t, ts);
    if ts.wait.HoldWaits? && ts.wait.loose {
      NoTurnBindsNothing(ts.stack, ts.wait.event);
      OwnEvents(w, t, ts.wait.event);
    }
    forall x | BindsEvent(ts.stack, x) || FindLoose(ts.loose, x).Some? ensures SameEvent(w, v, x) {
      OwnEvents(w, t, x);
    }
    EventsKept(w, v, t, ts.stack, ts.loose);
  }

  lemma AbortKeepsInv(w: World, t: TaskId)
    requires Inv(w) && AbortStep(w, t).Some?
    ensures Inv(AbortStep(w, t).value)
  {
    hide DepthOk, LockOk, FramesOk, StayedOk;
    assert TaskOk(w.gate, w.lock, w.bound, t, w.tasks[t]);
    AbortCounts(w, t);
    AbortEvents(w, t);
    TablesKept(w, AbortStep(w, t).value, t);
    StepKeepsInv(w, AbortStep(w, t).value, t);
  }

  lemma LeaveTurnCounts(w: World, t: TaskId)
    requires Inv(w) && LeaveStep(w, t).Some? && w.tasks[t].stack[0].Turn?
    ensures var v := LeaveStep(w, t).value;
            && DepthOk(v.gate, t, v.tasks[t]) && LockOk(v.lock, t, v.tasks[t])
            && forall t2, u :: t2 != t ==> (LockedBy(v.lock, u, t2) <==> LockedBy(w.lock, u, t2))
  {
    hide EventsUnique, LooseUnique, StayedOk;
    var v := LeaveStep(w, t).value;
    var ts := w.tasks[t];
    assert TaskOk(w.gate, w.lock, w.bound, t, ts);
    assert FrameLinked(w.gate, w.bound, t, ts.stack[0]);
    assert DepthOf(w.gate, t, ts.stack[0].umo) == LiveHolds(ts, ts.stack[0].umo);
    assert Owners(ts, ts.stack[0].umo) == One(LockedBy(w.lock, ts.stack[0].umo, t));
    forall x ensures DepthOf(v.gate, t, x) == LiveHolds(v.tasks[t], x) {
      assert DepthOf(w.gate, t, x) == LiveHolds(ts, x);
    }
    forall x ensures Owners(v.tasks[t], x) == One(LockedBy(v.lock, x, t)) {
      assert Owners(ts, x) == One(LockedBy(w.lock, x, t));
    }
  }

  lemma LeaveTurnEvents(w: World, t: TaskId)
    requires Inv(w) && LeaveStep(w, t).Some? && w.tasks[t].stack[0].Turn?
    ensures var v := LeaveStep(w, t).value;
            && FramesOk(v.tasks[t].stack) && EventsOk(v.gate, v.bound, t, v.tasks[t])
            && WaitOk(v.gate, v.bound, t, v.tasks[t]) && StayedOk(v.tasks[t])
  {
    hide LockOk, Owners, TablesOk;
    var v := LeaveStep(w, t).value;
    var ts := w.tasks[t];
    var (f, rest) := (ts.stack[0], ts.stack[1..]);
    assert TaskOk(w.gate, w.lock, w.bound, t, ts);
    assert FrameLinked(w.gate, w.bound, t, f);
    assert BindsEvent(ts.stack, f.event);
    assert DepthOf(w.gate, t, f.umo) == LiveHolds(ts, f.umo);
    forall x | BindsEvent(rest, x) || FindLoose(ts.loose, x).Some? ensures SameEvent(w, v, x) {
      OwnEvents(w, t, x);
      NotBoundAndLoose(ts.loose, ts.stack, x);
    }
    EventsKept(w, v, t, rest, ts.loose);
    LooseUniqueStack(ts.loose, ts.stack, rest);
  }

  lemma LeaveTurnKeepsInv(w: World, t: TaskId)
    requires Inv(w) && LeaveStep(w, t).Some? && w.tasks[t].stack[0].Turn?
    ensures Inv(LeaveStep(w, t).value)
  {
    hide DepthOk, LockOk, FramesOk, StayedOk;
    assert TaskOk(w.gate, w.lock, w.bound, t, w.tasks[t]) && FrameLinked(w.gate, w.bound, t, w.tasks[t].stack[0]);
    LeaveTurnCounts(w, t);
    LeaveTurnEvents(w, t);
    TablesKept(w, LeaveStep(w, t).value, t);
    StepKeepsInv(w, LeaveStep(w, t).value, t);
  }

  lemma {:induction false} NotBoundAndLoose(loose: seq<Loose>, stack: seq<Frame>, e: EventId)
    requires LooseUnique(loose, stack)
    ensures !(BindsEvent(stack, e) && FindLoose(loose, e).Some?)
  {
    if loose != [] {
      NotBoundAndLoose(loose[1..], stack, e);
    }
  }

  lemma LeaveSendCounts(w: World, t: TaskId)
    requires Inv(w) && LeaveStep(w, t).Some? && w.tasks[t].stack[0].Send?
    ensures var v := LeaveStep(w, t).value;
            && DepthOk(v.gate, t, v.tasks[t]) && LockOk(v.lock, t, v.tasks[t])
            && forall t2, u :: t2 != t ==> (LockedBy(v.lock, u, t2) <==> LockedBy(w.lock, u, t2))
  {
    hide EventsUnique, LooseUnique, StayedOk, TablesOk;
    var v := LeaveStep(w, t).value;
    var ts := w.tasks[t];
    assert TaskOk(w.gate, w.lock, w.bound, t, ts);
    var u := ts.stack[0].umo;
    assert v.tasks[t].stack == ts.stack[1..];
    assert Owners(ts, u) == One(LockedBy(w.lock, u, t));
    assert DepthOf(w.gate, t, u) == LiveHolds(ts, u) >= 1;
    assert DepthOf(v.gate, t, u) == DepthOf(w.gate, t, u) - 1;
    forall x ensures DepthOf(v.gate, t, x) == LiveHolds(v.tasks[t], x) {
      assert DepthOf(w.gate, t, x) == LiveHolds(ts, x);
      assert HoldCount(ts.stack, x) == One(x == u) + HoldCount(ts.stack[1..], x);
      assert LiveHolds(v.tasks[t], x) == LiveHolds(ts, x) - One(x == u);
      if x != u {
        assert DepthOf(v.gate, t, x) == DepthOf(w.gate, t, x);
      }
    }
    forall x ensures Owners(v.tasks[t], x) == One(LockedBy(v.lock, x, t)) {
      assert Owners(ts, x) == One(LockedBy(w.lock, x, t));
    }
  }

  lemma LeaveSendEvents(w: World, t: TaskId)
    requires Inv(w) && LeaveStep(w, t).Some? && w.tasks[t].stack[0].Send?
    ensures var v := LeaveStep(w, t).value;
            && FramesOk(v.tasks[t].stack) && EventsOk(v.gate, v.bound, t, v.tasks[t])
            && WaitOk(v.gate, v.bound, t, v.tasks[t]) && StayedOk(v.tasks[t])
  {
    hide DepthOk, LockOk, Owners, TablesOk;
    var v := LeaveStep(w, t).value;
    var ts := w.tasks[t];
    var rest := ts.stack[1..];
    assert TaskOk(w.gate, w.lock, w.bound, t, ts);
    forall x | BindsEvent(rest, x) || FindLoose(ts.loose, x).Some? ensures SameEvent(w, v, x) {
      OwnEvents(w, t, x);
    }
    EventsKept(w, v, t, rest, ts.loose);
    LooseUniqueStack(ts.loose, ts.stack, rest);
  }

  lemma LeaveSendKeepsInv(w: World, t: TaskId)
    requires Inv(w) && LeaveStep(w, t).Some? && w.tasks[t].stack[0].Send?
    ensures Inv(LeaveStep(w, t).value)
  {
    hide DepthOk, LockOk, FramesOk, EventsOk, WaitOk, StayedOk;
    LeaveSendCounts(w, t);
    LeaveSendEvents(w, t);
    TablesKept(w, LeaveStep(w, t).value, t);
    StepKeepsInv(w, LeaveStep(w, t).value, t);
  }

  lemma BareReleaseCounts(w: World, t: TaskId, e: EventId)
    requires Inv(w) && BareReleaseStep(w, t, e).Some?
    ensures var v := BareReleaseStep(w, t, e).value;
            && DepthOk(v.gate, t, v.tasks[t]) && LockOk(v.lock, t, v.tasks[t])
            && forall t2, u :: t2 != t ==> (LockedBy(v.lock, u, t2) <==> LockedBy(w.lock, u, t2))
  {
    hide EventsUnique, LooseUnique, StayedOk, TablesOk;
    var v := BareReleaseStep(w, t, e).value;
    var ts := w.tasks[t];
    assert TaskOk(w.gate, w.lock, w.bound, t, ts);
    var l := FindLoose(ts.loose, e).value;
    FindLooseIn(ts.loose, e);
    LooseDropped(ts.loose, e, ts.stack);
    assert Owners(ts, l.umo) == One(LockedBy(w.lock, l.umo, t));
    assert DepthOf(w.gate, t, l.umo) == LiveHolds(ts, l.umo);
    forall x ensures DepthOf(v.gate, t, x) == LiveHolds(v.tasks[t], x) {
      assert DepthOf(w.gate, t, x) == LiveHolds(ts, x);
    }
    forall x ensures Owners(v.tasks[t], x) == One(LockedBy(v.lock, x, t)) {
      assert Owners(ts, x) == One(LockedBy(w.lock, x, t));
    }
  }

  lemma BareReleaseEvents(w: World, t: TaskId, e: EventId)
    requires Inv(w) && BareReleaseStep(w, t, e).Some?
    ensures var v := BareReleaseStep(w, t, e).value;
            && FramesOk(v.tasks[t].stack) && EventsOk(v.gate, v.bound, t, v.tasks[t])
            && WaitOk(v.gate, v.bound, t, v.tasks[t]) && StayedOk(v.tasks[t])
  {
    hide DepthOk, LockOk, Owners, TablesOk;
    var v := BareReleaseStep(w, t, e).value;
    var ts := w.tasks[t];
    var l := FindLoose(ts.loose, e).value;
    assert TaskOk(w.gate, w.lock, w.bound, t, ts);
    FindLooseIn(ts.loose, e);
    NotBoundAndLoose(ts.loose, ts.stack, e);
    LooseDropped(ts.loose, e, ts.stack);
    forall x | x in v.tasks[t].loose ensures x in ts.loose {
      DroppedIn(ts.loose, e, x);
    }
    forall x | BindsEvent(ts.stack, x) || FindLoose(v.tasks[t].loose, x).Some? ensures SameEvent(w, v, x) {
      OwnEvents(w, t, x);
    }
    EventsKept(w, v, t, ts.stack, v.tasks[t].loose);
  }

  lemma BareReleaseKeepsInv(w: World, t: TaskId, e: EventId)
    requires Inv(w) && BareReleaseStep(w, t, e).Some?
    ensures Inv(BareReleaseStep(w, t, e).value)
  {
    hide DepthOk, LockOk, FramesOk, StayedOk;
    assert TaskOk(w.gate, w.lock, w.bound, t, w.tasks[t]);
    FindLooseIn(w.tasks[t].loose, e);
    BareReleaseCounts(w, t, e);
    BareReleaseEvents(w, t, e);
    TablesKept(w, BareReleaseStep(w, t, e).value, t);
    StepKeepsInv(w, BareReleaseStep(w, t, e).value, t);
  }

  lemma {:induction false} DroppedIn(loose: seq<Loose>, e: EventId, l: Loose)
    requires l in Dropped(loose, e)
    ensures l in loose
  {
    if loose[0].event != e {
      if l != loose[0] {
        DroppedIn(loose[1..], e, l);
      }
    }
  }
}
