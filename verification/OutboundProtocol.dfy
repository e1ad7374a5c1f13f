/** Tasks sending through one outbound gate: every interleaving of concurrent turns, plain sends and holds that a
    bare event send makes without a bound turn. */
module OutboundProtocol {
  import opened Options
  import opened OutboundGate

  datatype Mode = Unheld | Nests | Owns

  /** What one task has entered and not yet left; the innermost frame comes first. */
  datatype Frame =
    | Turn(event: EventId, umo: Umo, mode: Mode)
    | Send(umo: Umo, owner: bool)

  /** A hold made without a bound turn and not released yet. */
  datatype Loose = Loose(event: EventId, umo: Umo, owns: bool)

  /** `loose` marks a `hold_turn` without a bound turn. */
  datatype Wait =
    | Ready
    | HoldWaits(event: EventId, umo: Umo, loose: bool)     // in `hold_turn`, waiting for the lock
    | HoldAcquired(event: EventId, umo: Umo, loose: bool)  // in `hold_turn`, lock taken and not yet registered
    | SendWaits(umo: Umo)                                  // in `around_send`, waiting for the lock

  /** `leaked` lists the locks whose handle was dropped while other holds nested in it; `strayed` says whether the
      task ever held without a bound turn. */
  datatype TaskState = TaskState(stack: seq<Frame>, wait: Wait, loose: seq<Loose>, leaked: set<Umo>, strayed: bool)

  const NEW_TASK := TaskState([], Ready, [], {}, false)

  /** `bound` says which task uses an event: for a turn, or for a hold without one. */
  datatype World = World(
    gate: GateState,
    lock: map<Umo, TaskId>,
    bound: map<EventId, TaskId>,
    tasks: seq<TaskState>)

  datatype Action =
    | Bind(t: TaskId, e: EventId, u: Umo)
    | BindAgain(t: TaskId, e: EventId)
    | Hold(t: TaskId)
    | BareHold(t: TaskId, e: EventId, u: Umo)
    | EnterAround(t: TaskId, u: Umo)
    | Acquire(t: TaskId)
    | Registered(t: TaskId)
    | AbortWait(t: TaskId)
    | Leave(t: TaskId)
    | BareRelease(t: TaskId, e: EventId)

  /** The turn bound in the task's context: its innermost one. */
  function CurrentTurn(stack: seq<Frame>): (turn: Option<Frame>)
    ensures turn.Some? ==> turn.value.Turn?
  {
    if stack == [] then None
    else if stack[0].Turn? then Some(stack[0])
    else CurrentTurn(stack[1..])
  }

  function SetMode(stack: seq<Frame>, e: EventId, m: Mode): seq<Frame> {
    if stack == [] then []
    else if stack[0].Turn? && stack[0].event == e then [stack[0].(mode := m)] + stack[1..]
    else [stack[0]] + SetMode(stack[1..], e, m)
  }

  function Dropped(loose: seq<Loose>, e: EventId): seq<Loose> {
    if loose == [] then []
    else if loose[0].event == e then loose[1..]
    else [loose[0]] + Dropped(loose[1..], e)
  }

  /** The hold of an event among those made without a bound turn. */
  function FindLoose(loose: seq<Loose>, e: EventId): Option<Loose> {
    if loose == [] then None
    else if loose[0].event == e then Some(loose[0])
    else FindLoose(loose[1..], e)
  }

  function WithTask(w: World, t: TaskId, ts: TaskState): World
    requires t < |w.tasks|
  {
    w.(tasks := w.tasks[t := ts])
  }

  /** `serialize_group_outbound` enters `around_send` only when another turn holds the UMO and the task's own
      turn, if it has one, was held first and is for a different UMO. */
  predicate MayEnterAround(w: World, t: TaskId, u: Umo)
    requires t < |w.tasks|
  {
    && HasTurnHolder(w.gate, u)
    && match CurrentTurn(w.tasks[t].stack)
       case None => true
       case Some(turn) => turn.mode != Unheld && turn.umo != u
  }

  function BindStep(w: World, t: TaskId, e: EventId, u: Umo): Option<World> {
    if t >= |w.tasks| || !w.tasks[t].wait.Ready? || e in w.bound then None
    else
      Some(WithTask(w, t, w.tasks[t].(stack := [Turn(e, u, Unheld)] + w.tasks[t].stack))
           .(bound := w.bound[e := t]))
  }

  /** A turn is bound for an event that its task holds without one. The hold is the turn's from then on: the turn
      finds it registered and releases it at its end. */
  function BindAgainStep(w: World, t: TaskId, e: EventId): Option<World> {
    if t >= |w.tasks| || !w.tasks[t].wait.Ready? || FindLoose(w.tasks[t].loose, e).None? then None
    else
      var l := FindLoose(w.tasks[t].loose, e).value;
      Some(WithTask(w, t, w.tasks[t].(stack := [Turn(e, l.umo, if l.owns then Owns else Nests)] + w.tasks[t].stack,
                                      loose := Dropped(w.tasks[t].loose, e))))
  }

  function HoldStep(w: World, t: TaskId): Option<World> {
    if t >= |w.tasks| || !w.tasks[t].wait.Ready? then None
    else
      var turn := CurrentTurn(w.tasks[t].stack);
      if turn.None? then None
      else
        var (e, u) := (turn.value.event, turn.value.umo);
        var (g, r) := Reserve(w.gate, t, u, e);
        var ts := match r
          case AlreadyHeld => w.tasks[t]
          case Nested => w.tasks[t].(stack := SetMode(w.tasks[t].stack, e, Nests))
          case MustWait => w.tasks[t].(wait := HoldWaits(e, u, false));
        Some(WithTask(w, t, ts).(gate := g))
  }

  /** `event.send` in a task without a bound turn holds for the event itself; one task uses an event. */
  function BareHoldStep(w: World, t: TaskId, e: EventId, u: Umo): Option<World> {
    if t >= |w.tasks| || !w.tasks[t].wait.Ready? || CurrentTurn(w.tasks[t].stack).Some? then None
    else if e in w.bound && w.bound[e] != t then None
    else
      var (g, r) := Reserve(w.gate, t, u, e);
      match r
      case AlreadyHeld => Some(w)
      case Nested =>
        Some(WithTask(w, t, w.tasks[t].(loose := w.tasks[t].loose + [Loose(e, u, false)], strayed := true))
             .(gate := g, bound := w.bound[e := t]))
      case MustWait =>
        Some(WithTask(w, t, w.tasks[t].(wait := HoldWaits(e, u, true), strayed := true))
             .(gate := g, bound := w.bound[e := t]))
  }

  function EnterStep(w: World, t: TaskId, u: Umo): Option<World> {
    if t >= |w.tasks| || !w.tasks[t].wait.Ready? || !MayEnterAround(w, t, u) then None
    else
      var (g, nested) := EnterSend(w.gate, t, u);
      var ts := if nested then w.tasks[t].(stack := [Send(u, false)] + w.tasks[t].stack)
                else w.tasks[t].(wait := SendWaits(u));
      Some(WithTask(w, t, ts).(gate := g))
  }

  function AcquireStep(w: World, t: TaskId): Option<World> {
    if t >= |w.tasks| then None
    else
      match w.tasks[t].wait
      case HoldWaits(e, u, loose) =>
        if u in w.lock then None
        else Some(WithTask(w, t, w.tasks[t].(wait := HoldAcquired(e, u, loose))).(lock := w.lock[u := t]))
      case SendWaits(u) =>
        if u in w.lock then None
        else
          Some(WithTask(w, t, w.tasks[t].(stack := [Send(u, true)] + w.tasks[t].stack, wait := Ready))
               .(lock := w.lock[u := t], gate := SendAcquired(w.gate, t, u)))
      case _ => None
  }

  function RegisteredStep(w: World, t: TaskId): Option<World> {
    if t >= |w.tasks| || !w.tasks[t].wait.HoldAcquired? then None
    else
      var HoldAcquired(e, u, loose) := w.tasks[t].wait;
      var ts := if loose then w.tasks[t].(wait := Ready, loose := w.tasks[t].loose + [Loose(e, u, true)])
                else w.tasks[t].(wait := Ready, stack := SetMode(w.tasks[t].stack, e, Owns));
      Some(WithTask(w, t, ts).(gate := Register(w.gate, t, u, e)))
  }

  function AbortStep(w: World, t: TaskId): Option<World> {
    if t >= |w.tasks| then None
    else
      match w.tasks[t].wait
      case HoldWaits(e, u, loose) =>
        Some(WithTask(w, t, w.tasks[t].(wait := Ready))
             .(gate := Abandon(w.gate, e), bound := if loose then w.bound - {e} else w.bound))
      case SendWaits(u) => Some(WithTask(w, t, w.tasks[t].(wait := Ready)))
      case _ => None
  }

  function LeaveStep(w: World, t: TaskId): Option<World> {
    if t >= |w.tasks| || !w.tasks[t].wait.Ready? || w.tasks[t].stack == [] then None
    else
      var rest := w.tasks[t].(stack := w.tasks[t].stack[1..]);
      match w.tasks[t].stack[0]
      case Turn(e, u, mode) =>
        var (g, unlock) := ReleaseTurn(w.gate, t, e);
        Some(WithTask(w, t, rest.(leaked := rest.leaked + if mode == Owns && unlock.None? then {u} else {}))
             .(gate := g, bound := w.bound - {e},
             lock := if unlock.Some? then w.lock - {unlock.value} else w.lock))
      case Send(u, owner) =>
        Some(WithTask(w, t, rest)
             .(gate := LeaveSend(w.gate, t, u), lock := if owner then w.lock - {u} else w.lock))
  }

  /** `release_turn` for a hold made without a bound turn; as at the end of a turn, the handle is dropped, unused,
      while other holds of the task nest in it. */
  function BareReleaseStep(w: World, t: TaskId, e: EventId): Option<World> {
    if t >= |w.tasks| || !w.tasks[t].wait.Ready? || FindLoose(w.tasks[t].loose, e).None? then None
    else
      var l := FindLoose(w.tasks[t].loose, e).value;
      var (g, unlock) := ReleaseTurn(w.gate, t, e);
      var ts := w.tasks[t].(loose := Dropped(w.tasks[t].loose, e),
                            leaked := w.tasks[t].leaked + if l.owns && unlock.None? then {l.umo} else {});
      Some(WithTask(w, t, ts)
           .(gate := g, bound := w.bound - {e},
           lock := if unlock.Some? then w.lock - {unlock.value} else w.lock))
  }

  function Step(w: World, a: Action): Option<World> {
    match a
    case Bind(t, e, u) => BindStep(w, t, e, u)
    case BindAgain(t, e) => BindAgainStep(w, t, e)
    case Hold(t) => HoldStep(w, t)
    case BareHold(t, e, u) => BareHoldStep(w, t, e, u)
    case EnterAround(t, u) => EnterStep(w, t, u)
    case Acquire(t) => AcquireStep(w, t)
    case Registered(t) => RegisteredStep(w, t)
    case AbortWait(t) => AbortStep(w, t)
    case Leave(t) => LeaveStep(w, t)
    case BareRelease(t, e) => BareReleaseStep(w, t, e)
  }

  function Run(w: World, actions: seq<Action>): Option<World>
    decreases |actions|
  {
    if actions == [] then Some(w)
    else
      match Step(w, actions[0])
      case None => None
      case Some(v) => Run(v, actions[1..])
  }

  function Start(taskCount: nat): World {
    World(GateState(map[], map[], {}, map[]), map[], map[], seq(taskCount, _ => NEW_TASK))
  }

  ghost predicate Reachable(taskCount: nat, w: World) {
    exists actions :: Run(Start(taskCount), actions) == Some(w)
  }

  /** The task is back at its top level; holds it made without a turn may still be registered. */
  predicate Idle(ts: TaskState) {
    ts.stack == [] && ts.wait.Ready?
  }

  ghost predicate Finished(w: World) {
    forall t :: 0 <= t < |w.tasks| ==> Idle(w.tasks[t])
  }
}
