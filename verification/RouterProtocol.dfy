/** Calls that change the routing table while others wait for their write: each works on the copy it took first. */
module RouterProtocol {
  import opened Options
  import opened OrderedDicts
  import opened UmoRouter

  type CallId = nat

  /** A call waits for its write, resumes after it, or is over. */
  datatype Flight =
    | Writing(copy: Routes)
    | Written(copy: Routes)
    | Over(reply: Reply)
    | Cancelled

  datatype World = World(memory: Routes, stored: Routes, flights: map<CallId, Flight>)

  datatype Action =
    | Begin(c: CallId, call: Call)
    | Persist(c: CallId)
    | PersistFails(c: CallId)
    | Assign(c: CallId)
    | Cancel(c: CallId)

  function WithFlight(w: World, c: CallId, f: Flight): World {
    w.(flights := w.flights[c := f])
  }

  /** One step, or None when it is not enabled. */
  function Step(w: World, a: Action): Option<World> {
    match a
    case Begin(c, call) =>
      if c in w.flights then None
      else
        Some(WithFlight(w, c, match BeginCall(w.memory, call)
                              case Refused => Over(ValueError)
                              case NothingToDo => Over(Done)
                              case Writes(copy) => Writing(copy)))
    case Persist(c) =>
      if c !in w.flights || !w.flights[c].Writing? then None
      else Some(WithFlight(w, c, Written(w.flights[c].copy)).(stored := w.flights[c].copy))
    case PersistFails(c) =>
      if c !in w.flights || !w.flights[c].Writing? then None else Some(WithFlight(w, c, Over(StoreFailed)))
    case Assign(c) =>
      if c !in w.flights || !w.flights[c].Written? then None
      else Some(WithFlight(w, c, Over(Done)).(memory := w.flights[c].copy))
    case Cancel(c) =>
      if c !in w.flights || !(w.flights[c].Writing? || w.flights[c].Written?) then None
      else Some(WithFlight(w, c, Cancelled))
  }

  function Run(w: World, actions: seq<Action>): Option<World>
    decreases |actions|
  {
    if actions == [] then Some(w)
    else
      match Step(w, actions[0])
      case None => None
      case Some(v) => Run(v, actions[1..])
  }

  /** After `initialize`, the table in memory is the stored one. */
  function Start(routes: Routes): World {
    World(routes, routes, map[])
  }

  // ---------------------------------------------------------------- which calls made a table

  type Line = seq<(CallId, Call)>

  /** The calls whose edits, in this order, made each table and each copy in flight. */
  datatype Origin = Origin(memory: Line, stored: Line, copies: map<CallId, Line>)

  const NO_CALLS := Origin([], [], map[])

  function Trace(o: Origin, a: Action): Origin {
    match a
    case Begin(c, call) => o.(copies := o.copies[c := o.memory + [(c, call)]])
    case Persist(c) => if c in o.copies then o.(stored := o.copies[c]) else o
    case Assign(c) => if c in o.copies then o.(memory := o.copies[c]) else o
    case _ => o
  }

  function Origins(o: Origin, w: World, actions: seq<Action>): Origin
    decreases |actions|
  {
    if actions == [] || Step(w, actions[0]).None? then o
    else Origins(Trace(o, actions[0]), Step(w, actions[0]).value, actions[1..])
  }

  /** The edits of some calls, one after the other. */
  function Made(initial: Routes, line: Line): Routes
    decreases |line|
  {
    if line == [] then initial else Edited(Made(initial, line[..|line| - 1]), line[|line| - 1].1)
  }

  lemma MadeByOneMore(initial: Routes, line: Line, c: CallId, call: Call)
    ensures Made(initial, line + [(c, call)]) == Edited(Made(initial, line), call)
  {
    assert (line + [(c, call)])[..|line|] == line;
  }

  predicate InFlight(w: World, c: CallId) {
    c in w.flights && (w.flights[c].Writing? || w.flights[c].Written?)
  }

  ghost predicate Explained(w: World, o: Origin, initial: Routes) {
    && ValidRoutes(w.memory) && ValidRoutes(w.stored)
    && w.memory == Made(initial, o.memory) && w.stored == Made(initial, o.stored)
    && forall c :: InFlight(w, c) ==>
         c in o.copies && w.flights[c].copy == Made(initial, o.copies[c]) && ValidRoutes(w.flights[c].copy)
  }

  /** A table handed over is a dictionary. */
  ghost predicate DistinctData(a: Action) {
    a.Begin? && a.call.ReplaceAll? ==> Distinct(a.call.data)
  }

  lemma StepIsExplained(w: World, o: Origin, a: Action, initial: Routes)
    requires Explained(w, o, initial) && DistinctData(a) && Step(w, a).Some?
    ensures Explained(Step(w, a).value, Trace(o, a), initial)
  {
    hide ValidRoutes, Edited, BeginCall;
    if a.Begin? {
      BegunIsEdited(w.memory, a.call);
      MadeByOneMore(initial, o.memory, a.c, a.call);
    }
  }

  ghost predicate AllDistinct(actions: seq<Action>) {
    forall i :: 0 <= i < |actions| ==> DistinctData(actions[i])
  }

  /** The table in memory, the stored one and every copy in flight are made by the edits of the calls on their
      line, in that order, and by no other call's. */
  lemma {:induction false} TablesAreMadeByTheirLines(w: World, o: Origin, actions: seq<Action>, initial: Routes)
    requires Explained(w, o, initial) && AllDistinct(actions) && Run(w, actions).Some?
    ensures Explained(Run(w, actions).value, Origins(o, w, actions), initial)
    decreases |actions|
  {
    hide Explained, Step, Trace, DistinctData;
    if actions != [] {
      assert DistinctData(actions[0]);
      StepIsExplained(w, o, actions[0], initial);
      TablesAreMadeByTheirLines(Step(w, actions[0]).value, Trace(o, actions[0]), actions[1..], initial);
    }
  }

  /** What the calls of a line leave as a UMO's configuration, starting from `before`: the last word counts. */
  function LastWord(line: Line, umo: string, before: Option<string>): Option<string>
    decreases |line|
  {
    if line == [] then before
    else
      match line[|line| - 1].1
      case UpdateOne(u, confId) => if u == umo then Some(confId) else LastWord(line[..|line| - 1], umo, before)
      case DeleteOne(u) => if u == umo then None else LastWord(line[..|line| - 1], umo, before)
      case ReplaceAll(data) => Get(data, umo)
  }

  ghost predicate LineIsDistinct(line: Line) {
    forall i :: 0 <= i < |line| && line[i].1.ReplaceAll? ==> Distinct(line[i].1.data)
  }

  lemma {:induction false} MadeKeepsKeysDistinct(initial: Routes, line: Line)
    requires Distinct(initial) && LineIsDistinct(line)
    ensures Distinct(Made(initial, line))
    decreases |line|
  {
    if line != [] {
      var (init, last) := (line[..|line| - 1], line[|line| - 1].1);
      MadeKeepsKeysDistinct(initial, init);
      match last
      case UpdateOne(u, confId) => PutKeys(Made(initial, init), u, confId);
      case DeleteOne(u) => RemoveKeys(Made(initial, init), u);
      case ReplaceAll(data) =>
    }
  }

  lemma {:induction false} MadeSaysLastWord(initial: Routes, line: Line, umo: string)
    requires Distinct(initial) && LineIsDistinct(line)
    ensures Get(Made(initial, line), umo) == LastWord(line, umo, Get(initial, umo))
    decreases |line|
  {
    if line != [] {
      var (init, last) := (line[..|line| - 1], line[|line| - 1].1);
      MadeSaysLastWord(initial, init, umo);
      MadeKeepsKeysDistinct(initial, init);
      match last
      case UpdateOne(u, confId) => GetPut(Made(initial, init), u, confId, umo);
      case DeleteOne(u) => GetRemove(Made(initial, init), u, umo);
      case ReplaceAll(data) =>
    }
  }

  ghost predicate OriginIsDistinct(o: Origin) {
    LineIsDistinct(o.memory) && LineIsDistinct(o.stored) && forall c :: c in o.copies ==> LineIsDistinct(o.copies[c])
  }

  lemma {:induction false} OriginsAreDistinct(o: Origin, w: World, actions: seq<Action>)
    requires OriginIsDistinct(o) && AllDistinct(actions)
    ensures OriginIsDistinct(Origins(o, w, actions))
    decreases |actions|
  {
    if actions != [] && Step(w, actions[0]).Some? {
      assert DistinctData(actions[0]);
      OriginsAreDistinct(Trace(o, actions[0]), Step(w, actions[0]).value, actions[1..]);
    }
  }

  /** On every run, with failing writes and cancellation anywhere: a route is in the table in memory if and only if
      it is the last word on its UMO among the calls on the table's line, or in the first table if none has one;
      and likewise in the stored table. */
  lemma RouteIsThereIff(initial: Routes, actions: seq<Action>, umo: string, confId: string)
    requires ValidRoutes(initial) && AllDistinct(actions) && Run(Start(initial), actions).Some?
    ensures var (v, o) := (Run(Start(initial), actions).value, Origins(NO_CALLS, Start(initial), actions));
            && (Get(v.memory, umo) == Some(confId) <==> LastWord(o.memory, umo, Get(initial, umo)) == Some(confId))
            && (Get(v.stored, umo) == Some(confId) <==> LastWord(o.stored, umo, Get(initial, umo)) == Some(confId))
  {
    var o := Origins(NO_CALLS, Start(initial), actions);
    TablesAreMadeByTheirLines(Start(initial), NO_CALLS, actions, initial);
    OriginsAreDistinct(NO_CALLS, Start(initial), actions);
    MadeSaysLastWord(initial, o.memory, umo);
    MadeSaysLastWord(initial, o.stored, umo);
  }

  // ---------------------------------------------------------------- when a line has every finished call

  /** The calls that came to assign their copy, in that order. */
  function Assigned(actions: seq<Action>): seq<CallId> {
    if actions == [] then []
    else (if actions[0].Assign? then [actions[0].c] else []) + Assigned(actions[1..])
  }

  function Ids(line: Line): seq<CallId> {
    seq(|line|, i requires 0 <= i < |line| => line[i].0)
  }

  /** Each call that assigns began after the assignment before it; `recent` are those begun since the last one. */
  predicate OneAtATime(actions: seq<Action>, recent: set<CallId>) {
    actions == [] ||
    match actions[0]
    case Begin(c, _) => OneAtATime(actions[1..], recent + {c})
    case Assign(c) => c in recent && OneAtATime(actions[1..], {})
    case _ => OneAtATime(actions[1..], recent)
  }

  /** The copy's line is the table's with the call itself at the end. */
  predicate Extends(copy: Line, memory: Line, c: CallId) {
    |copy| == |memory| + 1 && copy[..|memory|] == memory && copy[|memory|].0 == c
  }

  /** A line is never longer than the number of assignments, and a stale copy's never grows beyond it. */
  ghost predicate LinesAreShort(w: World, o: Origin, recent: set<CallId>, finished: nat) {
    && |o.memory| <= finished
    && forall c :: InFlight(w, c) ==>
         && c in o.copies
         && |o.copies[c]| <= finished + (if c in recent then 1 else 0)
         && (c in recent ==> Extends(o.copies[c], o.memory, c))
  }

  function FreshAfter(recent: set<CallId>, a: Action): set<CallId> {
    match a
    case Begin(c, _) => recent + {c}
    case Assign(_) => {}
    case _ => recent
  }

  lemma StepKeepsLinesShort(w: World, o: Origin, recent: set<CallId>, finished: nat, a: Action)
    requires LinesAreShort(w, o, recent, finished) && Step(w, a).Some?
    ensures LinesAreShort(Step(w, a).value, Trace(o, a), FreshAfter(recent, a), finished + if a.Assign? then 1 else 0)
    ensures a.Assign? && a.c in recent ==>
              |Trace(o, a).memory| == |o.memory| + 1 && Ids(Trace(o, a).memory) == Ids(o.memory) + [a.c]
    ensures a.Assign? && a.c !in recent ==> |Trace(o, a).memory| <= finished
    ensures !a.Assign? ==> Trace(o, a).memory == o.memory
    ensures |o.memory| < finished && a.Assign? ==> |Trace(o, a).memory| <= finished
  {
  }

  /** Once fewer calls show than finished, it stays so; that happens with the first call that does not wait. */
  lemma {:induction false} LossIsForGood(w: World, o: Origin, recent: set<CallId>, finished: nat, actions: seq<Action>)
    requires LinesAreShort(w, o, recent, finished) && Run(w, actions).Some?
    requires |o.memory| < finished || !OneAtATime(actions, recent)
    ensures |Origins(o, w, actions).memory| < finished + |Assigned(actions)|
    decreases |actions|
  {
    hide LinesAreShort, Step, Trace;
    if actions != [] {
      var a := actions[0];
      StepKeepsLinesShort(w, o, recent, finished, a);
      LossIsForGood(Step(w, a).value, Trace(o, a), FreshAfter(recent, a),
                    finished + if a.Assign? then 1 else 0, actions[1..]);
    }
  }

  /** While each call waits for the one before it, all of them show. */
  lemma {:induction false} WaitingLosesNothing(w: World, o: Origin, recent: set<CallId>, actions: seq<Action>)
    requires LinesAreShort(w, o, recent, |o.memory|) && Run(w, actions).Some? && OneAtATime(actions, recent)
    ensures Ids(Origins(o, w, actions).memory) == Ids(o.memory) + Assigned(actions)
    decreases |actions|
  {
    hide LinesAreShort, Step, Trace, Ids;
    if actions != [] {
      var a := actions[0];
      StepKeepsLinesShort(w, o, recent, |o.memory|, a);
      var next := Trace(o, a);
      WaitingLosesNothing(Step(w, a).value, next, FreshAfter(recent, a), actions[1..]);
      if a.Assign? {
        assert Ids(next.memory) + Assigned(actions[1..]) == Ids(o.memory) + ([a.c] + Assigned(actions[1..]));
      }
    }
  }

  /** On every run: the line of the table in memory has every finished call, in the order in which they finished,
      if and only if each of them began after the one before it had finished. */
  lemma LineIsCompleteIff(initial: Routes, actions: seq<Action>)
    requires Run(Start(initial), actions).Some?
    ensures Ids(Origins(NO_CALLS, Start(initial), actions).memory) == Assigned(actions)
            <==> OneAtATime(actions, {})
  {
    var o := Origins(NO_CALLS, Start(initial), actions);
    assert Ids([]) == [] && [] + Assigned(actions) == Assigned(actions);
    assert |Ids(o.memory)| == |o.memory|;
    if OneAtATime(actions, {}) {
      WaitingLosesNothing(Start(initial), NO_CALLS, {}, actions);
    } else {
      LossIsForGood(Start(initial), NO_CALLS, {}, 0, actions);
    }
  }

  // ---------------------------------------------------------------- overlapping updates

  lemma StepFirst(w: World, a: Action, actions: seq<Action>)
    requires Step(w, a).Some?
    ensures Run(w, [a] + actions) == Run(Step(w, a).value, actions)
  {
    assert ([a] + actions)[1..] == actions;
  }

  lemma RunFour(w: World, a: Action, b: Action, c: Action, d: Action) returns (v: World)
    requires Step(w, a).Some? && Step(Step(w, a).value, b).Some?
    requires var m := Step(Step(w, a).value, b).value; Step(m, c).Some? && Step(Step(m, c).value, d).Some?
    ensures var m := Step(Step(w, a).value, b).value; Some(v) == Step(Step(m, c).value, d)
    ensures Run(w, [a, b, c, d]) == Some(v)
  {
    hide Step;
    var w1 := Step(w, a).value;
    var w2 := Step(w1, b).value;
    var w3 := Step(w2, c).value;
    v := Step(w3, d).value;
    StepFirst(w3, d, []);
    StepFirst(w2, c, [d]);
    StepFirst(w1, b, [c, d]);
    StepFirst(w, a, [b, c, d]);
    assert [a] + [b, c, d] == [a, b, c, d] && [b] + [c, d] == [b, c, d] && [c] + [d] == [c, d] && [d] + [] == [d];
    assert Run(v, []) == Some(v);
  }

  /** Both updates copy the table before either writes. */
  function BothBegin(u: string, c: string, u2: string, c2: string): seq<Action> {
    [Begin(0, UpdateOne(u, c))] + [Begin(1, UpdateOne(u2, c2))]
  }

  lemma BothCopied(initial: Routes, u: string, c: string, u2: string, c2: string, rest: seq<Action>) returns (w: World)
    requires ValidRoute(u, c) && ValidRoute(u2, c2)
    ensures w == World(initial, initial, map[0 := Writing(Put(initial, u, c)), 1 := Writing(Put(initial, u2, c2))])
    ensures Run(Start(initial), BothBegin(u, c, u2, c2) + rest) == Run(w, rest)
  {
    hide Put, ValidRoute;
    var (a, b) := (Begin(0, UpdateOne(u, c)), Begin(1, UpdateOne(u2, c2)));
    var w1 := Step(Start(initial), a).value;
    w := Step(w1, b).value;
    StepFirst(w1, b, rest);
    StepFirst(Start(initial), a, [b] + rest);
    assert BothBegin(u, c, u2, c2) + rest == [a] + ([b] + rest);
  }

  /** Two updates of different UMOs that both copied the table before either wrote: both report success, and the
      first one's route is what it was before. */
  lemma OverlappingUpdateIsLost(initial: Routes, u: string, c: string, u2: string, c2: string) returns (v: World)
    requires ValidRoute(u, c) && ValidRoute(u2, c2) && u != u2
    ensures Run(Start(initial), BothBegin(u, c, u2, c2) + [Persist(0), Assign(0), Persist(1), Assign(1)]) == Some(v)
    ensures v == World(Put(initial, u2, c2), Put(initial, u2, c2), map[0 := Over(Done), 1 := Over(Done)])
    ensures Get(v.memory, u) == Get(initial, u)
  {
    hide Put, Get, ValidRoute, BeginCall;
    var w := BothCopied(initial, u, c, u2, c2, [Persist(0), Assign(0), Persist(1), Assign(1)]);
    var (first, second) := (Put(initial, u, c), Put(initial, u2, c2));
    var w1 := Step(w, Persist(0)).value;
    assert w1 == World(initial, first, map[0 := Written(first), 1 := Writing(second)]);
    var w2 := Step(w1, Assign(0)).value;
    assert w2 == World(first, first, map[0 := Over(Done), 1 := Writing(second)]);
    var w3 := Step(w2, Persist(1)).value;
    assert w3 == World(first, second, map[0 := Over(Done), 1 := Written(second)]);
    v := RunFour(w, Persist(0), Assign(0), Persist(1), Assign(1));
    GetPut(initial, u2, c2, u);
  }

  /** Writes that take effect in one order and resume in the other leave memory and store different. */
  lemma MemoryAndStoreCanDiffer(initial: Routes, u: string, c: string, u2: string, c2: string) returns (v: World)
    requires ValidRoute(u, c) && ValidRoute(u2, c2) && u != u2
    ensures Run(Start(initial), BothBegin(u, c, u2, c2) + [Persist(0), Persist(1), Assign(1), Assign(0)]) == Some(v)
    ensures v == World(Put(initial, u, c), Put(initial, u2, c2), map[0 := Over(Done), 1 := Over(Done)])
  {
    hide Put, Get, ValidRoute, BeginCall;
    var w := BothCopied(initial, u, c, u2, c2, [Persist(0), Persist(1), Assign(1), Assign(0)]);
    var (first, second) := (Put(initial, u, c), Put(initial, u2, c2));
    var w1 := Step(w, Persist(0)).value;
    assert w1 == World(initial, first, map[0 := Written(first), 1 := Writing(second)]);
    var w2 := Step(w1, Persist(1)).value;
    assert w2 == World(initial, second, map[0 := Written(first), 1 := Written(second)]);
    var w3 := Step(w2, Assign(1)).value;
    assert w3 == World(second, second, map[0 := Written(first), 1 := Over(Done)]);
    v := RunFour(w, Persist(0), Persist(1), Assign(1), Assign(0));
  }
}
