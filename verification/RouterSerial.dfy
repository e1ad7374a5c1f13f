/** When overlapping changes leave the table that the finished calls make one after the other. */
module RouterSerial {
  import opened Options
  import opened OrderedDicts
  import opened NoRepeats
  import opened UmoRouter
  import opened RouterProtocol

  // ---------------------------------------------------------------- which call an id stands for

  /** The call that began under this id. */
  function CallOf(actions: seq<Action>, c: CallId): Option<Call>
    decreases |actions|
  {
    if actions == [] then None
    else if actions[0].Begin? && actions[0].c == c then Some(actions[0].call)
    else CallOf(actions[1..], c)
  }

  /** The calls with these ids, as they began. */
  function BegunLine(actions: seq<Action>, ids: seq<CallId>): Line {
    if ids == [] then []
    else
      (match CallOf(actions, ids[0])
       case None => []
       case Some(call) => [(ids[0], call)])
      + BegunLine(actions, ids[1..])
  }

  /** Every entry is a call that began under its id. */
  ghost predicate LineBegan(all: seq<Action>, line: Line) {
    forall i :: 0 <= i < |line| ==> CallOf(all, line[i].0) == Some(line[i].1)
  }

  ghost predicate OriginBegan(all: seq<Action>, o: Origin) {
    LineBegan(all, o.memory) && forall c :: c in o.copies ==> LineBegan(all, o.copies[c])
  }

  /** From here on each `Begin` is the one its id stands for. */
  ghost predicate BeginsAreFirst(all: seq<Action>, actions: seq<Action>) {
    forall i :: 0 <= i < |actions| && actions[i].Begin? ==> CallOf(all, actions[i].c) == Some(actions[i].call)
  }

  lemma {:induction false} NoSecondBegin(w: World, actions: seq<Action>, c: CallId)
    requires c in w.flights && Run(w, actions).Some?
    ensures forall i :: 0 <= i < |actions| && actions[i].Begin? ==> actions[i].c != c
    decreases |actions|
  {
    if actions != [] {
      assert c in Step(w, actions[0]).value.flights;
      NoSecondBegin(Step(w, actions[0]).value, actions[1..], c);
    }
  }

  lemma {:induction false} RunBeginsOnce(w: World, actions: seq<Action>)
    requires Run(w, actions).Some?
    ensures BeginsAreFirst(actions, actions)
    decreases |actions|
  {
    if actions != [] {
      var v := Step(w, actions[0]).value;
      RunBeginsOnce(v, actions[1..]);
      if actions[0].Begin? {
        NoSecondBegin(v, actions[1..], actions[0].c);
      }
      forall i | 0 <= i < |actions| && actions[i].Begin?
        ensures CallOf(actions, actions[i].c) == Some(actions[i].call)
      {
        assert i > 0 ==> actions[i] == actions[1..][i - 1];
      }
    }
  }

  lemma {:induction false} OriginsBegan(all: seq<Action>, o: Origin, w: World, actions: seq<Action>)
    requires OriginBegan(all, o) && BeginsAreFirst(all, actions) && Run(w, actions).Some?
    ensures OriginBegan(all, Origins(o, w, actions))
    decreases |actions|
  {
    if actions != [] {
      TraceBegan(all, o, actions[0]);
      forall i | 0 <= i < |actions[1..]| && actions[1..][i].Begin?
        ensures CallOf(all, actions[1..][i].c) == Some(actions[1..][i].call)
      {
        assert actions[1..][i] == actions[i + 1];
      }
      hide OriginBegan, Step, Trace;
      OriginsBegan(all, Trace(o, actions[0]), Step(w, actions[0]).value, actions[1..]);
    }
  }

  lemma TraceBegan(all: seq<Action>, o: Origin, a: Action)
    requires OriginBegan(all, o) && (a.Begin? ==> CallOf(all, a.c) == Some(a.call))
    ensures OriginBegan(all, Trace(o, a))
  {
  }

  lemma {:induction false} LineIsBegunLine(all: seq<Action>, line: Line)
    requires LineBegan(all, line)
    ensures line == BegunLine(all, Ids(line))
  {
    if line != [] {
      assert Ids(line)[1..] == Ids(line[1..]);
      forall i | 0 <= i < |line[1..]| ensures CallOf(all, line[1..][i].0) == Some(line[1..][i].1) {
        assert line[1..][i] == line[i + 1];
      }
      LineIsBegunLine(all, line[1..]);
      assert line == [line[0]] + line[1..];
    }
  }

  /** Calls that do not overlap leave the table that they make one after the other, in the order in which they
      finish; calls that were refused, failed or cancelled leave no trace. */
  lemma OneAtATimeIsSerial(initial: Routes, actions: seq<Action>)
    requires ValidRoutes(initial) && AllDistinct(actions) && Run(Start(initial), actions).Some?
    requires OneAtATime(actions, {})
    ensures Run(Start(initial), actions).value.memory == Made(initial, BegunLine(actions, Assigned(actions)))
  {
    var o := Origins(NO_CALLS, Start(initial), actions);
    TablesAreMadeByTheirLines(Start(initial), NO_CALLS, actions, initial);
    LineIsCompleteIff(initial, actions);
    RunBeginsOnce(Start(initial), actions);
    OriginsBegan(actions, NO_CALLS, Start(initial), actions);
    LineIsBegunLine(actions, o.memory);
  }

  // ---------------------------------------------------------------- when every finished update shows

  /** All calls set a route, no two the same one, and none that is there from the start. */
  ghost predicate ChangesApart(initial: Routes, actions: seq<Action>) {
    && (forall i :: 0 <= i < |actions| && actions[i].Begin? ==>
          actions[i].call.UpdateOne? && Get(initial, actions[i].call.umo) != Some(actions[i].call.confId))
    && (forall i, j :: 0 <= i < j < |actions| && actions[i].Begin? && actions[j].Begin?
                       && actions[i].call.UpdateOne? && actions[j].call.UpdateOne? ==>
          actions[i].call.umo != actions[j].call.umo)
  }

  /** Every finished update's route is in the table. */
  ghost predicate AllShow(memory: Routes, actions: seq<Action>) {
    forall c | c in Assigned(actions) ::
      match CallOf(actions, c)
      case Some(UpdateOne(umo, confId)) => Get(memory, umo) == Some(confId)
      case _ => true
  }

  lemma {:induction false} CallBegan(actions: seq<Action>, c: CallId) returns (i: nat)
    requires CallOf(actions, c).Some?
    ensures i < |actions| && actions[i].Begin? && actions[i].c == c && actions[i].call == CallOf(actions, c).value
    decreases |actions|
  {
    if actions[0].Begin? && actions[0].c == c {
      i := 0;
    } else {
      var j := CallBegan(actions[1..], c);
      i := j + 1;
    }
  }

  lemma UmosApart(initial: Routes, actions: seq<Action>, c: CallId, d: CallId)
    requires ChangesApart(initial, actions) && CallOf(actions, c).Some? && CallOf(actions, d).Some?
    ensures CallOf(actions, c).value.UpdateOne? && CallOf(actions, d).value.UpdateOne?
    ensures Get(initial, CallOf(actions, c).value.umo) != Some(CallOf(actions, c).value.confId)
    ensures c != d ==> CallOf(actions, c).value.umo != CallOf(actions, d).value.umo
  {
    var i := CallBegan(actions, c);
    var j := CallBegan(actions, d);
  }

  /** The last word on a call's UMO is the call's own if it is on the line, and the first table's otherwise. */
  lemma {:induction false} LastWordIs(initial: Routes, all: seq<Action>, line: Line, c: CallId)
    requires ChangesApart(initial, all) && LineBegan(all, line) && CallOf(all, c).Some?
    ensures CallOf(all, c).value.UpdateOne?
    ensures var call := CallOf(all, c).value;
            LastWord(line, call.umo, Get(initial, call.umo))
            == if c in Ids(line) then Some(call.confId) else Get(initial, call.umo)
    decreases |line|
  {
    UmosApart(initial, all, c, c);
    if line != [] {
      var n := |line| - 1;
      assert Ids(line) == Ids(line[..n]) + [line[n].0];
      LastWordIs(initial, all, line[..n], c);
      UmosApart(initial, all, c, line[n].0);
    }
  }

  /** An assignment ends its call, and a call that is over stays over. */
  lemma OverForGood(w: World, a: Action, c: CallId)
    requires Step(w, a).Some? && c in w.flights
    ensures c in Step(w, a).value.flights
    ensures a == Assign(c) ==> w.flights[c].Written? && Step(w, a).value.flights[c].Over?
    ensures w.flights[c].Over? || w.flights[c].Cancelled? ==> Step(w, a).value.flights[c] == w.flights[c]
  {
    hide BeginCall;
  }

  lemma OnlyInFlightAssign(w: World, a: Action)
    requires Step(w, a).Some? && a.Assign?
    ensures a.c in w.flights
  {
  }

  lemma {:induction false} AssignedOnce(w: World, actions: seq<Action>)
    requires Run(w, actions).Some?
    ensures NoRepeat(Assigned(actions))
    ensures forall c | c in Assigned(actions) && c in w.flights :: !w.flights[c].Over? && !w.flights[c].Cancelled?
    decreases |actions|
  {
    hide Step;
    if actions != [] {
      var (a, v, rest) := (actions[0], Step(w, actions[0]).value, Assigned(actions[1..]));
      AssignedOnce(v, actions[1..]);
      if a.Assign? {
        OnlyInFlightAssign(w, a);
        OverForGood(w, a, a.c);
        assert a.c !in rest;
        assert Assigned(actions) == [a.c] + rest;
        assert ([a.c] + rest)[1..] == rest;
      } else {
        assert Assigned(actions) == [] + rest == rest;
      }
      forall c | c in Assigned(actions) && c in w.flights ensures !w.flights[c].Over? && !w.flights[c].Cancelled? {
        OverForGood(w, a, c);
      }
    }
  }

  lemma {:induction false} AssignedBegan(w: World, actions: seq<Action>, c: CallId)
    requires Run(w, actions).Some? && c in Assigned(actions) && c !in w.flights
    ensures CallOf(actions, c).Some?
    decreases |actions|
  {
    if !(actions[0].Begin? && actions[0].c == c) {
      AssignedBegan(Step(w, actions[0]).value, actions[1..], c);
    }
  }

  /** Of more ids without repetition than there are on a list, one is not on it. */
  lemma {:induction false} OneIsMissing(ids: seq<CallId>, shorter: seq<CallId>) returns (c: CallId)
    requires NoRepeat(ids) && |shorter| < |ids|
    ensures c in ids && c !in shorter
    decreases |ids|
  {
    if ids[0] !in shorter {
      c := ids[0];
    } else {
      var i :| 0 <= i < |shorter| && shorter[i] == ids[0];
      var rest := shorter[..i] + shorter[i + 1..];
      forall j | 0 <= j < |shorter| && j != i ensures shorter[j] in rest {
        assert shorter[j] == if j < i then rest[j] else rest[j - 1];
      }
      c := OneIsMissing(ids[1..], rest);
    }
  }

  /** A finished update shows in the table if and only if it is on the table's line. */
  lemma ShowsIff(initial: Routes, actions: seq<Action>, c: CallId)
    requires ValidRoutes(initial) && ChangesApart(initial, actions) && Run(Start(initial), actions).Some?
    requires c in Assigned(actions)
    ensures CallOf(actions, c).Some? && CallOf(actions, c).value.UpdateOne?
    ensures var (call, v) := (CallOf(actions, c).value, Run(Start(initial), actions).value);
            Get(v.memory, call.umo) == Some(call.confId)
            <==> c in Ids(Origins(NO_CALLS, Start(initial), actions).memory)
  {
    var o := Origins(NO_CALLS, Start(initial), actions);
    AssignedBegan(Start(initial), actions, c);
    UmosApart(initial, actions, c, c);
    var call := CallOf(actions, c).value;
    RunBeginsOnce(Start(initial), actions);
    OriginsBegan(actions, NO_CALLS, Start(initial), actions);
    LastWordIs(initial, actions, o.memory, c);
    RouteIsThereIff(initial, actions, call.umo, call.confId);
  }

  /** Updates of different routes, each of which changes something: every finished one's route is in the table if and
      only if each began after the one before it had finished. */
  lemma AllShowIff(initial: Routes, actions: seq<Action>)
    requires ValidRoutes(initial) && ChangesApart(initial, actions) && Run(Start(initial), actions).Some?
    ensures AllShow(Run(Start(initial), actions).value.memory, actions) <==> OneAtATime(actions, {})
  {
    var o := Origins(NO_CALLS, Start(initial), actions);
    var memory := Run(Start(initial), actions).value.memory;
    LineIsCompleteIff(initial, actions);
    forall c | c in Assigned(actions)
      ensures CallOf(actions, c).Some? && CallOf(actions, c).value.UpdateOne?
      ensures Get(memory, CallOf(actions, c).value.umo) == Some(CallOf(actions, c).value.confId) <==> c in Ids(o.memory)
    {
      ShowsIff(initial, actions, c);
    }
    if !OneAtATime(actions, {}) {
      LossIsForGood(Start(initial), NO_CALLS, {}, 0, actions);
      AssignedOnce(Start(initial), actions);
      var c := OneIsMissing(Assigned(actions), Ids(o.memory));
      assert Get(memory, CallOf(actions, c).value.umo) != Some(CallOf(actions, c).value.confId);
    }
  }
}
