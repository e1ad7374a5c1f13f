/** Routing a unified message origin to a configuration: rank the routes, take the first that matches. */
module UmoRouter {
  import opened Options
  import opened OrderedDicts
  import opened GlobPatterns

  type Routes = ODict<string, string>

  datatype Parts = Parts(platform: string, kind: string, session: string)

  /** What stands before and after the first colon, if there is one. */
  function Partition(s: string): (r: Option<(string, string)>)
    ensures r.Some? ==> s == r.value.0 + ":" + r.value.1 && ':' !in r.value.0
    ensures r.None? <==> ':' !in s
  {
    if s == [] then None
    else if s[0] == ':' then Some(([], s[1..]))
    else
      match Partition(s[1..])
      case None => None
      case Some((head, tail)) => Some(([s[0]] + head, tail))
  }

  /** A UMO is cut at its first two colons; the session id keeps the others. */
  function SplitUmo(umo: string): Option<Parts> {
    match Partition(umo)
    case None => None
    case Some((platform, rest)) =>
      match Partition(rest)
      case None => None
      case Some((kind, session)) => Some(Parts(platform, kind, session))
  }

  predicate SegmentMatch(pattern: string, text: string) {
    pattern == "" || FnMatch(text, pattern)
  }

  predicate IsUmoMatch(pattern: string, umo: string) {
    var p := SplitUmo(pattern);
    var t := SplitUmo(umo);
    && p.Some? && t.Some?
    && SegmentMatch(p.value.platform, t.value.platform)
    && SegmentMatch(p.value.kind, t.value.kind)
    && SegmentMatch(p.value.session, t.value.session)
  }

  function LiteralLength(segment: string): nat {
    if segment == [] then 0
    else (if IsGlobChar(segment[0]) then 0 else 1) + LiteralLength(segment[1..])
  }

  function SegmentPriority(segment: string): (int, int) {
    if segment == "" || segment == "*" then (0, 0)
    else if HasGlob(segment) then (1, LiteralLength(segment))
    else (2, |segment|)
  }

  /** A priority tuple, flattened: category and length of platform, message type and session. */
  datatype Priority = Priority(c0: int, l0: int, c1: int, l1: int, c2: int, l2: int)

  function RoutePriority(pattern: string): Priority {
    match SplitUmo(pattern)
    case None => Priority(-1, -1, -1, -1, -1, -1)
    case Some(p) =>
      var (a, b, c) := (SegmentPriority(p.platform), SegmentPriority(p.kind), SegmentPriority(p.session));
      Priority(a.0, a.1, b.0, b.1, c.0, c.1)
  }

  /** Tuple comparison. */
  predicate Less(a: Priority, b: Priority) {
    a.c0 < b.c0 || (a.c0 == b.c0 && (a.l0 < b.l0 || (a.l0 == b.l0 &&
    (a.c1 < b.c1 || (a.c1 == b.c1 && (a.l1 < b.l1 || (a.l1 == b.l1 &&
    (a.c2 < b.c2 || (a.c2 == b.c2 && a.l2 < b.l2)))))))))
  }

  /** Stable sort, highest priority first: a route goes behind those that do not rank below it. */
  function InsertRanked(ranked: Routes, r: (string, string)): Routes {
    if ranked == [] then [r]
    else if Less(RoutePriority(ranked[0].0), RoutePriority(r.0)) then [r] + ranked
    else [ranked[0]] + InsertRanked(ranked[1..], r)
  }

  function Ranked(routes: Routes): Routes {
    if routes == [] then [] else InsertRanked(Ranked(routes[..|routes| - 1]), routes[|routes| - 1])
  }

  function FirstMatch(routes: Routes, umo: string): Option<(string, string)> {
    if routes == [] then None
    else if IsUmoMatch(routes[0].0, umo) then Some(routes[0])
    else FirstMatch(routes[1..], umo)
  }

  ghost predicate Sorted(ranked: Routes) {
    ranked == [] ||
    ((forall r | r in ranked[1..] :: !Less(RoutePriority(ranked[0].0), RoutePriority(r.0))) && Sorted(ranked[1..]))
  }

  /** The route at `i` matches, no matching route ranks higher, and none of the same rank came earlier. */
  ghost predicate Wins(routes: Routes, i: nat, umo: string) {
    && i < |routes| && IsUmoMatch(routes[i].0, umo)
    && forall j | 0 <= j < |routes| && IsUmoMatch(routes[j].0, umo) ::
         var (p, q) := (RoutePriority(routes[i].0), RoutePriority(routes[j].0));
         !Less(p, q) && (p == q ==> i <= j)
  }

  lemma {:induction false} InsertKeepsSorted(ranked: Routes, r: (string, string))
    requires Sorted(ranked)
    ensures Sorted(InsertRanked(ranked, r))
    ensures forall x :: x in InsertRanked(ranked, r) <==> x in ranked || x == r
  {
    if ranked != [] {
      assert ranked == [ranked[0]] + ranked[1..];
      if !Less(RoutePriority(ranked[0].0), RoutePriority(r.0)) {
        InsertKeepsSorted(ranked[1..], r);
        assert InsertRanked(ranked, r)[1..] == InsertRanked(ranked[1..], r);
      } else {
        assert InsertRanked(ranked, r)[1..] == ranked;
      }
    }
  }

  /** The first match after inserting: the new route, unless an old match does not rank below it. */
  lemma {:induction false} FirstMatchAfterInsert(ranked: Routes, r: (string, string), umo: string)
    requires Sorted(ranked)
    ensures FirstMatch(InsertRanked(ranked, r), umo)
            == match FirstMatch(ranked, umo)
               case None => if IsUmoMatch(r.0, umo) then Some(r) else None
               case Some(m) =>
                 if IsUmoMatch(r.0, umo) && Less(RoutePriority(m.0), RoutePriority(r.0)) then Some(r) else Some(m)
  {
    if ranked == [] {
    } else if Less(RoutePriority(ranked[0].0), RoutePriority(r.0)) {
      assert InsertRanked(ranked, r)[1..] == ranked;
      if FirstMatch(ranked, umo).Some? {
        FirstMatchIsIn(ranked, umo);
        assert ranked == [ranked[0]] + ranked[1..];
      }
    } else {
      FirstMatchAfterInsert(ranked[1..], r, umo);
      assert InsertRanked(ranked, r)[1..] == InsertRanked(ranked[1..], r);
    }
  }

  lemma {:induction false} FirstMatchIsIn(routes: Routes, umo: string)
    ensures FirstMatch(routes, umo).Some? ==> FirstMatch(routes, umo).value in routes
  {
    if routes != [] {
      FirstMatchIsIn(routes[1..], umo);
    }
  }

  lemma {:induction false} RankedIsSorted(routes: Routes)
    ensures Sorted(Ranked(routes))
    decreases |routes|
  {
    if routes != [] {
      RankedIsSorted(routes[..|routes| - 1]);
      InsertKeepsSorted(Ranked(routes[..|routes| - 1]), routes[|routes| - 1]);
    }
  }

  lemma LessTransitive(a: Priority, b: Priority, c: Priority)
    requires Less(a, b) && (Less(b, c) || b == c)
    ensures Less(a, c)
  {
  }

  /** The winner among the routes before the last one against the last one. */
  lemma LastAgainstWinner(init: Routes, last: (string, string), i: nat, umo: string)
    requires Wins(init, i, umo)
    ensures if IsUmoMatch(last.0, umo) && Less(RoutePriority(init[i].0), RoutePriority(last.0))
            then Wins(init + [last], |init|, umo) else Wins(init + [last], i, umo)
  {
    hide IsUmoMatch, RoutePriority, Less;
    var (m, p) := (RoutePriority(init[i].0), RoutePriority(last.0));
    if IsUmoMatch(last.0, umo) && Less(m, p) {
      forall j | 0 <= j < |init| && IsUmoMatch(init[j].0, umo)
        ensures !Less(p, RoutePriority(init[j].0)) && p != RoutePriority(init[j].0)
      {
        var q := RoutePriority(init[j].0);
        if Less(p, q) || p == q {
          LessTransitive(m, p, q);
        }
      }
      NotLessThanItself(p);
    }
  }

  lemma NotLessThanItself(p: Priority)
    ensures !Less(p, p)
  {
  }

  /** Sorting and taking the first match finds the winner, and nothing exactly when nothing matches. */
  lemma {:induction false} FirstRankedWins(routes: Routes, umo: string) returns (i: nat)
    ensures FirstMatch(Ranked(routes), umo).None? ==> forall r | r in routes :: !IsUmoMatch(r.0, umo)
    ensures FirstMatch(Ranked(routes), umo).Some?
            ==> Wins(routes, i, umo) && FirstMatch(Ranked(routes), umo).value == routes[i]
    decreases |routes|
  {
    hide IsUmoMatch, RoutePriority, Less;
    i := 0;
    if routes != [] {
      var n := |routes| - 1;
      var (init, last) := (routes[..n], routes[n]);
      RankedIsSorted(init);
      i := FirstRankedWins(init, umo);
      FirstMatchAfterInsert(Ranked(init), last, umo);
      assert routes == init + [last];
      if FirstMatch(Ranked(init), umo).None? {
        i := n;
        NotLessThanItself(RoutePriority(last.0));
        forall j | 0 <= j < n ensures !IsUmoMatch(routes[j].0, umo) {
          assert routes[j] in init;
        }
      } else {
        LastAgainstWinner(init, last, i, umo);
        if IsUmoMatch(last.0, umo) && Less(RoutePriority(init[i].0), RoutePriority(last.0)) {
          i := n;
        }
      }
    }
  }

  /** The configuration a router with these routes gives a UMO. */
  function ConfIdFor(routes: Routes, umo: string): Option<string> {
    match FirstMatch(Ranked(routes), umo)
    case None => None
    case Some(r) => Some(r.1)
  }

  // ---------------------------------------------------------------- exact routes

  /** Three non-empty segments without glob characters. */
  predicate IsLiteralUmo(umo: string) {
    match SplitUmo(umo)
    case None => false
    case Some(p) =>
      && p.platform != "" && !HasGlob(p.platform) && p.kind != "" && !HasGlob(p.kind)
      && p.session != "" && !HasGlob(p.session)
  }

  /** A segment that matches a literal text is that text or of a lower category. */
  lemma LiteralSegmentIsBest(pattern: string, text: string)
    requires text != "" && !HasGlob(text) && SegmentMatch(pattern, text)
    ensures pattern == text || SegmentPriority(pattern).0 < SegmentPriority(text).0
    ensures SegmentMatch(text, text)
  {
    LiteralMatchesItself(text, text);
    if pattern != "" && pattern != "*" && !HasGlob(pattern) {
      LiteralMatchesItself(text, pattern);
    }
  }

  lemma SplitIsInjective(a: string, b: string)
    requires SplitUmo(a).Some? && SplitUmo(a) == SplitUmo(b)
    ensures a == b
  {
  }

  /** Every other route that matches a literal UMO ranks below the route that spells it out. */
  lemma OthersRankLower(pattern: string, umo: string)
    requires IsLiteralUmo(umo) && IsUmoMatch(pattern, umo)
    ensures pattern == umo || Less(RoutePriority(pattern), RoutePriority(umo))
    ensures IsUmoMatch(umo, umo)
  {
    var (p, t) := (SplitUmo(pattern).value, SplitUmo(umo).value);
    LiteralSegmentIsBest(p.platform, t.platform);
    LiteralSegmentIsBest(p.kind, t.kind);
    LiteralSegmentIsBest(p.session, t.session);
    if p == t {
      SplitIsInjective(pattern, umo);
    }
  }

  lemma LiteralMatches(umo: string)
    requires IsLiteralUmo(umo)
    ensures IsUmoMatch(umo, umo)
  {
    var t := SplitUmo(umo).value;
    LiteralMatchesItself(t.platform, t.platform);
    LiteralMatchesItself(t.kind, t.kind);
    LiteralMatchesItself(t.session, t.session);
  }

  /** A stored route that spells a literal UMO out always wins for it. */
  lemma ExactRouteWins(routes: Routes, umo: string)
    requires Distinct(routes) && IsLiteralUmo(umo) && Has(routes, umo)
    ensures ConfIdFor(routes, umo) == Get(routes, umo)
  {
    LiteralMatches(umo);
    GetAt(routes, umo);
    var k :| 0 <= k < |routes| && routes[k].0 == umo;
    assert routes[k] in routes;
    var i := FirstRankedWins(routes, umo);
    OthersRankLower(routes[i].0, umo);
    assert routes[i].0 == umo;
    GetOfItem(routes, i);
  }

  lemma {:induction false} Cuts(head: string, tail: string)
    requires ':' !in head
    ensures Partition(head + ":" + tail) == Some((head, tail))
  {
    var s := head + ":" + tail;
    if head == [] {
      assert s[1..] == tail;
    } else {
      assert s[1..] == head[1..] + ":" + tail;
      Cuts(head[1..], tail);
      assert [head[0]] + head[1..] == head;
    }
  }

  lemma SplitOfParts(platform: string, kind: string, session: string)
    requires ':' !in platform && ':' !in kind
    ensures SplitUmo(platform + ":" + (kind + ":" + session)) == Some(Parts(platform, kind, session))
  {
    Cuts(platform, kind + ":" + session);
    Cuts(kind, session);
  }

  /** Spelling out a UMO with glob characters may not help: a session in brackets does not match its own route. */
  lemma BracketedRouteMissesItself(platform: string, kind: string, c: char)
    requires ':' !in platform && ':' !in kind && c != '!' && c != ']'
    ensures var umo := platform + ":" + (kind + ":" + ['[', c, ']']); !IsUmoMatch(umo, umo)
  {
    hide FnMatch, SplitUmo;
    SplitOfParts(platform, kind, ['[', c, ']']);
    BracketMatchesOneCharacter(c, ['[', c, ']']);
  }

  // ---------------------------------------------------------------- the router object

  datatype Reply = Done | ValueError | StoreFailed

  predicate ValidRoute(umo: string, confId: string) {
    SplitUmo(umo).Some? && confId != ""
  }

  ghost predicate ValidRoutes(routes: Routes) {
    Distinct(routes) && forall u | Has(routes, u) :: ValidRoute(u, Get(routes, u).value)
  }

  /** `_validated_routing_data`: all or nothing. */
  function Validated(data: Routes): Option<Routes> {
    if data == [] then Some([])
    else if !ValidRoute(data[0].0, data[0].1) then None
    else
      match Validated(data[1..])
      case None => None
      case Some(rest) => Some([data[0]] + rest)
  }

  lemma {:induction false} ValidatedIsAllOrNothing(data: Routes)
    requires Distinct(data)
    ensures Validated(data).Some? <==> ValidRoutes(data)
    ensures Validated(data).Some? ==> Validated(data).value == data
  {
    if data != [] {
      ValidatedIsAllOrNothing(data[1..]);
      assert data == [data[0]] + data[1..];
      assert Has(data, data[0].0);
      forall u | Has(data[1..], u) ensures Get(data, u) == Get(data[1..], u) {
        assert u != data[0].0;
      }
    }
  }

  lemma PutIsValid(routes: Routes, umo: string, confId: string)
    requires ValidRoutes(routes) && ValidRoute(umo, confId)
    ensures ValidRoutes(Put(routes, umo, confId))
  {
    PutKeys(routes, umo, confId);
    forall u | Has(Put(routes, umo, confId), u) ensures ValidRoute(u, Get(Put(routes, umo, confId), u).value) {
      GetPut(routes, umo, confId, u);
    }
  }

  lemma RemoveIsValid(routes: Routes, umo: string)
    requires ValidRoutes(routes)
    ensures ValidRoutes(Remove(routes, umo))
  {
    RemoveKeys(routes, umo);
    forall u | Has(Remove(routes, umo), u) ensures ValidRoute(u, Get(Remove(routes, umo), u).value) {
      GetRemove(routes, umo, u);
    }
  }

  lemma {:induction false} ValidatedIsTheSame(data: Routes)
    ensures Validated(data).Some? ==> Validated(data).value == data
  {
    if data != [] {
      ValidatedIsTheSame(data[1..]);
    }
  }

  // ---------------------------------------------------------------- changing the table

  datatype Call =
    | UpdateOne(umo: string, confId: string)
    | DeleteOne(umo: string)
    | ReplaceAll(data: Routes)

  /** What a call does before it waits for the write: refuse, find nothing to do, or hand a changed copy over. */
  datatype Begun = Refused | NothingToDo | Writes(routes: Routes)

  function BeginCall(routes: Routes, call: Call): Begun {
    match call
    case UpdateOne(umo, confId) => if ValidRoute(umo, confId) then Writes(Put(routes, umo, confId)) else Refused
    case DeleteOne(umo) =>
      if SplitUmo(umo).None? then Refused
      else if Has(routes, umo) then Writes(Remove(routes, umo))
      else NothingToDo
    case ReplaceAll(data) =>
      match Validated(data)
      case None => Refused
      case Some(validated) => Writes(validated)
  }

  /** The table a call aims at. */
  function Edited(routes: Routes, call: Call): Routes {
    match call
    case UpdateOne(umo, confId) => Put(routes, umo, confId)
    case DeleteOne(umo) => Remove(routes, umo)
    case ReplaceAll(data) => data
  }

  /** What a begun call hands over is a valid table, with just the call's own edit. */
  lemma BegunIsEdited(routes: Routes, call: Call)
    requires ValidRoutes(routes) && (call.ReplaceAll? ==> Distinct(call.data))
    ensures match BeginCall(routes, call)
            case Refused => true
            case NothingToDo => Edited(routes, call) == routes
            case Writes(copy) => copy == Edited(routes, call) && ValidRoutes(copy)
  {
    match call
    case UpdateOne(umo, confId) =>
      if ValidRoute(umo, confId) {
        PutIsValid(routes, umo, confId);
      }
    case DeleteOne(umo) =>
      RemoveIsValid(routes, umo);
      if !Has(routes, umo) {
        RemoveAbsent(routes, umo);
      }
    case ReplaceAll(data) => ValidatedIsAllOrNothing(data);
  }

  class UmopConfigRouter {
    var umopToConfId: Routes

    ghost predicate Valid()
      reads this
    {
      ValidRoutes(umopToConfId)
    }

    /** Loads the stored table, or starts empty if any of it is invalid. */
    constructor (stored: Routes)
      requires Distinct(stored)
      ensures Valid() && umopToConfId == if ValidRoutes(stored) then stored else []
    {
      ValidatedIsAllOrNothing(stored);
      umopToConfId := Validated(stored).GetOr([]);
    }

    /** The best matching route, the earliest inserted among equals, or nothing if none matches. */
    method GetConfIdForUmop(umo: string) returns (confId: Option<string>)
      ensures confId == ConfIdFor(umopToConfId, umo)
      ensures confId.None? <==> forall r | r in umopToConfId :: !IsUmoMatch(r.0, umo)
      ensures confId.Some? ==> exists i: nat :: Wins(umopToConfId, i, umo) && umopToConfId[i].1 == confId.value
    {
      ghost var i := FirstRankedWins(umopToConfId, umo);
      var ranked := Ranked(umopToConfId);
      while ranked != []
        invariant FirstMatch(ranked, umo) == FirstMatch(Ranked(umopToConfId), umo)
        decreases |ranked|
      {
        if IsUmoMatch(ranked[0].0, umo) {
          assert Wins(umopToConfId, i, umo) && umopToConfId[i] == ranked[0];
          return Some(ranked[0].1);
        }
        ranked := ranked[1..];
      }
      return None;
    }

    /** `update_route` up to the wait for the write. */
    method CopyWithRoute(umo: string, confId: string) returns (b: Begun)
      ensures b == BeginCall(umopToConfId, UpdateOne(umo, confId))
    {
      if SplitUmo(umo).None? {
        return Refused;
      }
      if confId == "" {
        return Refused;
      }
      b := Writes(Put(umopToConfId, umo, confId));
    }

    /** `delete_route` up to the wait for the write. */
    method CopyWithoutRoute(umo: string) returns (b: Begun)
      ensures b == BeginCall(umopToConfId, DeleteOne(umo))
    {
      if SplitUmo(umo).None? {
        return Refused;
      }
      if Has(umopToConfId, umo) {
        b := Writes(Remove(umopToConfId, umo));
      } else {
        b := NothingToDo;
      }
    }

    /** After the write: the copy becomes the table, whatever the table is by now. */
    method Assign(routes: Routes)
      requires ValidRoutes(routes)
      modifies this
      ensures Valid() && umopToConfId == routes
    {
      umopToConfId := routes;
    }

    method UpdateRoutingData(newRouting: Routes, stored: bool) returns (r: Reply)
      requires Valid() && Distinct(newRouting)
      modifies this
      ensures Valid()
      ensures r == if !ValidRoutes(newRouting) then ValueError else if stored then Done else StoreFailed
      ensures umopToConfId == if r == Done then newRouting else old(umopToConfId)
    {
      ValidatedIsAllOrNothing(newRouting);
      match Validated(newRouting)
      case None => return ValueError;
      case Some(routes) =>
        if !stored {
          return StoreFailed;
        }
        Assign(routes);
        return Done;
    }

    /** The whole call when nothing else changes the table while it waits. */
    method UpdateRoute(umo: string, confId: string, stored: bool) returns (r: Reply)
      requires Valid()
      modifies this
      ensures Valid()
      ensures r == if !ValidRoute(umo, confId) then ValueError else if stored then Done else StoreFailed
      ensures umopToConfId == if r == Done then Put(old(umopToConfId), umo, confId) else old(umopToConfId)
      ensures r == Done && IsLiteralUmo(umo) ==> ConfIdFor(umopToConfId, umo) == Some(confId)
    {
      var b := CopyWithRoute(umo, confId);
      if b.Refused? {
        return ValueError;
      }
      if !stored {
        return StoreFailed;
      }
      BegunIsEdited(umopToConfId, UpdateOne(umo, confId));
      GetPut(umopToConfId, umo, confId, umo);
      if IsLiteralUmo(umo) {
        ExactRouteWins(b.routes, umo);
      }
      Assign(b.routes);
      return Done;
    }

    method DeleteRoute(umo: string, stored: bool) returns (r: Reply)
      requires Valid()
      modifies this
      ensures Valid()
      ensures r == if SplitUmo(umo).None? then ValueError
                   else if !Has(old(umopToConfId), umo) || stored then Done else StoreFailed
      ensures umopToConfId == if r == Done then Remove(old(umopToConfId), umo) else old(umopToConfId)
    {
      var b := CopyWithoutRoute(umo);
      BegunIsEdited(umopToConfId, DeleteOne(umo));
      match b
      case Refused => return ValueError;
      case NothingToDo => return Done;
      case Writes(routes) =>
        if !stored {
          return StoreFailed;
        }
        Assign(routes);
        return Done;
    }
  }
}
