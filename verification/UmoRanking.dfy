/** Which of several matching routes wins, in terms of their texts. */
module UmoRanking {
  import opened Options
  import opened OrderedDicts
  import opened GlobPatterns
  import opened UmoRouter

  /** A character that stands for others, or for a set of them. */
  predicate IsWild(c: char) {
    c in {'*', '?', '[', ']'}
  }

  /** The positions of the characters that stand for themselves. */
  ghost function Literals(segment: string): set<nat> {
    set i: nat | i < |segment| && !IsWild(segment[i])
  }

  /** Spelled out, partly spelled out, or matching everything. */
  datatype Kind = CatchAll | Partial | Exact

  ghost function KindOf(segment: string): Kind {
    if segment == "" || segment == "*" then CatchAll
    else if exists i :: 0 <= i < |segment| && IsWild(segment[i]) then Partial
    else Exact
  }

  function Place(k: Kind): nat {
    match k
    case CatchAll => 0
    case Partial => 1
    case Exact => 2
  }

  /** A segment is preferred to another: by kind, and among the partly spelled out, or the spelled out, by the number
      of characters that stand for themselves. */
  ghost predicate Preferred(a: string, b: string) {
    || Place(KindOf(a)) > Place(KindOf(b))
    || (KindOf(a) == KindOf(b) != CatchAll && |Literals(a)| > |Literals(b)|)
  }

  ghost predicate Alike(a: string, b: string) {
    KindOf(a) == KindOf(b) && (KindOf(a) != CatchAll ==> |Literals(a)| == |Literals(b)|)
  }

  /** A route is preferred to another: by platform first, then by message type, then by session. */
  ghost predicate RoutePreferred(a: Parts, b: Parts) {
    || Preferred(a.platform, b.platform)
    || (Alike(a.platform, b.platform)
        && (|| Preferred(a.kind, b.kind) || (Alike(a.kind, b.kind) && Preferred(a.session, b.session))))
  }

  // ---------------------------------------------------------------- matching

  /** A segment of a route takes in a text: an empty one any text, another one what its pattern matches. */
  predicate TakesIn(segment: string, text: string) {
    segment != "" ==> FnMatch(text, segment)
  }

  /** A route matches a UMO if and only if each of its three segments takes in the UMO's. */
  lemma MatchesBySegments(pattern: string, umo: string, p: Parts, t: Parts)
    requires SplitUmo(pattern) == Some(p) && SplitUmo(umo) == Some(t)
    ensures IsUmoMatch(pattern, umo)
            <==> TakesIn(p.platform, t.platform) && TakesIn(p.kind, t.kind) && TakesIn(p.session, t.session)
  {
  }

  lemma OnlyUmosMatch(pattern: string, umo: string)
    requires SplitUmo(pattern).None? || SplitUmo(umo).None?
    ensures !IsUmoMatch(pattern, umo)
  {
  }

  // ---------------------------------------------------------------- segments

  lemma {:induction false} HasGlobIff(segment: string)
    ensures HasGlob(segment) <==> exists i :: 0 <= i < |segment| && IsWild(segment[i])
  {
    if segment != [] {
      HasGlobIff(segment[1..]);
      if HasGlob(segment[1..]) {
        var i :| 0 <= i < |segment[1..]| && IsWild(segment[1..][i]);
        assert IsWild(segment[i + 1]);
      }
      if i :| 0 <= i < |segment| && IsWild(segment[i]) {
        assert i > 0 ==> IsWild(segment[1..][i - 1]);
      }
    }
  }

  lemma {:induction false} LiteralLengthIs(segment: string)
    ensures LiteralLength(segment) == |Literals(segment)|
  {
    if segment == [] {
      assert Literals(segment) == {};
    } else {
      var rest := segment[1..];
      LiteralLengthIs(rest);
      ShiftedSize(Literals(rest));
      LiteralsShift(segment);
      forall i: nat ensures i in Literals(segment) <==>
                            i in Shifted(Literals(rest)) + if IsWild(segment[0]) then {} else {0}
      {
        InShifted(Literals(rest), i);
      }
      assert Literals(segment) == Shifted(Literals(rest)) + if IsWild(segment[0]) then {} else {0};
      InShifted(Literals(rest), 0);
    }
  }

  lemma LiteralsShift(segment: string)
    requires segment != []
    ensures forall i: nat :: i in Literals(segment)
                             <==> (i == 0 && !IsWild(segment[0])) || (i > 0 && i - 1 in Literals(segment[1..]))
  {
  }

  function Shifted(s: set<nat>): set<nat> {
    set i | i in s :: i + 1
  }

  lemma InShifted(s: set<nat>, y: nat)
    ensures y in Shifted(s) <==> y > 0 && y - 1 in s
  {
    if y > 0 && y - 1 in s {
      var i: nat := y - 1;
      assert i in s && y == i + 1;
    }
  }

  lemma {:induction false} ShiftedSize(s: set<nat>)
    ensures |Shifted(s)| == |s|
    decreases |s|
  {
    if s != {} {
      var x :| x in s;
      ShiftedSize(s - {x});
      forall y: nat ensures y in Shifted(s) <==> y in Shifted(s - {x}) + {x + 1} {
        InShifted(s, y);
        InShifted(s - {x}, y);
      }
      assert Shifted(s) == Shifted(s - {x}) + {x + 1};
      InShifted(s - {x}, x + 1);
    }
  }

  lemma {:induction false} AllLiteral(segment: string)
    requires !HasGlob(segment)
    ensures LiteralLength(segment) == |segment|
  {
    if segment != [] {
      AllLiteral(segment[1..]);
    }
  }

  /** The numbers the router sorts by say just that. */
  lemma PriorityOfSegment(segment: string)
    ensures SegmentPriority(segment).0 == Place(KindOf(segment))
    ensures SegmentPriority(segment).1 == if KindOf(segment) == CatchAll then 0 else |Literals(segment)|
  {
    HasGlobIff(segment);
    LiteralLengthIs(segment);
    if !HasGlob(segment) {
      AllLiteral(segment);
    }
  }

  lemma SegmentsCompare(a: string, b: string)
    ensures Preferred(a, b) <==> var (p, q) := (SegmentPriority(b), SegmentPriority(a));
                                 p.0 < q.0 || (p.0 == q.0 && p.1 < q.1)
    ensures Alike(a, b) <==> SegmentPriority(a) == SegmentPriority(b)
  {
    PriorityOfSegment(a);
    PriorityOfSegment(b);
  }

  lemma RoutesCompare(a: string, b: string)
    requires SplitUmo(a).Some? && SplitUmo(b).Some?
    ensures Less(RoutePriority(b), RoutePriority(a)) <==> RoutePreferred(SplitUmo(a).value, SplitUmo(b).value)
  {
    hide SegmentPriority, Preferred, Alike;
    var (p, q) := (SplitUmo(a).value, SplitUmo(b).value);
    SegmentsCompare(p.platform, q.platform);
    SegmentsCompare(p.kind, q.kind);
    SegmentsCompare(p.session, q.session);
  }

  // ---------------------------------------------------------------- the winner

  /** The route at `i` matches, no matching route is preferred to it, and no equally good one was stored earlier. */
  ghost predicate IsBest(routes: Routes, i: nat, umo: string) {
    && i < |routes| && IsUmoMatch(routes[i].0, umo)
    && forall j | 0 <= j < |routes| && IsUmoMatch(routes[j].0, umo) ::
         var (p, q) := (SplitUmo(routes[i].0).value, SplitUmo(routes[j].0).value);
         !RoutePreferred(q, p) && (j < i ==> RoutePreferred(p, q))
  }

  /** The configuration of a UMO is that of its best matching route, and none if no route matches. */
  lemma BestRouteWins(routes: Routes, umo: string)
    ensures ConfIdFor(routes, umo).None? <==> forall r | r in routes :: !IsUmoMatch(r.0, umo)
    ensures ConfIdFor(routes, umo).Some? ==>
              exists i: nat :: IsBest(routes, i, umo) && routes[i].1 == ConfIdFor(routes, umo).value
  {
    var i := FirstRankedWins(routes, umo);
    if ConfIdFor(routes, umo).Some? {
      assert routes[i] in routes;
      forall j | 0 <= j < |routes| && IsUmoMatch(routes[j].0, umo)
        ensures var (p, q) := (SplitUmo(routes[i].0).value, SplitUmo(routes[j].0).value);
                !RoutePreferred(q, p) && (j < i ==> RoutePreferred(p, q))
      {
        RoutesCompare(routes[i].0, routes[j].0);
        RoutesCompare(routes[j].0, routes[i].0);
        Trichotomy(RoutePriority(routes[i].0), RoutePriority(routes[j].0));
      }
      assert IsBest(routes, i, umo);
    }
  }

  lemma Trichotomy(p: Priority, q: Priority)
    ensures Less(p, q) || Less(q, p) || p == q
  {
  }

  /** At most one route is best. */
  lemma BestIsUnique(routes: Routes, umo: string, i: nat, j: nat)
    requires IsBest(routes, i, umo) && IsBest(routes, j, umo)
    ensures i == j
  {
    hide RoutePreferred;
  }
}
