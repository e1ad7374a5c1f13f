/** Which calls change the routing table, and to what. */
module RouterCalls {
  import opened Options
  import opened OrderedDicts
  import opened UmoRouter
  import opened RouterProtocol

  /** Platform, message type and session, the first two without a colon. */
  ghost predicate HasParts(umo: string, p: Parts) {
    ':' !in p.platform && ':' !in p.kind && umo == p.platform + ":" + (p.kind + ":" + p.session)
  }

  lemma SplitIff(umo: string, p: Parts)
    ensures SplitUmo(umo) == Some(p) <==> HasParts(umo, p)
  {
    if HasParts(umo, p) {
      SplitOfParts(p.platform, p.kind, p.session);
    }
  }

  ghost predicate IsUmo(umo: string) {
    exists p :: HasParts(umo, p)
  }

  lemma IsUmoIff(umo: string)
    ensures SplitUmo(umo).Some? <==> IsUmo(umo)
  {
    if SplitUmo(umo).Some? {
      SplitIff(umo, SplitUmo(umo).value);
    }
    if p :| HasParts(umo, p) {
      SplitIff(umo, p);
    }
  }

  /** Every key a UMO, every value a configuration. */
  ghost predicate AllRoutes(data: Routes) {
    forall r :: r in data ==> IsUmo(r.0) && r.1 != ""
  }

  lemma {:induction false} ValidatedIff(data: Routes)
    ensures Validated(data) == if AllRoutes(data) then Some(data) else None
  {
    if data != [] {
      IsUmoIff(data[0].0);
      ValidatedIff(data[1..]);
      assert data == [data[0]] + data[1..];
      assert data[0] in data;
      if AllRoutes(data[1..]) && IsUmo(data[0].0) && data[0].1 != "" {
        assert AllRoutes(data);
      }
    }
  }

  /** An update hands over the table with just its route set, unless it is malformed. */
  lemma UpdateHandsOver(routes: Routes, umo: string, confId: string)
    requires Distinct(routes)
    ensures BeginCall(routes, UpdateOne(umo, confId)).Writes? <==> IsUmo(umo) && confId != ""
    ensures BeginCall(routes, UpdateOne(umo, confId)).Refused? <==> !(IsUmo(umo) && confId != "")
    ensures BeginCall(routes, UpdateOne(umo, confId)).Writes? ==>
              forall u :: Get(BeginCall(routes, UpdateOne(umo, confId)).routes, u)
                          == if u == umo then Some(confId) else Get(routes, u)
  {
    IsUmoIff(umo);
    PutFacts(routes, umo, confId);
  }

  /** A deletion hands over the table without just that route, unless it is malformed or the route is not there. */
  lemma DeleteHandsOver(routes: Routes, umo: string)
    requires Distinct(routes)
    ensures BeginCall(routes, DeleteOne(umo)).Refused? <==> !IsUmo(umo)
    ensures BeginCall(routes, DeleteOne(umo)).NothingToDo? <==> IsUmo(umo) && Get(routes, umo).None?
    ensures BeginCall(routes, DeleteOne(umo)).Writes? ==>
              forall u :: Get(BeginCall(routes, DeleteOne(umo)).routes, u) == if u == umo then None else Get(routes, u)
  {
    IsUmoIff(umo);
    forall u ensures Get(Remove(routes, umo), u) == if u == umo then None else Get(routes, u) {
      GetRemove(routes, umo, u);
    }
  }

  /** A replacement hands over the new table as it is, unless any of it is malformed. */
  lemma ReplaceHandsOver(routes: Routes, data: Routes)
    ensures BeginCall(routes, ReplaceAll(data)) == if AllRoutes(data) then Writes(data) else Refused
  {
    ValidatedIff(data);
  }

  /** A write in flight takes effect, fails, or is cancelled; once it took effect its call makes its copy the table or
      is cancelled. */
  lemma WhatCanHappen(w: World, c: CallId, call: Call)
    ensures Step(w, Begin(c, call)).Some? <==> c !in w.flights
    ensures Step(w, Persist(c)).Some? <==> c in w.flights && w.flights[c].Writing?
    ensures Step(w, PersistFails(c)).Some? <==> c in w.flights && w.flights[c].Writing?
    ensures Step(w, Assign(c)).Some? <==> c in w.flights && w.flights[c].Written?
    ensures Step(w, Cancel(c)).Some? <==> InFlight(w, c)
  {
  }

  /** The replies: a malformed call is an error, one without work is done at once, one whose write fails reports it,
      and one whose write is in is done when it has made its copy the table. */
  lemma RepliesExactly(w: World, a: Action)
    requires Step(w, a).Some?
    ensures var v := Step(w, a).value;
            match a
            case Begin(c, call) =>
              && v.memory == w.memory && v.stored == w.stored
              && v.flights == w.flights[c := match BeginCall(w.memory, call)
                                             case Refused => Over(ValueError)
                                             case NothingToDo => Over(Done)
                                             case Writes(copy) => Writing(copy)]
            case Persist(c) =>
              c in w.flights && v == World(w.memory, w.flights[c].copy, w.flights[c := Written(w.flights[c].copy)])
            case PersistFails(c) => v == World(w.memory, w.stored, w.flights[c := Over(StoreFailed)])
            case Assign(c) => c in w.flights && v == World(w.flights[c].copy, w.stored, w.flights[c := Over(Done)])
            case Cancel(c) => v == World(w.memory, w.stored, w.flights[c := Cancelled])
  {
  }
}
