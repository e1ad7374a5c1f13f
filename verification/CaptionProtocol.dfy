/** Every interleaving of caption requests, answers, failures, cancellations and session removals. */
module CaptionProtocol {
  import opened Options
  import opened OrderedDicts
  import opened CaptionFlights

  /** `Queued` waits for the caption semaphore, `Calling` for the provider, `Following` for another caller. */
  datatype Phase =
    | Queued(key: Key, flight: nat)
    | Calling(key: Key, flight: nat)
    | Following(flight: nat)
    | Left(outcome: Outcome)

  /** `leader` and `answers` record who leads a flight and which captions the provider gave for a key; `disturbed`
      holds the flights whose future somebody other than the leader cancelled, `removed` the groups whose session
      was removed. */
  datatype Sys = Sys(table: Table, calls: map<nat, Phase>, free: nat, leader: map<nat, nat>,
                     answers: set<(Key, string)>, disturbed: set<nat>, removed: set<string>)

  datatype Action =
    | Enter(call: nat, key: Key, flight: nat, ttl: real, now: real)
    | GetPermit(call: nat)
    | Answered(call: nat, caption: string, ttl: real, now: real)
    | Failed(call: nat)
    | LeaderCancelled(call: nat)
    | Wakes(call: nat)
    | FollowerCancelled(call: nat)
    | RemovesSession(umo: string)

  predicate Leads(p: Phase) {
    p.Queued? || p.Calling?
  }

  predicate Enabled(s: Sys, a: Action) {
    match a
    case Enter(call, _, flight, _, _) => call !in s.calls && flight !in s.table.futures
    case GetPermit(call) => call in s.calls && s.calls[call].Queued? && s.free > 0
    case Answered(call, _, _, _) => call in s.calls && s.calls[call].Calling?
    case Failed(call) => call in s.calls && Leads(s.calls[call])
    case LeaderCancelled(call) => call in s.calls && Leads(s.calls[call])
    case Wakes(call) =>
      && call in s.calls && s.calls[call].Following?
      && s.calls[call].flight in s.table.futures && s.table.futures[s.calls[call].flight].Some?
    case FollowerCancelled(call) => call in s.calls && s.calls[call].Following?
    case RemovesSession(_) => true
  }

  function StepEnter(s: Sys, call: nat, k: Key, flight: nat, ttl: real, now: real): Sys {
    var (table, claim) := Claimed(s.table, k, flight, ttl, now);
    match claim
    case Cached(caption) => s.(table := table, calls := s.calls[call := Left(Caption(caption))])
    case Follow(f) => s.(table := table, calls := s.calls[call := Following(f)])
    case Lead =>
      s.(table := table, calls := s.calls[call := Queued(k, flight)], leader := s.leader[flight := call])
  }

  function StepLeave(s: Sys, call: nat, o: Outcome): Sys
    requires call in s.calls && Leads(s.calls[call])
  {
    s.(table := Finished(s.table, s.calls[call].key, s.calls[call].flight, o),
       calls := s.calls[call := Left(o)],
       free := if s.calls[call].Calling? then s.free + 1 else s.free)
  }

  function StepAnswered(s: Sys, call: nat, caption: string, ttl: real, now: real): Sys
    requires call in s.calls && s.calls[call].Calling?
  {
    var k := s.calls[call].key;
    StepLeave(s.(table := s.table.(cache := Stored(s.table.cache, k, caption, ttl, now)),
                 answers := s.answers + {(k, caption)}), call, Caption(caption))
  }

  /** Cancelling a task that awaits a future cancels that future: the one all followers share. */
  function StepFollowerCancelled(s: Sys, call: nat): Sys
    requires call in s.calls && s.calls[call].Following?
  {
    var f := s.calls[call].flight;
    s.(table := s.table.(futures := Settled(s.table.futures, f, Cancellation)),
       calls := s.calls[call := Left(Cancellation)],
       disturbed := if f in s.table.futures && s.table.futures[f].None? then s.disturbed + {f} else s.disturbed)
  }

  function StepRemoves(s: Sys, umo: string): Sys {
    s.(table := Removed(s.table, umo),
       disturbed := s.disturbed + FlightsOf(s.table.inflight, umo),
       removed := s.removed + {umo})
  }

  function Step(s: Sys, a: Action): Sys
    requires Enabled(s, a)
  {
    match a
    case Enter(call, k, flight, ttl, now) => StepEnter(s, call, k, flight, ttl, now)
    case GetPermit(call) =>
      s.(calls := s.calls[call := Calling(s.calls[call].key, s.calls[call].flight)], free := s.free - 1)
    case Answered(call, caption, ttl, now) => StepAnswered(s, call, caption, ttl, now)
    case Failed(call) => StepLeave(s, call, Failure)
    case LeaderCancelled(call) => StepLeave(s, call, Cancellation)
    case Wakes(call) => s.(calls := s.calls[call := Left(s.table.futures[s.calls[call].flight].value)])
    case FollowerCancelled(call) => StepFollowerCancelled(s, call)
    case RemovesSession(umo) => StepRemoves(s, umo)
  }

  // ---------------------------------------------------------------- flights

  /** A registered flight has a leader under way for just that key. */
  ghost predicate InflightInv(inflight: map<Key, nat>, calls: map<nat, Phase>, leader: map<nat, nat>) {
    forall k | k in inflight ::
      var f := inflight[k];
      && f in leader && leader[f] in calls
      && Leads(calls[leader[f]]) && calls[leader[f]].key == k && calls[leader[f]].flight == f
  }

  /** A caller that leads is its flight's one leader, and the flight is registered unless the session was removed. */
  ghost predicate LeadersInv(inflight: map<Key, nat>, calls: map<nat, Phase>, leader: map<nat, nat>, removed: set<string>) {
    forall c | c in calls && Leads(calls[c]) ::
      && calls[c].flight in leader && leader[calls[c].flight] == c
      && (calls[c].key.umo in removed || (calls[c].key in inflight && inflight[calls[c].key] == calls[c].flight))
  }

  /** A flight's future against its leader's state. */
  ghost predicate FlightOk(f: nat, future: Option<Outcome>, p: Phase, disturbed: set<nat>) {
    && ((Leads(p) && p.flight == f) || p.Left?)
    && (f in disturbed ==> future == Some(Cancellation))
    && (f !in disturbed ==> future == if p.Left? then Some(p.outcome) else None)
  }

  ghost predicate FuturesInv(futures: Futures, calls: map<nat, Phase>, leader: map<nat, nat>, disturbed: set<nat>) {
    && leader.Keys == futures.Keys && disturbed <= futures.Keys
    && forall f | f in futures :: leader[f] in calls && FlightOk(f, futures[f], calls[leader[f]], disturbed)
  }

  ghost predicate FollowersInv(futures: Futures, calls: map<nat, Phase>) {
    forall c | c in calls && calls[c].Following? :: calls[c].flight in futures
  }

  ghost predicate Inv(s: Sys) {
    && InflightInv(s.table.inflight, s.calls, s.leader)
    && LeadersInv(s.table.inflight, s.calls, s.leader, s.removed)
    && FuturesInv(s.table.futures, s.calls, s.leader, s.disturbed)
    && FollowersInv(s.table.futures, s.calls)
  }

  lemma NewFollowerKeepsInv(s: Sys, v: Sys, call: nat, p: Phase)
    requires Inv(s) && call !in s.calls && !Leads(p) && (p.Following? ==> p.flight in s.table.futures)
    requires v == s.(table := s.table.(cache := v.table.cache), calls := s.calls[call := p])
    ensures Inv(v)
  {
  }

  lemma NewLeaderKeepsInv(s: Sys, v: Sys, call: nat, k: Key, flight: nat)
    requires Inv(s) && call !in s.calls && flight !in s.table.futures && k !in s.table.inflight
    requires v == s.(table := Table(v.table.cache, s.table.inflight[k := flight], s.table.futures[flight := None]),
                     calls := s.calls[call := Queued(k, flight)], leader := s.leader[flight := call])
    ensures Inv(v)
  {
    assert v.leader.Keys == v.table.futures.Keys;
  }

  lemma EnterKeepsInv(s: Sys, call: nat, k: Key, flight: nat, ttl: real, now: real)
    requires Inv(s) && Enabled(s, Enter(call, k, flight, ttl, now))
    ensures Inv(StepEnter(s, call, k, flight, ttl, now))
  {
    hide Looked, Inv;
    var v := StepEnter(s, call, k, flight, ttl, now);
    match Claimed(s.table, k, flight, ttl, now).1
    case Cached(caption) => NewFollowerKeepsInv(s, v, call, Left(Caption(caption)));
    case Follow(f) =>
      FlightKnown(s, k);
      NewFollowerKeepsInv(s, v, call, Following(f));
    case Lead => NewLeaderKeepsInv(s, v, call, k, flight);
  }

  lemma FlightKnown(s: Sys, k: Key)
    requires Inv(s) && k in s.table.inflight
    ensures s.table.inflight[k] in s.table.futures
  {
  }

  lemma LeaveKeepsInv(s: Sys, call: nat, o: Outcome)
    requires Inv(s) && call in s.calls && Leads(s.calls[call])
    ensures Inv(StepLeave(s, call, o))
  {
  }

  lemma RemovesKeepsInv(s: Sys, umo: string)
    requires Inv(s)
    ensures Inv(StepRemoves(s, umo))
  {
  }

  lemma PermitKeepsInv(s: Sys, call: nat)
    requires Inv(s) && Enabled(s, GetPermit(call))
    ensures Inv(Step(s, GetPermit(call)))
  {
  }

  lemma WakesKeepsInv(s: Sys, call: nat)
    requires Inv(s) && Enabled(s, Wakes(call))
    ensures Inv(Step(s, Wakes(call)))
  {
  }

  lemma FollowerCancelledKeepsInv(s: Sys, call: nat)
    requires Inv(s) && Enabled(s, FollowerCancelled(call))
    ensures Inv(StepFollowerCancelled(s, call))
  {
  }

  lemma StepKeepsInv(s: Sys, a: Action)
    requires Inv(s) && Enabled(s, a)
    ensures Inv(Step(s, a))
  {
    hide InflightInv, LeadersInv, FuturesInv, FollowersInv, StepFollowerCancelled, StepRemoves, StepEnter, StepLeave;
    match a
    case Enter(call, k, flight, ttl, now) => EnterKeepsInv(s, call, k, flight, ttl, now);
    case GetPermit(call) => PermitKeepsInv(s, call);
    case Answered(call, caption, ttl, now) =>
      var v := s.(table := s.table.(cache := Stored(s.table.cache, s.calls[call].key, caption, ttl, now)),
                  answers := s.answers + {(s.calls[call].key, caption)});
      LeaveKeepsInv(v, call, Caption(caption));
    case Failed(call) => LeaveKeepsInv(s, call, Failure);
    case LeaderCancelled(call) => LeaveKeepsInv(s, call, Cancellation);
    case Wakes(call) => WakesKeepsInv(s, call);
    case FollowerCancelled(call) => FollowerCancelledKeepsInv(s, call);
    case RemovesSession(umo) => RemovesKeepsInv(s, umo);
  }

  ghost predicate Possible(s: Sys, actions: seq<Action>)
    decreases |actions|
  {
    actions == [] || (Enabled(s, actions[0]) && Possible(Step(s, actions[0]), actions[1..]))
  }

  function After(s: Sys, actions: seq<Action>): Sys
    requires Possible(s, actions)
    decreases |actions|
  {
    if actions == [] then s else After(Step(s, actions[0]), actions[1..])
  }

  function Initial(maxConcurrency: nat): Sys {
    Sys(Table([], map[], map[]), map[], maxConcurrency, map[], {}, {}, {})
  }

  // ---------------------------------------------------------------- permits and cache

  ghost function CallsOut(calls: map<nat, Phase>): set<nat> {
    set c | c in calls && calls[c].Calling?
  }

  ghost predicate PermitsInv(s: Sys, maxConcurrency: nat) {
    s.free + |CallsOut(s.calls)| == maxConcurrency
  }

  lemma CallsOutAfter(calls: map<nat, Phase>, c: nat, p: Phase)
    ensures |CallsOut(calls[c := p])|
            == |CallsOut(calls)| - (if c in CallsOut(calls) then 1 else 0) + (if p.Calling? then 1 else 0)
  {
    var rest := CallsOut(calls) - {c};
    assert CallsOut(calls[c := p]) == if p.Calling? then rest + {c} else rest;
  }

  lemma StepKeepsPermits(s: Sys, a: Action, maxConcurrency: nat)
    requires PermitsInv(s, maxConcurrency) && Enabled(s, a)
    ensures PermitsInv(Step(s, a), maxConcurrency)
  {
    hide CallsOut, Looked, Finished, Settled, Stored, Removed, FlightsOf;
    if !a.RemovesSession? {
      var c := a.call;
      CallsOutAfter(s.calls, c, Step(s, a).calls[c]);
      assert c in CallsOut(s.calls) <==> c in s.calls && s.calls[c].Calling? by {
        CallsOutIff(s.calls, c);
      }
    }
  }

  lemma CallsOutIff(calls: map<nat, Phase>, c: nat)
    ensures c in CallsOut(calls) <==> c in calls && calls[c].Calling?
  {
  }

  /** At most 512 captions are kept, each under one key, and each was the provider's answer for that key. */
  ghost predicate CacheInv(cache: Cache, answers: set<(Key, string)>) {
    && Distinct(cache) && |cache| <= MAX_CAPTION_CACHE_ENTRIES
    && forall k | Get(cache, k).Some? :: (k, Get(cache, k).value.caption) in answers
  }

  lemma {:induction false} DistinctDrop(d: Cache, n: nat)
    requires Distinct(d) && n <= |d|
    ensures Distinct(d[n..])
    ensures forall k | Get(d[n..], k).Some? :: Get(d, k) == Get(d[n..], k)
  {
    if n > 0 {
      DistinctDrop(d[1..], n - 1);
      assert d[n..] == d[1..][n - 1..];
    }
  }

  lemma {:induction false} WithoutGroupFacts(d: Cache, umo: string)
    requires Distinct(d)
    ensures Distinct(WithoutGroup(d, umo)) && |WithoutGroup(d, umo)| <= |d|
    ensures forall k :: Get(WithoutGroup(d, umo), k) == if k.umo == umo then None else Get(d, k)
  {
    if d != [] {
      WithoutGroupFacts(d[1..], umo);
      if d[0].0.umo != umo {
        assert WithoutGroup(d, umo)[1..] == WithoutGroup(d[1..], umo);
      }
    }
  }

  lemma LookedKeepsCache(cache: Cache, answers: set<(Key, string)>, k: Key, now: real)
    requires CacheInv(cache, answers)
    ensures CacheInv(Looked(cache, k, now).0, answers)
    ensures Looked(cache, k, now).1.Some? ==> (k, Looked(cache, k, now).1.value) in answers
  {
    match Get(cache, k)
    case None =>
    case Some(e) =>
      RemoveKeys(cache, k);
      PutLastFacts(cache, k, e);
      forall x ensures Get(Remove(cache, k), x) == if x == k then None else Get(cache, x) {
        GetRemove(cache, k, x);
      }
  }

  lemma StoredKeepsCache(cache: Cache, answers: set<(Key, string)>, k: Key, caption: string, ttl: real, now: real)
    requires CacheInv(cache, answers)
    ensures CacheInv(Stored(cache, k, caption, ttl, now), answers + {(k, caption)})
  {
    var all := PutLast(cache, k, Entry(caption, now + ttl));
    PutLastFacts(cache, k, Entry(caption, now + ttl));
    if |all| > MAX_CAPTION_CACHE_ENTRIES {
      DistinctDrop(all, |all| - MAX_CAPTION_CACHE_ENTRIES);
    }
  }

  lemma StepKeepsCache(s: Sys, a: Action)
    requires CacheInv(s.table.cache, s.answers) && Enabled(s, a)
    ensures CacheInv(Step(s, a).table.cache, Step(s, a).answers)
  {
    hide CacheInv, Looked, Stored;
    match a
    case Enter(_, k, _, _, now) => LookedKeepsCache(s.table.cache, s.answers, k, now);
    case Answered(call, caption, ttl, now) =>
      StoredKeepsCache(s.table.cache, s.answers, s.calls[call].key, caption, ttl, now);
    case RemovesSession(umo) => RemovedKeepsCache(s.table.cache, s.answers, umo);
    case _ =>
  }

  lemma RemovedKeepsCache(cache: Cache, answers: set<(Key, string)>, umo: string)
    requires CacheInv(cache, answers)
    ensures CacheInv(WithoutGroup(cache, umo), answers)
  {
    WithoutGroupFacts(cache, umo);
  }

  /** Every reachable state keeps the three invariants. */
  lemma {:induction false} Reachable(s: Sys, actions: seq<Action>, maxConcurrency: nat)
    requires Inv(s) && PermitsInv(s, maxConcurrency) && CacheInv(s.table.cache, s.answers) && Possible(s, actions)
    ensures Inv(After(s, actions)) && PermitsInv(After(s, actions), maxConcurrency)
    ensures CacheInv(After(s, actions).table.cache, After(s, actions).answers)
    decreases |actions|
  {
    hide Inv, PermitsInv, CacheInv, Step, Enabled;
    if actions != [] {
      StepKeepsInv(s, actions[0]);
      StepKeepsPermits(s, actions[0], maxConcurrency);
      StepKeepsCache(s, actions[0]);
      Reachable(Step(s, actions[0]), actions[1..], maxConcurrency);
    }
  }

  lemma ReachableFromStart(maxConcurrency: nat, actions: seq<Action>)
    requires Possible(Initial(maxConcurrency), actions)
    ensures var s := After(Initial(maxConcurrency), actions);
            Inv(s) && PermitsInv(s, maxConcurrency) && CacheInv(s.table.cache, s.answers)
  {
    assert CallsOut(map[]) == {};
    Reachable(Initial(maxConcurrency), actions, maxConcurrency);
  }

  // ---------------------------------------------------------------- what the invariant means

  /** Without session removal, at most one caller per key is at the provider or waiting to be. */
  lemma OneProviderCallPerKey(s: Sys, c: nat, d: nat)
    requires Inv(s) && c in s.calls && d in s.calls && Leads(s.calls[c]) && Leads(s.calls[d])
    requires s.calls[c].key == s.calls[d].key && s.calls[c].key.umo !in s.removed
    ensures c == d
  {
    var f := s.table.inflight[s.calls[c].key];
    assert s.calls[c].flight == f && s.calls[d].flight == f;
  }

  /** Whoever waits for a flight waits for a leader still under way, so nobody waits for ever on a left one. */
  lemma NobodyWaitsInVain(s: Sys, c: nat)
    requires Inv(s) && c in s.calls && s.calls[c].Following?
    ensures var f := s.calls[c].flight;
            && f in s.table.futures && f in s.leader && s.leader[f] in s.calls
            && (s.table.futures[f].None? ==> Leads(s.calls[s.leader[f]]) && s.calls[s.leader[f]].flight == f)
            && (s.calls[s.leader[f]].Left? ==> s.table.futures[f].Some?)
  {
    var f := s.calls[c].flight;
    assert FlightOk(f, s.table.futures[f], s.calls[s.leader[f]], s.disturbed);
  }

  /** A follower gets its leader's outcome if and only if nobody else cancelled the shared future first, or the
      leader was cancelled as well. */
  lemma FollowerGetsLeadersOutcomeIff(s: Sys, c: nat)
    requires Inv(s) && Enabled(s, Wakes(c))
    requires s.calls[s.leader[s.calls[c].flight]].Left?
    ensures var f := s.calls[c].flight;
            var own := Step(s, Wakes(c)).calls[c].outcome;
            && (own == s.calls[s.leader[f]].outcome <==> f !in s.disturbed || s.calls[s.leader[f]].outcome == Cancellation)
            && (f in s.disturbed ==> own == Cancellation)
  {
    var f := s.calls[c].flight;
    assert FlightOk(f, s.table.futures[f], s.calls[s.leader[f]], s.disturbed);
  }

  /** The leader's way out settles its future and takes no other flight out. */
  lemma LeaderSettlesAndKeepsOthers(s: Sys, call: nat, o: Outcome)
    requires Inv(s) && call in s.calls && Leads(s.calls[call])
    ensures var v := StepLeave(s, call, o).table;
            && v.futures[s.calls[call].flight].Some?
            && (forall k | k in s.table.inflight :: s.table.inflight[k] == s.calls[call].flight
                                                   || (k in v.inflight && v.inflight[k] == s.table.inflight[k]))
            && (forall k | k in v.inflight :: v.inflight[k] != s.calls[call].flight)
  {
    var f := s.calls[call].flight;
    assert f in s.leader && f in s.table.futures;
  }

  /** Two followers of one flight: cancelling the first cancels the second, although the provider then answers. */
  lemma CancelledFollowerCancelsTheOthers(s: Sys, lead: nat, first: nat, second: nat, caption: string)
    requires Inv(s) && {lead, first, second} <= s.calls.Keys && first != second
    requires s.calls[lead].Calling? && s.calls[first] == Following(s.calls[lead].flight) == s.calls[second]
    requires s.table.futures[s.calls[lead].flight].None?
    ensures var actions := [FollowerCancelled(first), Wakes(second), Answered(lead, caption, 0.0, 0.0)];
            && Possible(s, actions)
            && After(s, actions).calls.Keys == s.calls.Keys
            && After(s, actions).calls[first] == Left(Cancellation) == After(s, actions).calls[second]
            && After(s, actions).calls[lead] == Left(Caption(caption))
  {
    var f := s.calls[lead].flight;
    var s1 := Step(s, FollowerCancelled(first));
    assert s1.table.futures[f] == Some(Cancellation);
    var s2 := Step(s1, Wakes(second));
    var s3 := Step(s2, Answered(lead, caption, 0.0, 0.0));
    var actions := [FollowerCancelled(first), Wakes(second), Answered(lead, caption, 0.0, 0.0)];
    assert actions[1..] == [Wakes(second), Answered(lead, caption, 0.0, 0.0)];
    assert actions[1..][1..] == [Answered(lead, caption, 0.0, 0.0)];
    assert Possible(s3, []) && After(s3, []) == s3;
    assert actions[1..][1..][1..] == [];
    assert Possible(s2, actions[1..][1..]) && After(s2, actions[1..][1..]) == s3;
    assert Possible(s1, actions[1..]) && After(s1, actions[1..]) == s3;
  }

  /** One caller at the provider and two that follow it. */
  function Trio(k: Key, free: nat): Sys {
    Sys(Table([], map[k := 0], map[0 := None]), map[0 := Calling(k, 0), 1 := Following(0), 2 := Following(0)], free,
        map[0 := 0], {}, {}, {})
  }

  function Meet(k: Key): seq<Action> {
    [Enter(0, k, 0, 0.0, 0.0), GetPermit(0), Enter(1, k, 1, 0.0, 0.0), Enter(2, k, 2, 0.0, 0.0)]
  }

  lemma StepFirst(s: Sys, a: Action, rest: seq<Action>)
    requires Enabled(s, a) && Possible(Step(s, a), rest)
    ensures Possible(s, [a] + rest) && After(s, [a] + rest) == After(Step(s, a), rest)
  {
    assert ([a] + rest)[1..] == rest;
  }

  lemma {:induction false} Chained(s: Sys, first: seq<Action>, last: seq<Action>)
    requires Possible(s, first) && Possible(After(s, first), last)
    ensures Possible(s, first + last) && After(s, first + last) == After(After(s, first), last)
    decreases |first|
  {
    hide Step, Enabled;
    if first == [] {
      assert first + last == last;
    } else {
      assert (first + last)[1..] == first[1..] + last;
      Chained(Step(s, first[0]), first[1..], last);
    }
  }

  lemma FollowersEnter(s: Sys, k: Key)
    requires s.table == Table([], map[k := 0], map[0 := None]) && s.calls == map[0 := Calling(k, 0)]
    ensures Possible(s, [Enter(1, k, 1, 0.0, 0.0), Enter(2, k, 2, 0.0, 0.0)])
    ensures After(s, [Enter(1, k, 1, 0.0, 0.0), Enter(2, k, 2, 0.0, 0.0)])
            == s.(calls := map[0 := Calling(k, 0), 1 := Following(0), 2 := Following(0)])
  {
    var (a, b) := (Enter(1, k, 1, 0.0, 0.0), Enter(2, k, 2, 0.0, 0.0));
    var v := Step(s, a);
    assert v == s.(calls := map[0 := Calling(k, 0), 1 := Following(0)]);
    var u := Step(v, b);
    assert u == s.(calls := map[0 := Calling(k, 0), 1 := Following(0), 2 := Following(0)]);
    assert Possible(u, []) && After(u, []) == u;
    StepFirst(v, b, []);
    StepFirst(s, a, [b]);
    assert [b] + [] == [b] && [a] + [b] == [a, b];
  }

  lemma TrioMeets(k: Key, maxConcurrency: nat)
    requires maxConcurrency >= 1
    ensures Possible(Initial(maxConcurrency), Meet(k))
    ensures After(Initial(maxConcurrency), Meet(k)) == Trio(k, maxConcurrency - 1)
  {
    var (a, b) := (Enter(0, k, 0, 0.0, 0.0), GetPermit(0));
    var s := Initial(maxConcurrency);
    var v := Step(s, a);
    assert v == Sys(Table([], map[k := 0], map[0 := None]), map[0 := Queued(k, 0)], maxConcurrency, map[0 := 0], {}, {}, {});
    var u := Step(v, b);
    assert u.calls == map[0 := Calling(k, 0)];
    var rest := [Enter(1, k, 1, 0.0, 0.0), Enter(2, k, 2, 0.0, 0.0)];
    FollowersEnter(u, k);
    StepFirst(v, b, rest);
    StepFirst(s, a, [b] + rest);
    assert [a] + ([b] + rest) == Meet(k);
  }

  /** The same from the start: three callers ask for one caption, the first follower is cancelled and so is the
      second, although the provider answers the leader. */
  lemma CancelledFollowerFromStart(k: Key, maxConcurrency: nat, caption: string)
    requires maxConcurrency >= 1
    ensures var actions := Meet(k) + [FollowerCancelled(1), Wakes(2), Answered(0, caption, 0.0, 0.0)];
            && Possible(Initial(maxConcurrency), actions)
            && After(Initial(maxConcurrency), actions).calls
               == map[0 := Left(Caption(caption)), 1 := Left(Cancellation), 2 := Left(Cancellation)]
  {
    hide Possible, After, Step;
    var s := Trio(k, maxConcurrency - 1);
    var last := [FollowerCancelled(1), Wakes(2), Answered(0, caption, 0.0, 0.0)];
    TrioMeets(k, maxConcurrency);
    ReachableFromStart(maxConcurrency, Meet(k));
    CancelledFollowerCancelsTheOthers(s, 0, 1, 2, caption);
    Chained(Initial(maxConcurrency), Meet(k), last);
    var calls := After(s, last).calls;
    assert calls.Keys == {0, 1, 2};
  }
}
