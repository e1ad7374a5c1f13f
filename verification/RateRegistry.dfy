/** The registry that forgets idle clients decides exactly like one that never forgets. */
module RateRegistry {
  import opened Options
  import opened OrderedDicts
  import opened RateLimits

  /** Buckets of this service, at rest at time `now` between two requests. */
  ghost predicate AtRest(b: Bucket, capacity: int, rate: real, now: real) {
    && b.capacity == capacity && b.rate == rate && InRange(b)
    && b.lastRefill == b.lastAccessed && b.lastRefill <= now
  }

  /** Every limiter the registry still has is the remembered one; the forgotten ones were idle for the time
      to live. */
  ghost predicate Agree(r: Registry, m: map<string, Bucket>, keys: set<string>, capacity: int, rate: real, now: real) {
    && Distinct(r.limiters)
    && m.Keys <= keys
    && (forall k :: k in m ==> AtRest(m[k], capacity, rate, now))
    && (forall k :: Get(r.limiters, k).Some? ==> k in m && Get(r.limiters, k).value == m[k])
    && (forall k :: k in m && Get(r.limiters, k).None? ==> m[k].lastRefill + ENTRY_TTL <= now)
  }

  lemma {:induction false} NotStaleFacts(limiters: ODict<string, Bucket>, cutoff: real)
    requires Distinct(limiters)
    ensures Distinct(NotStale(limiters, cutoff))
    ensures forall k :: Get(NotStale(limiters, cutoff), k)
                        == match Get(limiters, k)
                           case None => None
                           case Some(b) => if b.lastAccessed < cutoff then None else Some(b)
  {
    if limiters != [] {
      NotStaleFacts(limiters[1..], cutoff);
      var rest := NotStale(limiters[1..], cutoff);
      if limiters[0].1.lastAccessed >= cutoff {
        assert NotStale(limiters, cutoff)[1..] == rest;
      } else {
        assert NotStale(limiters, cutoff) == rest;
      }
    }
  }

  lemma EvictionAgrees(r: Registry, m: map<string, Bucket>, keys: set<string>, capacity: int, rate: real,
                       now: real, at: real)
    requires Agree(r, m, keys, capacity, rate, now) && now <= at
    ensures Agree(EvictExpired(r, at), m, keys, capacity, rate, at)
  {
    NotStaleFacts(r.limiters, at - ENTRY_TTL);
  }

  /** A bucket idle for the time to live refills to the brim, like a new one. */
  lemma IdleIsFull(b: Bucket, capacity: int, rate: real, last: real, now: real)
    requires AtRest(b, capacity, rate, last) && b.lastRefill + ENTRY_TTL <= now
    requires capacity as real <= rate * ENTRY_TTL
    ensures Refilled(b, now) == capacity as real
  {
    var beyond := now - b.lastRefill - ENTRY_TTL;
    assert beyond * rate >= 0.0;
    assert Gain(now - b.lastRefill, rate) == beyond * rate + ENTRY_TTL * rate;
  }

  lemma NewIsFull(capacity: int, rate: real, refill: real, access: real, now: real)
    requires capacity >= 0 && rate >= 0.0 && refill <= now
    ensures Refilled(NewBucket(capacity, rate, refill, access), now) == capacity as real
  {
    GainFacts(now - refill, 0.0, rate);
  }

  lemma FewEntries(r: Registry, keys: set<string>, key: string)
    requires Distinct(r.limiters) && |keys| <= MAX_ENTRIES && key in keys && !Has(r.limiters, key)
    requires forall k :: Get(r.limiters, k).Some? ==> k in keys
    ensures |r.limiters| < MAX_ENTRIES
  {
    forall k | k in KeySet(r.limiters) ensures k in keys - {key} {
      HasIsInKeySet(r.limiters, k);
    }
    SubsetSize(KeySet(r.limiters), keys - {key});
    SizeIsKeyCount(r.limiters);
  }

  ghost predicate Timely(q: Request, now: real) {
    now <= q.evictTime <= q.refillTime <= q.accessTime <= q.now
  }

  /** One request: same decision, and the two registries agree again. */
  lemma HandleAgrees(r: Registry, m: map<string, Bucket>, keys: set<string>, capacity: int, rate: real,
                     now: real, q: Request)
    requires Agree(r, m, keys, capacity, rate, now) && Timely(q, now)
    requires |keys| <= MAX_ENTRIES && q.key in keys
    requires capacity >= 0 && rate >= 0.0 && capacity as real <= rate * ENTRY_TTL
    ensures Handle(r, q, capacity, rate).1 == RememberingHandle(m, q, capacity, rate).1
    ensures Agree(Handle(r, q, capacity, rate).0, RememberingHandle(m, q, capacity, rate).0, keys, capacity, rate, q.now)
  {
    var e := EvictExpired(r, q.evictTime);
    var fresh_ := NewBucket(capacity, rate, q.refillTime, q.accessTime);
    EvictionAgrees(r, m, keys, capacity, rate, now, q.evictTime);
    NewIsFull(capacity, rate, q.refillTime, q.accessTime, q.now);
    var before := if q.key in m then m[q.key] else fresh_;
    var used := Get(e.limiters, q.key).GetOr(fresh_);
    if !Has(e.limiters, q.key) {
      FewEntries(e, keys, q.key);
      PutFacts(e.limiters, q.key, fresh_);
      if q.key in m {
        IdleIsFull(m[q.key], capacity, rate, q.evictTime, q.now);
      }
    }
    assert Refilled(used, q.now) == Refilled(before, q.now);
    assert Acquired(used, q.now) == Acquired(before, q.now);
    var b := Acquired(used, q.now).0;
    AcquireInRange(before, q.now);
    var g := GetOrCreate(r, q, capacity, rate);
    PutFacts(g.limiters, q.key, b);
  }

  lemma {:induction false} DecisionsAgree(r: Registry, m: map<string, Bucket>, keys: set<string>, capacity: int,
                                          rate: real, now: real, requests: seq<Request>)
    requires Agree(r, m, keys, capacity, rate, now) && InOrder(requests, now)
    requires KeysOf(requests) <= keys && |keys| <= MAX_ENTRIES
    requires capacity >= 0 && rate >= 0.0 && capacity as real <= rate * ENTRY_TTL
    ensures Decisions(r, requests, capacity, rate) == RememberingDecisions(m, requests, capacity, rate)
    decreases |requests|
  {
    if requests != [] {
      var q := requests[0];
      assert q in requests;
      HandleAgrees(r, m, keys, capacity, rate, now, q);
      forall p | p in requests[1..] ensures p.key in keys {
        assert p in requests;
      }
      DecisionsAgree(Handle(r, q, capacity, rate).0, RememberingHandle(m, q, capacity, rate).0, keys, capacity, rate,
                     q.now, requests[1..]);
    }
  }

  const EMPTY_AT_ZERO := Registry([], 0.0)

  /** Traces the claim is about: clock readings in order, and no more clients than entries are kept for. */
  ghost predicate Admissible(requests: seq<Request>) {
    InOrder(requests, 0.0) && |KeysOf(requests)| <= MAX_ENTRIES
  }

  ghost predicate SameDecisions(requests: seq<Request>, capacity: int, rate: real) {
    Decisions(EMPTY_AT_ZERO, requests, capacity, rate) == RememberingDecisions(map[], requests, capacity, rate)
  }

  // ---------------------------------------------------------------- exactly when forgetting is invisible

  /** `n` requests of one client at one time. */
  function Burst(n: nat, at: real): seq<Request> {
    seq(n, _ => Request("client", at, at, at, at))
  }

  lemma BurstTail(n: nat, at: real)
    requires n > 0
    ensures Burst(n, at)[0] == Request("client", at, at, at, at)
    ensures Burst(n, at)[1..] == Burst(n - 1, at)
  {
  }

  function AllGranted(n: nat): (granted: seq<bool>)
    ensures |granted| == n
  {
    if n == 0 then [] else [true] + AllGranted(n - 1)
  }

  function Full(capacity: int, rate: real, at: real, taken: int): Bucket {
    Bucket(capacity, rate, (capacity - taken) as real, at, at)
  }

  lemma {:induction false} BurstInOrder(n: nat, at: real, from: real)
    requires from <= at
    ensures InOrder(Burst(n, at), from)
    decreases n
  {
    if n > 0 {
      BurstTail(n, at);
      BurstInOrder(n - 1, at, at);
    }
  }

  /** No time passes, nothing refills. */
  lemma TakesOne(b: Bucket, at: real)
    requires b.lastRefill == at && b.tokens <= b.capacity as real
    ensures Refilled(b, at) == b.tokens
  {
    assert at - b.lastRefill == 0.0;
    assert Gain(0.0, b.rate) == 0.0;
  }

  lemma FullTakesOne(capacity: int, rate: real, at: real, taken: nat)
    requires taken < capacity
    ensures Acquired(Full(capacity, rate, at, taken), at) == (Full(capacity, rate, at, taken + 1), true)
  {
    TakesOne(Full(capacity, rate, at, taken), at);
    assert (capacity - taken) as real - 1.0 == (capacity - (taken + 1)) as real;
  }

  /** With one known client and no eviction due, a request only moves that client's bucket. */
  lemma OneKnownClient(r: Registry, m: map<string, Bucket>, q: Request, b: Bucket, capacity: int, rate: real)
    requires r.limiters == [(q.key, b)] && m == map[q.key := b] && q.evictTime - r.lastEviction < INTERVAL
    ensures Handle(r, q, capacity, rate)
            == (Registry([(q.key, Acquired(b, q.now).0)], r.lastEviction), Acquired(b, q.now).1)
    ensures RememberingHandle(m, q, capacity, rate) == (map[q.key := Acquired(b, q.now).0], Acquired(b, q.now).1)
  {
    assert Get(r.limiters, q.key) == Some(b);
    assert GetOrCreate(r, q, capacity, rate) == r;
    assert Put(r.limiters, q.key, Acquired(b, q.now).0) == [(q.key, Acquired(b, q.now).0)];
    assert m[q.key := Acquired(b, q.now).0] == map[q.key := Acquired(b, q.now).0];
  }

  lemma NewClientRemembered(q: Request, capacity: int, rate: real)
    ensures var b := NewBucket(capacity, rate, q.refillTime, q.accessTime);
            RememberingHandle(map[], q, capacity, rate) == (map[q.key := Acquired(b, q.now).0], Acquired(b, q.now).1)
  {
  }

  /** With no client left after eviction, a request is granted or denied by a new bucket. */
  lemma OneNewClient(r: Registry, q: Request, capacity: int, rate: real)
    requires EvictExpired(r, q.evictTime).limiters == []
    ensures var b := NewBucket(capacity, rate, q.refillTime, q.accessTime);
            Handle(r, q, capacity, rate)
            == (Registry([(q.key, Acquired(b, q.now).0)], EvictExpired(r, q.evictTime).lastEviction), Acquired(b, q.now).1)
  {
    var b := NewBucket(capacity, rate, q.refillTime, q.accessTime);
    var g := GetOrCreate(r, q, capacity, rate);
    assert Put([], q.key, b) == [(q.key, b)];
    assert g.limiters == [(q.key, b)];
    assert Get(g.limiters, q.key) == Some(b);
    assert Put(g.limiters, q.key, Acquired(b, q.now).0) == [(q.key, Acquired(b, q.now).0)];
  }

  /** The first request of a burst, granted by both registries. */
  lemma BurstFirst(r: Registry, m: map<string, Bucket>, capacity: int, rate: real, at: real, taken: nat, n: nat,
                   after: seq<Request>)
    requires r.limiters == [("client", Full(capacity, rate, at, taken))] && m == map["client" := Full(capacity, rate, at, taken)]
    requires at - r.lastEviction < INTERVAL && taken < capacity && n > 0
    ensures var next := Full(capacity, rate, at, taken + 1);
            && Decisions(r, Burst(n, at) + after, capacity, rate)
               == [true] + Decisions(Registry([("client", next)], r.lastEviction), Burst(n - 1, at) + after, capacity, rate)
            && RememberingDecisions(m, Burst(n, at) + after, capacity, rate)
               == [true] + RememberingDecisions(map["client" := next], Burst(n - 1, at) + after, capacity, rate)
  {
    hide Handle, RememberingHandle, Acquired, Full;
    BurstTail(n, at);
    var q := Request("client", at, at, at, at);
    var requests := Burst(n, at) + after;
    assert requests[0] == q && requests[1..] == Burst(n - 1, at) + after;
    FullTakesOne(capacity, rate, at, taken);
    OneKnownClient(r, m, q, Full(capacity, rate, at, taken), capacity, rate);
  }

  /** A client that has taken `taken` tokens at time `at` is granted the remaining ones, by both registries. */
  lemma {:induction false} BurstGranted(r: Registry, m: map<string, Bucket>, capacity: int, rate: real, at: real,
                                        taken: nat, n: nat, after: seq<Request>)
    requires r.limiters == [("client", Full(capacity, rate, at, taken))] && m == map["client" := Full(capacity, rate, at, taken)]
    requires r.lastEviction <= at && taken + n <= capacity && at - r.lastEviction < INTERVAL
    ensures var r' := Registry([("client", Full(capacity, rate, at, taken + n))], r.lastEviction);
            var m' := map["client" := Full(capacity, rate, at, taken + n)];
            && Decisions(r, Burst(n, at) + after, capacity, rate)
               == AllGranted(n) + Decisions(r', after, capacity, rate)
            && RememberingDecisions(m, Burst(n, at) + after, capacity, rate)
               == AllGranted(n) + RememberingDecisions(m', after, capacity, rate)
    decreases n
  {
    hide Handle, RememberingHandle, Acquired, Full, Decisions, RememberingDecisions;
    if n == 0 {
      assert Burst(n, at) + after == after;
    } else {
      var next := Full(capacity, rate, at, taken + 1);
      BurstFirst(r, m, capacity, rate, at, taken, n, after);
      BurstGranted(Registry([("client", next)], r.lastEviction), map["client" := next], capacity, rate, at,
                   taken + 1, n - 1, after);
    }
  }

  /** When a full capacity takes longer than the time to live to refill, a client that drains its bucket and
      comes back just after is denied by the one registry and granted by the other. */
  lemma DrainedClientTellsThemApart(capacity: int, rate: real) returns (requests: seq<Request>)
    requires capacity >= 1 && rate >= 0.0 && capacity as real > rate * ENTRY_TTL
    ensures Admissible(requests) && !SameDecisions(requests, capacity, rate)
  {
    hide Handle, RememberingHandle, Acquired, Decisions, RememberingDecisions, Admissible, Gain;
    var back := ComesBackTooEarly(capacity, rate);
    var second := Burst(capacity, back);
    requests := Burst(capacity, 0.0) + second;
    TwoBurstsAdmissible(capacity, back);
    FirstBurst(capacity, rate, second);
    ForgottenIsGranted(capacity, rate, back);
    var drained := map["client" := Full(capacity, rate, 0.0, capacity)];
    var remembered := RememberingDecisions(drained, second, capacity, rate);
    if SameDecisions(requests, capacity, rate) {
      assert (AllGranted(capacity) + AllGranted(capacity))[capacity..] == (AllGranted(capacity) + remembered)[capacity..];
      assert remembered == AllGranted(capacity);
      AllGrantedNeedsTokens(drained, capacity, rate, back, capacity);
      assert false;
    }
  }

  /** A time past the time to live at which a drained bucket is not full again. */
  lemma ComesBackTooEarly(capacity: int, rate: real) returns (back: real)
    requires capacity >= 1 && rate >= 0.0 && capacity as real > rate * ENTRY_TTL
    ensures ENTRY_TTL < back
    ensures Refilled(Full(capacity, rate, 0.0, capacity), back) < capacity as real
  {
    back := ENTRY_TTL + 1.0;
    if rate > 0.0 {
      var refill := capacity as real / rate;
      assert refill * rate == capacity as real;
      assert refill > ENTRY_TTL;
      back := (ENTRY_TTL + refill) / 2.0;
    }
    assert back * rate < capacity as real;
  }

  lemma TwoBurstsAdmissible(n: nat, back: real)
    requires 0.0 <= back
    ensures Admissible(Burst(n, 0.0) + Burst(n, back))
  {
    BurstInOrder(n, back, back);
    InOrderAppend(n, back);
    var requests := Burst(n, 0.0) + Burst(n, back);
    assert KeysOf(requests) <= {"client"};
    SubsetSize(KeysOf(requests), {"client"});
  }

  lemma {:induction false} InOrderAppend(n: nat, back: real)
    requires 0.0 <= back
    ensures InOrder(Burst(n, 0.0) + Burst(n, back), 0.0)
  {
    BurstInOrder(n, back, 0.0);
    PrefixInOrder(n, Burst(n, back));
  }

  lemma {:induction false} PrefixInOrder(n: nat, after: seq<Request>)
    requires InOrder(after, 0.0)
    ensures InOrder(Burst(n, 0.0) + after, 0.0)
    decreases n
  {
    if n == 0 {
      assert Burst(0, 0.0) + after == after;
    } else {
      BurstTail(n, 0.0);
      assert (Burst(n, 0.0) + after)[1..] == Burst(n - 1, 0.0) + after;
      PrefixInOrder(n - 1, after);
    }
  }

  /** Both registries grant a new client its whole capacity at once. */
  lemma FirstBurst(capacity: int, rate: real, after: seq<Request>)
    requires capacity >= 1 && rate >= 0.0
    ensures var drained := Full(capacity, rate, 0.0, capacity);
            && Decisions(EMPTY_AT_ZERO, Burst(capacity, 0.0) + after, capacity, rate)
               == AllGranted(capacity) + Decisions(Registry([("client", drained)], 0.0), after, capacity, rate)
            && RememberingDecisions(map[], Burst(capacity, 0.0) + after, capacity, rate)
               == AllGranted(capacity) + RememberingDecisions(map["client" := drained], after, capacity, rate)
  {
    hide Handle, RememberingHandle, Acquired;
    BurstTail(capacity, 0.0);
    var requests := Burst(capacity, 0.0) + after;
    assert requests[0] == Burst(capacity, 0.0)[0] && requests[1..] == Burst(capacity - 1, 0.0) + after;
    var one := Full(capacity, rate, 0.0, 1);
    FullTakesOne(capacity, rate, 0.0, 0);
    var q := Request("client", 0.0, 0.0, 0.0, 0.0);
    OneNewClient(EMPTY_AT_ZERO, q, capacity, rate);
    NewClientRemembered(q, capacity, rate);
    BurstGranted(Registry([("client", one)], 0.0), map["client" := one], capacity, rate, 0.0, 1, capacity - 1, after);
  }

  lemma ForgottenIsGranted(capacity: int, rate: real, back: real)
    requires capacity >= 1 && rate >= 0.0 && back > ENTRY_TTL
    ensures Decisions(Registry([("client", Full(capacity, rate, 0.0, capacity))], 0.0), Burst(capacity, back), capacity, rate)
            == AllGranted(capacity)
  {
    var r := Registry([("client", Full(capacity, rate, 0.0, capacity))], 0.0);
    var q := Request("client", back, back, back, back);
    BurstTail(capacity, back);
    var one := Full(capacity, rate, back, 1);
    FullTakesOne(capacity, rate, back, 0);
    assert NotStale(r.limiters[1..], back - ENTRY_TTL) == [];
    assert EvictExpired(r, back) == Registry([], back);
    OneNewClient(r, q, capacity, rate);
    BurstGranted(Registry([("client", one)], back), map["client" := one], capacity, rate, back, 1, capacity - 1, []);
    assert Burst(capacity - 1, back) + [] == Burst(capacity - 1, back);
    assert AllGranted(capacity) == [true] + (AllGranted(capacity - 1) + []);
  }

  /** Granting `n` requests at one time takes `n` tokens. */
  lemma {:induction false} AllGrantedNeedsTokens(m: map<string, Bucket>, capacity: int, rate: real, at: real, n: nat)
    requires "client" in m && n > 0
    requires RememberingDecisions(m, Burst(n, at), capacity, rate) == AllGranted(n)
    ensures n as real <= Refilled(m["client"], at)
    decreases n
  {
    BurstTail(n, at);
    var d := RememberingDecisions(m, Burst(n, at), capacity, rate);
    var q := Request("client", at, at, at, at);
    var v := RememberingHandle(m, q, capacity, rate).0;
    assert d[0] == true;
    if n > 1 {
      assert d[1..] == RememberingDecisions(v, Burst(n - 1, at), capacity, rate);
      assert d[1..] == AllGranted(n - 1);
      AllGrantedNeedsTokens(v, capacity, rate, at, n - 1);
      TakesOne(v["client"], at);
    }
  }

  /** The theorem: with fixed settings, forgetting idle clients is invisible on every admissible trace if and only
      if a full capacity refills within the time to live. */
  lemma ForgettingIsInvisibleIff(capacity: int, rate: real)
    requires capacity >= 0 && rate >= 0.0
    ensures (forall requests :: Admissible(requests) ==> SameDecisions(requests, capacity, rate))
            <==> capacity as real <= rate * ENTRY_TTL
  {
    if capacity as real <= rate * ENTRY_TTL {
      forall requests | Admissible(requests) ensures SameDecisions(requests, capacity, rate) {
        DecisionsAgree(EMPTY_AT_ZERO, map[], KeysOf(requests), capacity, rate, 0.0, requests);
      }
    } else {
      assert rate * ENTRY_TTL >= 0.0;
      var requests := DrainedClientTellsThemApart(capacity, rate);
    }
  }
}
