/** Which limiters the registry keeps: none idle for too long, and never more than it has room for. */
module RegistryBounds {
  import opened Options
  import opened OrderedDicts
  import opened RateLimits
  import opened RateRegistry

  // ---------------------------------------------------------------- idle limiters

  lemma {:induction false} NotStaleShrinks(limiters: ODict<string, Bucket>, cutoff: real)
    ensures |NotStale(limiters, cutoff)| <= |limiters|
  {
    if limiters != [] {
      NotStaleShrinks(limiters[1..], cutoff);
    }
  }

  /** Half an hour or more after the last eviction, and only then, a request drops exactly the limiters that were not
      used for more than an hour, and stamps the eviction. */
  lemma EvictsExactly(r: Registry, now: real, k: string)
    requires Distinct(r.limiters)
    ensures var v := EvictExpired(r, now);
            var due := now - r.lastEviction >= 1800.0;
            && v.lastEviction == (if due then now else r.lastEviction)
            && Distinct(v.limiters) && |v.limiters| <= |r.limiters|
            && Get(v.limiters, k)
               == match Get(r.limiters, k)
                  case None => None
                  case Some(b) => if due && now - b.lastAccessed > 3600.0 then None else Some(b)
  {
    NotStaleFacts(r.limiters, now - ENTRY_TTL);
    NotStaleShrinks(r.limiters, now - ENTRY_TTL);
  }

  // ---------------------------------------------------------------- room for a new limiter

  /** No limiter was used before this one, and none stored before it was used no later. */
  ghost predicate IsOldest(limiters: ODict<string, Bucket>, i: nat) {
    && i < |limiters|
    && (forall j :: 0 <= j < |limiters| ==> limiters[i].1.lastAccessed <= limiters[j].1.lastAccessed)
    && forall j :: 0 <= j < i ==> limiters[i].1.lastAccessed < limiters[j].1.lastAccessed
  }

  lemma {:induction false} OldestIsLeast(limiters: ODict<string, Bucket>) returns (i: nat)
    requires limiters != [] && Distinct(limiters)
    ensures IsOldest(limiters, i) && OldestKey(limiters) == limiters[i].0
  {
    i := 0;
    if |limiters| > 1 {
      var j := OldestIsLeast(limiters[1..]);
      GetOfItem(limiters[1..], j);
      if limiters[0].1.lastAccessed > limiters[1..][j].1.lastAccessed {
        i := j + 1;
      }
      forall k | 0 <= k < |limiters| ensures limiters[i].1.lastAccessed <= limiters[k].1.lastAccessed {
        assert k > 0 ==> limiters[1..][k - 1] == limiters[k];
      }
      forall k | 0 <= k < i ensures limiters[i].1.lastAccessed < limiters[k].1.lastAccessed {
        assert k > 0 ==> limiters[1..][k - 1] == limiters[k];
      }
    }
  }

  /** A request of a known client drops nobody more. A new client gets a full limiter; if there was no room for it,
      one limiter goes: the least recently used, the first stored of several. */
  lemma MakesRoomExactly(r: Registry, q: Request, capacity: int, rate: real)
    requires Distinct(r.limiters) && |r.limiters| <= 10000
    ensures var e := EvictExpired(r, q.evictTime);
            var v := GetOrCreate(r, q, capacity, rate);
            && Distinct(v.limiters) && |v.limiters| <= 10000 && v.lastEviction == e.lastEviction
            && if Get(e.limiters, q.key).Some? then v == e
               else
                 && Get(v.limiters, q.key) == Some(Bucket(capacity, rate, capacity as real, q.refillTime, q.accessTime))
                 && (|e.limiters| < 10000 ==> forall k | k != q.key :: Get(v.limiters, k) == Get(e.limiters, k))
                 && (|e.limiters| == 10000 ==>
                       exists i: nat ::
                         && IsOldest(e.limiters, i)
                         && forall k | k != q.key ::
                              Get(v.limiters, k) == if k == e.limiters[i].0 then None else Get(e.limiters, k))
  {
    hide EvictExpired, NewBucket;
    EvictsExactly(r, q.evictTime, q.key);
    var e := EvictExpired(r, q.evictTime);
    if Get(e.limiters, q.key).None? {
      var b := NewBucket(capacity, rate, q.refillTime, q.accessTime);
      NewIs(capacity, rate, q.refillTime, q.accessTime);
      if |e.limiters| >= MAX_ENTRIES {
        var gone := OldestKey(e.limiters);
        var i := OldestIsLeast(e.limiters);
        GetOfItem(e.limiters, i);
        RemoveKeys(e.limiters, gone);
        PutFacts(Remove(e.limiters, gone), q.key, b);
        PutKeys(Remove(e.limiters, gone), q.key, b);
        forall k ensures Get(Remove(e.limiters, gone), k) == if k == gone then None else Get(e.limiters, k) {
          GetRemove(e.limiters, gone, k);
        }
      } else {
        PutFacts(e.limiters, q.key, b);
        PutKeys(e.limiters, q.key, b);
      }
    }
  }

  lemma NewIs(capacity: int, rate: real, refill: real, access: real)
    ensures NewBucket(capacity, rate, refill, access) == Bucket(capacity, rate, capacity as real, refill, access)
  {
  }

  /** The client's limiter decides the request, and no other limiter changes. */
  lemma HandlesExactly(r: Registry, q: Request, capacity: int, rate: real)
    requires Distinct(r.limiters) && |r.limiters| <= 10000
    ensures var g := GetOrCreate(r, q, capacity, rate);
            var (v, granted) := Handle(r, q, capacity, rate);
            && Get(g.limiters, q.key).Some?
            && granted == Acquired(Get(g.limiters, q.key).value, q.now).1
            && Get(v.limiters, q.key) == Some(Acquired(Get(g.limiters, q.key).value, q.now).0)
            && (forall k | k != q.key :: Get(v.limiters, k) == Get(g.limiters, k))
            && Distinct(v.limiters) && |v.limiters| <= 10000 && v.lastEviction == g.lastEviction
  {
    hide GetOrCreate, Acquired;
    MakesRoomExactly(r, q, capacity, rate);
    var g := GetOrCreate(r, q, capacity, rate);
    var b := Acquired(Get(g.limiters, q.key).value, q.now).0;
    PutFacts(g.limiters, q.key, b);
    PutKeys(g.limiters, q.key, b);
  }
}
