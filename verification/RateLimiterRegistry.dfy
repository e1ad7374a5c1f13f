/** The registry object itself: a dictionary of limiter objects updated in place, tied to the pure registry. */
module RateLimiterRegistries {
  import opened Options
  import opened OrderedDicts
  import opened RateLimits

  type Limiters = ODict<string, AuthRateLimiter>

  ghost function Objects(d: Limiters): set<AuthRateLimiter> {
    set e | e in d :: e.1
  }

  function Views(d: Limiters): ODict<string, Bucket>
    reads Objects(d)
  {
    if d == [] then []
    else
      assert d[0] in d && forall e | e in d[1..] :: e in d;
      [(d[0].0, d[0].1.View())] + Views(d[1..])
  }

  /** No limiter serves two clients. */
  ghost predicate Separate(d: Limiters) {
    d == [] || ((forall e | e in d[1..] :: e.1 != d[0].1) && Separate(d[1..]))
  }

  lemma {:induction false} ViewsGet(d: Limiters, k: string)
    ensures Get(Views(d), k) == (match Get(d, k) case None => None case Some(o) => Some(o.View()))
  {
    if d != [] {
      ViewsGet(d[1..], k);
      assert Views(d)[1..] == Views(d[1..]);
    }
  }

  lemma {:induction false} ViewsDistinct(d: Limiters)
    ensures Distinct(Views(d)) == Distinct(d)
  {
    if d != [] {
      ViewsDistinct(d[1..]);
      ViewsGet(d[1..], d[0].0);
      assert Views(d)[1..] == Views(d[1..]);
    }
  }

  lemma {:induction false} ViewsAppend(d: Limiters, k: string, o: AuthRateLimiter)
    requires Get(d, k) == None && Separate(d) && o !in Objects(d)
    ensures Put(d, k, o) == d + [(k, o)]
    ensures Views(Put(d, k, o)) == Put(Views(d), k, o.View()) && Separate(Put(d, k, o))
  {
    if d != [] {
      forall x | x in Objects(d[1..]) ensures x in Objects(d) {
        var e :| e in d[1..] && e.1 == x;
        assert e in d;
      }
      ViewsAppend(d[1..], k, o);
      assert d[0] in d && d[0].1 in Objects(d);
      assert Views(d)[1..] == Views(d[1..]);
      var p := Put(d, k, o);
      assert p[1..] == Put(d[1..], k, o);
    }
  }

  lemma {:induction false} ViewsRemove(d: Limiters, k: string)
    requires Separate(d)
    ensures Views(Remove(d, k)) == Remove(Views(d), k) && Separate(Remove(d, k))
    ensures forall e | e in Remove(d, k) :: e in d
  {
    if d != [] {
      assert Views(d)[1..] == Views(d[1..]);
      if d[0].0 != k {
        ViewsRemove(d[1..], k);
        assert Remove(d, k)[1..] == Remove(d[1..], k);
      }
    }
  }

  lemma {:induction false} ViewsAt(d: Limiters)
    ensures |Views(d)| == |d|
    ensures forall i :: 0 <= i < |d| ==> Views(d)[i] == (d[i].0, d[i].1.View())
  {
    if d != [] {
      ViewsAt(d[1..]);
      forall i | 0 < i < |d| ensures Views(d)[i] == (d[i].0, d[i].1.View()) {
        assert Views(d)[i] == Views(d[1..])[i - 1] && d[i] == d[1..][i - 1];
      }
    }
  }

  lemma ViewsAre(d: Limiters, v: ODict<string, Bucket>)
    requires |v| == |d|
    requires forall i :: 0 <= i < |d| ==> v[i] == (d[i].0, d[i].1.View())
    ensures Views(d) == v
  {
    ViewsAt(d);
  }

  /** What one limiter's `Acquire` does to the whole table. */
  lemma {:induction false} OneMoved(d: Limiters, was: ODict<string, Bucket>, k: string, o: AuthRateLimiter)
    requires Separate(d) && Get(d, k) == Some(o) && |was| == |d|
    requires forall i :: 0 <= i < |d| ==> was[i].0 == d[i].0 && (d[i].1 == o || was[i].1 == d[i].1.View())
    ensures Views(d) == Put(was, k, o.View())
  {
    ViewsAt(d);
    if d[0].0 == k {
      forall i | 0 < i < |d| ensures d[i].1 != o {
        assert d[i] in d[1..];
      }
    } else {
      GetAt(d[1..], k);
      OneMoved(d[1..], was[1..], k, o);
      assert Views(d)[1..] == Views(d[1..]);
    }
  }

  /** The keys the eviction sweep collects before it deletes. */
  function StaleKeys(limiters: ODict<string, Bucket>, cutoff: real): seq<string> {
    if limiters == [] then []
    else (if limiters[0].1.lastAccessed < cutoff then [limiters[0].0] else []) + StaleKeys(limiters[1..], cutoff)
  }

  lemma {:induction false} StaleKeysAreKeys(v: ODict<string, Bucket>, cutoff: real, k: string)
    requires k in StaleKeys(v, cutoff)
    ensures Has(v, k)
  {
    if v[0].0 != k {
      StaleKeysAreKeys(v[1..], cutoff, k);
    }
  }

  lemma {:induction false} NoneStale(v: ODict<string, Bucket>, cutoff: real)
    requires StaleKeys(v, cutoff) == []
    ensures NotStale(v, cutoff) == v
  {
    if v != [] {
      NoneStale(v[1..], cutoff);
    }
  }

  /** Deleting the first collected key leaves the others to delete and the same entries to keep. */
  lemma {:induction false} DeleteOneStale(v: ODict<string, Bucket>, cutoff: real)
    requires Distinct(v) && StaleKeys(v, cutoff) != []
    ensures var k := StaleKeys(v, cutoff)[0];
            && StaleKeys(Remove(v, k), cutoff) == StaleKeys(v, cutoff)[1..]
            && NotStale(Remove(v, k), cutoff) == NotStale(v, cutoff)
  {
    if v[0].1.lastAccessed >= cutoff {
      var k := StaleKeys(v, cutoff)[0];
      assert k == StaleKeys(v[1..], cutoff)[0];
      StaleKeysAreKeys(v[1..], cutoff, k);
      DeleteOneStale(v[1..], cutoff);
      assert Remove(v, k)[1..] == Remove(v[1..], k);
    }
  }

  class RateLimiterRegistry {
    var limiters: Limiters
    var lastEviction: real

    ghost predicate Valid()
      reads this
    {
      Distinct(limiters) && Separate(limiters)
    }

    function View(): Registry
      reads this, Objects(limiters)
    {
      Registry(Views(limiters), lastEviction)
    }

    constructor (now: real)
      ensures Valid() && View() == Registry([], now)
    {
      limiters := [];
      lastEviction := now;
    }

    method EvictExpired(now: real)
      requires Valid()
      modifies this
      ensures Valid() && View() == RateLimits.EvictExpired(old(View()), now)
      ensures Objects(limiters) <= old(Objects(limiters))
    {
      if now - lastEviction < INTERVAL {
        return;
      }
      ghost var before := Views(limiters);
      ViewsAt(limiters);
      lastEviction := now;
      ViewsAre(limiters, before);
      var cutoff := now - ENTRY_TTL;
      var stale := StaleKeys(Views(limiters), cutoff);
      while stale != []
        invariant Valid() && lastEviction == now
        invariant forall e | e in limiters :: e in old(limiters)
        invariant stale == StaleKeys(Views(limiters), cutoff)
        invariant NotStale(Views(limiters), cutoff) == NotStale(before, cutoff)
        decreases |stale|
      {
        ViewsDistinct(limiters);
        DeleteOneStale(Views(limiters), cutoff);
        ViewsRemove(limiters, stale[0]);
        RemoveKeys(limiters, stale[0]);
        ghost var smaller := Remove(Views(limiters), stale[0]);
        ViewsAt(Remove(limiters, stale[0]));
        limiters := Remove(limiters, stale[0]);
        ViewsAre(limiters, smaller);
        stale := stale[1..];
      }
      NoneStale(Views(limiters), cutoff);
    }

    method GetOrCreate(q: Request, capacity: int, rate: real) returns (limiter: AuthRateLimiter)
      requires Valid()
      modifies this
      ensures Valid() && View() == RateLimits.GetOrCreate(old(View()), q, capacity, rate)
      ensures Get(limiters, q.key) == Some(limiter)
      ensures limiter in old(Objects(limiters)) || fresh(limiter)
      ensures forall o | o in Objects(limiters) :: o in old(Objects(limiters)) || fresh(o)
    {
      hide RateLimits.EvictExpired, OldestKey, NotStale, Remove, Put;
      EvictExpired(q.evictTime);
      ViewsGet(limiters, q.key);
      ViewsDistinct(limiters);
      ViewsAt(limiters);
      match Get(limiters, q.key)
      case Some(found) =>
        GetAt(limiters, q.key);
        limiter := found;
      case None =>
        if |limiters| >= MAX_ENTRIES {
          Delete(OldestKey(Views(limiters)));
        }
        limiter := Create(q, capacity, rate);
    }

    method Delete(key: string)
      requires Valid()
      modifies this`limiters
      ensures Valid() && Views(limiters) == Remove(old(Views(limiters)), key)
      ensures Objects(limiters) <= old(Objects(limiters))
      ensures forall k :: Get(old(limiters), k) == None ==> Get(limiters, k) == None
    {
      ViewsRemove(limiters, key);
      RemoveKeys(limiters, key);
      forall k | Get(limiters, k) == None ensures Get(Remove(limiters, key), k) == None {
        GetRemove(limiters, key, k);
      }
      ghost var smaller := Remove(Views(limiters), key);
      ViewsAt(Remove(limiters, key));
      limiters := Remove(limiters, key);
      ViewsAre(limiters, smaller);
    }

    method Create(q: Request, capacity: int, rate: real) returns (limiter: AuthRateLimiter)
      requires Valid() && Get(limiters, q.key) == None
      modifies this`limiters
      ensures Valid() && fresh(limiter) && Get(limiters, q.key) == Some(limiter)
      ensures Views(limiters) == Put(old(Views(limiters)), q.key, NewBucket(capacity, rate, q.refillTime, q.accessTime))
      ensures forall e | e in limiters :: e in old(limiters) || e.1 == limiter
    {
      ghost var before := Views(limiters);
      ViewsAt(limiters);
      limiter := new AuthRateLimiter(capacity, rate, q.refillTime, q.accessTime);
      ViewsAre(limiters, before);
      ViewsAppend(limiters, q.key, limiter);
      PutKeys(limiters, q.key, limiter);
      GetPut(limiters, q.key, limiter, q.key);
      ghost var larger := Put(before, q.key, limiter.View());
      var after := Put(limiters, q.key, limiter);
      ViewsAt(after);
      limiters := after;
      ViewsAre(limiters, larger);
    }

    /** What the middleware does with one authentication request. */
    method Handle(q: Request, capacity: int, rate: real) returns (granted: bool)
      requires Valid()
      modifies this, Objects(limiters)
      ensures Valid() && (View(), granted) == RateLimits.Handle(old(View()), q, capacity, rate)
    {
      var limiter := GetOrCreate(q, capacity, rate);
      ViewsGet(limiters, q.key);
      ViewsAt(limiters);
      ghost var was := Views(limiters);
      granted := limiter.Acquire(q.now);
      OneMoved(limiters, was, q.key, limiter);
    }
  }
}
