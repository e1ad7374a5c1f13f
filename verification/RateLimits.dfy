/** The dashboard's token-bucket limiter and its per-client registry; reals stand for floats. */
module RateLimits {
  import opened Options
  import opened OrderedDicts

  const ENTRY_TTL := 3600.0
  const INTERVAL := 1800.0
  const MAX_ENTRIES := 10000

  datatype Bucket = Bucket(capacity: int, rate: real, tokens: real, lastRefill: real, lastAccessed: real)

  function Min(a: real, b: real): real {
    if a <= b then a else b
  }

  function Gain(elapsed: real, rate: real): real {
    elapsed * rate
  }

  function Refilled(b: Bucket, now: real): real {
    Min(b.capacity as real, b.tokens + Gain(now - b.lastRefill, b.rate))
  }

  function Acquired(b: Bucket, now: real): (Bucket, bool) {
    var tokens := Refilled(b, now);
    if tokens >= 1.0 then (b.(tokens := tokens - 1.0, lastRefill := now, lastAccessed := now), true)
    else (b.(tokens := tokens, lastRefill := now, lastAccessed := now), false)
  }

  /** The two clock readings of the constructor. */
  function NewBucket(capacity: int, rate: real, refill: real, access: real): Bucket {
    Bucket(capacity, rate, capacity as real, refill, access)
  }

  class AuthRateLimiter {
    const capacity: int
    const refillRate: real
    var tokens: real
    var lastRefill: real
    var lastAccessed: real

    function View(): Bucket
      reads this
    {
      Bucket(capacity, refillRate, tokens, lastRefill, lastAccessed)
    }

    constructor (capacity: int, refillRate: real, refill: real, access: real)
      ensures View() == NewBucket(capacity, refillRate, refill, access)
    {
      this.capacity := capacity;
      this.refillRate := refillRate;
      this.tokens := capacity as real;
      this.lastRefill := refill;
      this.lastAccessed := access;
    }

    method Acquire(now: real) returns (granted: bool)
      modifies this
      ensures (View(), granted) == Acquired(old(View()), now)
    {
      var elapsed := now - lastRefill;
      tokens := Min(capacity as real, tokens + Gain(elapsed, refillRate));
      lastRefill := now;
      lastAccessed := now;
      if tokens >= 1.0 {
        tokens := tokens - 1.0;
        return true;
      }
      return false;
    }
  }

  // ---------------------------------------------------------------- one bucket

  ghost predicate Monotone(times: seq<real>, from: real) {
    times == [] || (from <= times[0] && Monotone(times[1..], times[0]))
  }

  function After(b: Bucket, times: seq<real>): Bucket
    decreases |times|
  {
    if times == [] then b else After(Acquired(b, times[0]).0, times[1..])
  }

  function Grants(b: Bucket, times: seq<real>): nat
    decreases |times|
  {
    if times == [] then 0
    else (if Acquired(b, times[0]).1 then 1 else 0) + Grants(Acquired(b, times[0]).0, times[1..])
  }

  ghost predicate InRange(b: Bucket) {
    b.capacity >= 0 && b.rate >= 0.0 && 0.0 <= b.tokens <= b.capacity as real
  }

  lemma GainFacts(elapsed: real, more: real, rate: real)
    requires elapsed >= 0.0 && more >= 0.0 && rate >= 0.0
    ensures Gain(elapsed, rate) >= 0.0
    ensures Gain(elapsed, rate) + Gain(more, rate) == Gain(elapsed + more, rate)
    ensures elapsed == 0.0 ==> Gain(elapsed, rate) == 0.0
  {
  }

  lemma AcquireInRange(b: Bucket, now: real)
    requires InRange(b) && b.lastRefill <= now
    ensures InRange(Acquired(b, now).0) && 0.0 <= Refilled(b, now)
  {
    hide Gain;
    GainFacts(now - b.lastRefill, 0.0, b.rate);
  }

  /** Tokens stay between zero and the capacity. */
  lemma {:induction false} TokensStayInRange(b: Bucket, times: seq<real>)
    requires InRange(b) && Monotone(times, b.lastRefill)
    ensures InRange(After(b, times))
    decreases |times|
  {
    if times != [] {
      AcquireInRange(b, times[0]);
      TokensStayInRange(Acquired(b, times[0]).0, times[1..]);
    }
  }

  /** Tokens are conserved: what is granted comes from what was there and what the time refilled. */
  lemma {:induction false} GrantsAreBounded(b: Bucket, times: seq<real>)
    requires InRange(b) && Monotone(times, b.lastRefill) && times != []
    ensures Grants(b, times) as real + After(b, times).tokens
            <= Refilled(b, times[0]) + Gain(times[|times| - 1] - times[0], b.rate)
    decreases |times|
  {
    hide Gain;
    AcquireInRange(b, times[0]);
    var c := Acquired(b, times[0]).0;
    var rest := times[1..];
    if rest == [] {
      GainFacts(0.0, 0.0, b.rate);
    } else {
      GrantsAreBounded(c, rest);
      LastIsLatest(rest, rest[0]);
      assert rest[|rest| - 1] == times[|times| - 1];
      GainFacts(rest[0] - times[0], times[|times| - 1] - rest[0], b.rate);
    }
  }

  lemma {:induction false} LastIsLatest(times: seq<real>, from: real)
    requires Monotone(times, from) && times != []
    ensures from <= times[|times| - 1]
    decreases |times|
  {
    if |times| > 1 {
      LastIsLatest(times[1..], times[0]);
      assert times[1..][|times| - 2] == times[|times| - 1];
    }
  }

  lemma {:induction false} MonotoneSplit(a: seq<real>, b: seq<real>, start: Bucket)
    requires Monotone(a + b, start.lastRefill)
    ensures Monotone(a, start.lastRefill)
    ensures Monotone(b, After(start, a).lastRefill)
    decreases |a|
  {
    if a == [] {
      assert a + b == b;
    } else {
      assert (a + b)[1..] == a[1..] + b;
      MonotoneSplit(a[1..], b, Acquired(start, a[0]).0);
    }
  }

  lemma {:induction false} SettingsKept(b: Bucket, times: seq<real>)
    ensures After(b, times).rate == b.rate && After(b, times).capacity == b.capacity
    decreases |times|
  {
    if times != [] {
      SettingsKept(Acquired(b, times[0]).0, times[1..]);
    }
  }

  /** In every stretch of a request sequence, at most the capacity plus what the stretch's duration refills is
      granted. */
  lemma WindowBound(b: Bucket, before: seq<real>, window: seq<real>)
    requires InRange(b) && Monotone(before + window, b.lastRefill) && window != []
    ensures Grants(After(b, before), window) as real
            <= b.capacity as real + Gain(window[|window| - 1] - window[0], b.rate)
  {
    hide After, Grants, Gain, Monotone;
    MonotoneSplit(before, window, b);
    TokensStayInRange(b, before);
    SettingsKept(b, before);
    GrantsAreBounded(After(b, before), window);
    TokensStayInRange(After(b, before), window);
  }

  // ---------------------------------------------------------------- the registry

  datatype Registry = Registry(limiters: ODict<string, Bucket>, lastEviction: real)

  function NotStale(limiters: ODict<string, Bucket>, cutoff: real): ODict<string, Bucket> {
    if limiters == [] then []
    else (if limiters[0].1.lastAccessed < cutoff then [] else [limiters[0]]) + NotStale(limiters[1..], cutoff)
  }

  function EvictExpired(r: Registry, now: real): Registry {
    if now - r.lastEviction < INTERVAL then r else Registry(NotStale(r.limiters, now - ENTRY_TTL), now)
  }

  /** The first of the least recently accessed limiters. */
  function OldestKey(limiters: ODict<string, Bucket>): string
    requires limiters != []
  {
    if |limiters| == 1 then limiters[0].0
    else
      var k := OldestKey(limiters[1..]);
      if limiters[0].1.lastAccessed <= Get(limiters[1..], k).GetOr(limiters[0].1).lastAccessed
      then limiters[0].0 else k
  }

  /** One request: its client key and the clock readings of eviction, construction and acquisition. */
  datatype Request = Request(key: string, evictTime: real, refillTime: real, accessTime: real, now: real)

  function GetOrCreate(r: Registry, q: Request, capacity: int, rate: real): Registry {
    var e := EvictExpired(r, q.evictTime);
    if Has(e.limiters, q.key) then e
    else
      var kept := if |e.limiters| >= MAX_ENTRIES then Remove(e.limiters, OldestKey(e.limiters)) else e.limiters;
      e.(limiters := Put(kept, q.key, NewBucket(capacity, rate, q.refillTime, q.accessTime)))
  }

  function Handle(r: Registry, q: Request, capacity: int, rate: real): (Registry, bool) {
    var g := GetOrCreate(r, q, capacity, rate);
    var (b, granted) := Acquired(Get(g.limiters, q.key).GetOr(NewBucket(capacity, rate, q.refillTime, q.accessTime)), q.now);
    (g.(limiters := Put(g.limiters, q.key, b)), granted)
  }

  function Decisions(r: Registry, requests: seq<Request>, capacity: int, rate: real): seq<bool>
    decreases |requests|
  {
    if requests == [] then []
    else
      var (v, granted) := Handle(r, requests[0], capacity, rate);
      [granted] + Decisions(v, requests[1..], capacity, rate)
  }

  /** The registry that never drops a limiter. */
  function RememberingHandle(m: map<string, Bucket>, q: Request, capacity: int, rate: real): (map<string, Bucket>, bool) {
    var b := if q.key in m then m[q.key] else NewBucket(capacity, rate, q.refillTime, q.accessTime);
    var (c, granted) := Acquired(b, q.now);
    (m[q.key := c], granted)
  }

  function RememberingDecisions(m: map<string, Bucket>, requests: seq<Request>, capacity: int, rate: real): seq<bool>
    decreases |requests|
  {
    if requests == [] then []
    else
      var (v, granted) := RememberingHandle(m, requests[0], capacity, rate);
      [granted] + RememberingDecisions(v, requests[1..], capacity, rate)
  }

  predicate InOrder(requests: seq<Request>, from: real) {
    requests == [] ||
    (&& from <= requests[0].evictTime <= requests[0].refillTime <= requests[0].accessTime <= requests[0].now
     && InOrder(requests[1..], requests[0].now))
  }

  function KeysOf(requests: seq<Request>): set<string> {
    set q | q in requests :: q.key
  }
}
