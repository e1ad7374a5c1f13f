/** Single-flight image captions: one caller leads the provider call, the others await its future. */
module CaptionFlights {
  import opened Options
  import opened OrderedDicts

  const MAX_CAPTION_CACHE_ENTRIES := 512

  datatype Key = Key(umo: string, content: string)
  datatype Entry = Entry(caption: string, expires: real)

  /** How a future is settled and how a caller leaves. */
  datatype Outcome = Caption(text: string) | Failure | Cancellation

  type Cache = ODict<Key, Entry>
  type Futures = map<nat, Option<Outcome>>

  /** The cache, the flight of each key, and the future of each flight, `None` while it is pending. */
  datatype Table = Table(cache: Cache, inflight: map<Key, nat>, futures: Futures)

  /** What a caller learns under the cache lock. */
  datatype Claim = Cached(caption: string) | Follow(flight: nat) | Lead

  /** `_cache_get`: an expired entry goes, a live one becomes the most recent. */
  function Looked(cache: Cache, k: Key, now: real): (Cache, Option<string>) {
    match Get(cache, k)
    case None => (cache, None)
    case Some(e) =>
      if e.expires <= now then (Remove(cache, k), None) else (PutLast(cache, k, e), Some(e.caption))
  }

  /** The most recent entries, `n` of them at most. */
  function Newest(cache: Cache, n: nat): Cache {
    if |cache| > n then cache[|cache| - n..] else cache
  }

  /** `_cache_put`. */
  function Stored(cache: Cache, k: Key, caption: string, ttl: real, now: real): Cache {
    if ttl <= 0.0 || caption == "" then cache
    else Newest(PutLast(cache, k, Entry(caption, now + ttl)), MAX_CAPTION_CACHE_ENTRIES)
  }

  function WithoutGroup(cache: Cache, umo: string): Cache {
    if cache == [] then []
    else if cache[0].0.umo == umo then WithoutGroup(cache[1..], umo)
    else [cache[0]] + WithoutGroup(cache[1..], umo)
  }

  /** Settle a future that is still pending; leave any other as it is. */
  function Settled(futures: Futures, f: nat, o: Outcome): Futures {
    if f in futures && futures[f].None? then futures[f := Some(o)] else futures
  }

  function Claimed(t: Table, k: Key, flight: nat, ttl: real, now: real): (Table, Claim) {
    var (cache, cached) := if ttl > 0.0 then Looked(t.cache, k, now) else (t.cache, None);
    var v := t.(cache := cache);
    if cached.Some? then (v, Cached(cached.value))
    else if k in t.inflight then (v, Follow(t.inflight[k]))
    else (v.(inflight := t.inflight[k := flight], futures := t.futures[flight := None]), Lead)
  }

  /** The leader's way out: settle the future unless it is done, take the flight out if it is still its own. */
  function Finished(t: Table, k: Key, f: nat, o: Outcome): Table {
    t.(futures := Settled(t.futures, f, o),
       inflight := if k in t.inflight && t.inflight[k] == f then t.inflight - {k} else t.inflight)
  }

  function FlightsOf(inflight: map<Key, nat>, umo: string): set<nat> {
    set k | k in inflight && k.umo == umo :: inflight[k]
  }

  function AllCancelled(futures: Futures, flights: set<nat>): Futures {
    map f | f in futures :: if f in flights && futures[f].None? then Some(Cancellation) else futures[f]
  }

  /** The last part of `remove_session`. */
  function Removed(t: Table, umo: string): Table {
    Table(WithoutGroup(t.cache, umo),
          map k | k in t.inflight && k.umo != umo :: t.inflight[k],
          AllCancelled(t.futures, FlightsOf(t.inflight, umo)))
  }

  class CaptionTable {
    var captionCache: Cache
    var captionInflight: map<Key, nat>
    var futures: Futures

    function View(): Table
      reads this
    {
      Table(captionCache, captionInflight, futures)
    }

    constructor ()
      ensures View() == Table([], map[], map[])
    {
      captionCache, captionInflight, futures := [], map[], map[];
    }

    method CacheGet(k: Key, now: real) returns (caption: Option<string>)
      modifies this`captionCache
      ensures (captionCache, caption) == Looked(old(captionCache), k, now)
    {
      match Get(captionCache, k)
      case None =>
        return None;
      case Some(entry) =>
        if entry.expires <= now {
          captionCache := Remove(captionCache, k);
          return None;
        }
        captionCache := PutLast(captionCache, k, entry);
        return Some(entry.caption);
    }

    method CachePut(k: Key, caption: string, ttl: real, now: real)
      modifies this`captionCache
      ensures captionCache == Stored(old(captionCache), k, caption, ttl, now)
    {
      if ttl <= 0.0 || caption == "" {
        return;
      }
      captionCache := PutLast(captionCache, k, Entry(caption, now + ttl));
      ghost var all := captionCache;
      while |captionCache| > MAX_CAPTION_CACHE_ENTRIES
        invariant Newest(captionCache, MAX_CAPTION_CACHE_ENTRIES) == Newest(all, MAX_CAPTION_CACHE_ENTRIES)
        decreases |captionCache|
      {
        captionCache := captionCache[1..];
      }
    }

    /** Under the cache lock, before anything is awaited. */
    method ClaimFlight(k: Key, flight: nat, ttl: real, now: real) returns (claim: Claim)
      modifies this
      ensures (View(), claim) == Claimed(old(View()), k, flight, ttl, now)
    {
      var cached := None;
      if ttl > 0.0 {
        cached := CacheGet(k, now);
      }
      if cached.Some? {
        return Cached(cached.value);
      }
      if k in captionInflight {
        return Follow(captionInflight[k]);
      }
      futures := futures[flight := None];
      captionInflight := captionInflight[k := flight];
      return Lead;
    }

    method LeaveFlight(k: Key, flight: nat, o: Outcome)
      modifies this`futures, this`captionInflight
      ensures View() == Finished(old(View()), k, flight, o)
    {
      if flight in futures && futures[flight].None? {
        futures := futures[flight := Some(o)];
      }
      if k in captionInflight && captionInflight[k] == flight {
        captionInflight := captionInflight - {k};
      }
    }

    method RemoveSession(umo: string)
      modifies this
      ensures View() == Removed(old(View()), umo)
    {
      captionCache := WithoutGroup(captionCache, umo);
      futures := AllCancelled(futures, FlightsOf(captionInflight, umo));
      captionInflight := map k | k in captionInflight && k.umo != umo :: captionInflight[k];
    }
  }
}
