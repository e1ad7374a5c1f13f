/** When a caption comes from the cache, from another caller, or from the provider. */
module CaptionCaching {
  import opened Options
  import opened OrderedDicts
  import opened CaptionFlights
  import opened CaptionProtocol

  // ---------------------------------------------------------------- one lookup

  /** The caption cached for a key that has not expired. */
  function LiveCaption(cache: Cache, k: Key, now: real): Option<string> {
    match Get(cache, k)
    case Some(e) => if now < e.expires then Some(e.caption) else None
    case None => None
  }

  /** A lookup answers with the live caption, drops an expired one, and changes no entry otherwise. */
  lemma LookedExactly(cache: Cache, k: Key, now: real)
    requires Distinct(cache)
    ensures var (after, answer) := Looked(cache, k, now);
            && answer == LiveCaption(cache, k, now)
            && Distinct(after)
            && forall x :: Get(after, x) == if x == k && answer.None? then None else Get(cache, x)
  {
    var (after, answer) := Looked(cache, k, now);
    match Get(cache, k) {
      case Some(e) =>
        PutLastFacts(cache, k, e);
        RemoveKeys(cache, k);
        forall x ensures Get(Remove(cache, k), x) == if x == k then None else Get(cache, x) {
          GetRemove(cache, k, x);
        }
      case None =>
    }
  }

  /** The entries more recent than a key's. */
  function Behind(d: Cache, k: Key): nat {
    if d == [] then 0 else if d[0].0 == k then |d| - 1 else Behind(d[1..], k)
  }

  /** A caller is answered at once if a live caption is cached and caching is on; else it follows the key's flight if
      there is one; else it leads a new one. */
  lemma EntersExactly(s: Sys, call: nat, k: Key, flight: nat, ttl: real, now: real)
    requires Enabled(s, Enter(call, k, flight, ttl, now)) && Distinct(s.table.cache)
    ensures var v := Step(s, Enter(call, k, flight, ttl, now));
            var cached := if ttl > 0.0 then LiveCaption(s.table.cache, k, now) else None;
            && v.calls == s.calls[call := if cached.Some? then Left(Caption(cached.value))
                                          else if k in s.table.inflight then Following(s.table.inflight[k])
                                          else Queued(k, flight)]
            && v.table.inflight == (if cached.None? && k !in s.table.inflight then s.table.inflight[k := flight]
                                    else s.table.inflight)
            && v.table.futures == (if cached.None? && k !in s.table.inflight then s.table.futures[flight := None]
                                   else s.table.futures)
            && v.free == s.free
            && (forall x :: Get(v.table.cache, x)
                            == if ttl > 0.0 && x == k && cached.None? then None else Get(s.table.cache, x))
            && (cached.Some? ==> Behind(v.table.cache, k) == 0)
  {
    LookedExactly(s.table.cache, k, now);
    if ttl > 0.0 && LiveCaption(s.table.cache, k, now).Some? {
      MovedLast(s.table.cache, k, Get(s.table.cache, k).value, k);
    }
  }

  /** A leader can fail or be cancelled at any time and is answered once it calls; it calls when there is a permit. A
      follower can be cancelled at any time and wakes when its future is settled. */
  lemma WhoCanGoOn(s: Sys, call: nat, caption: string, ttl: real, now: real)
    ensures Enabled(s, GetPermit(call)) <==> call in s.calls && s.calls[call].Queued? && s.free > 0
    ensures Enabled(s, Answered(call, caption, ttl, now)) <==> call in s.calls && s.calls[call].Calling?
    ensures Enabled(s, Failed(call)) <==> call in s.calls && (s.calls[call].Queued? || s.calls[call].Calling?)
    ensures Enabled(s, LeaderCancelled(call)) <==> call in s.calls && (s.calls[call].Queued? || s.calls[call].Calling?)
    ensures Enabled(s, FollowerCancelled(call)) <==> call in s.calls && s.calls[call].Following?
    ensures Inv(s) && call in s.calls && s.calls[call].Following? ==>
              (Enabled(s, Wakes(call)) <==> s.table.futures[s.calls[call].flight].Some?)
  {
  }

  /** Removing a session drops the group's captions and flights and cancels their pending futures; those of other
      groups, and futures that were settled, stay. */
  lemma RemovesExactly(s: Sys, umo: string)
    requires Inv(s) && Distinct(s.table.cache)
    ensures var v := Step(s, RemovesSession(umo));
            && (forall k :: Get(v.table.cache, k) == if k.umo == umo then None else Get(s.table.cache, k))
            && (forall k :: k in v.table.inflight <==> k in s.table.inflight && k.umo != umo)
            && (forall k :: k in v.table.inflight ==> v.table.inflight[k] == s.table.inflight[k])
            && v.table.futures.Keys == s.table.futures.Keys
            && (forall k :: k in s.table.inflight ==>
                  v.table.futures[s.table.inflight[k]]
                  == if k.umo == umo && s.table.futures[s.table.inflight[k]].None? then Some(Cancellation)
                     else s.table.futures[s.table.inflight[k]])
            && (forall f :: f in s.table.futures && f !in s.table.inflight.Values ==>
                  v.table.futures[f] == s.table.futures[f])
            && v.calls == s.calls && v.free == s.free
  {
    WithoutGroupFacts(s.table.cache, umo);
    forall k, l | k in s.table.inflight && l in s.table.inflight && s.table.inflight[k] == s.table.inflight[l]
      ensures k == l
    {
      assert s.calls[s.leader[s.table.inflight[k]]].key == k;
    }
    forall k | k in s.table.inflight ensures s.table.inflight[k] in s.table.futures {
      FlightKnown(s, k);
    }
  }

  // ---------------------------------------------------------------- how long a caption stays

  datatype Use = Look(key: Key, now: real) | Put(key: Key, caption: string, ttl: real, now: real)

  function Used(cache: Cache, u: Use): Cache {
    match u
    case Look(k, now) => Looked(cache, k, now).0
    case Put(k, caption, ttl, now) => Stored(cache, k, caption, ttl, now)
  }

  function UsedAll(cache: Cache, uses: seq<Use>): Cache
    decreases |uses|
  {
    if uses == [] then cache else UsedAll(Used(cache, uses[0]), uses[1..])
  }

  lemma {:induction false} BehindRemoved(d: Cache, x: Key, k: Key)
    requires Distinct(d) && x != k && Get(d, k).Some?
    ensures Get(Remove(d, x), k) == Get(d, k) && Behind(Remove(d, x), k) <= Behind(d, k)
    decreases |d|
  {
    RemoveKeys(d, x);
    if d[0].0 != x && d[0].0 != k {
      BehindRemoved(d[1..], x, k);
    }
    if d[0].0 == k {
      RemoveKeys(d[1..], x);
    }
  }

  lemma {:induction false} BehindAppended(d: Cache, item: (Key, Entry), k: Key)
    requires Get(d, k).Some?
    ensures Get(d + [item], k) == Get(d, k) && Behind(d + [item], k) == Behind(d, k) + 1
    decreases |d|
  {
    if d[0].0 != k {
      assert (d + [item])[1..] == d[1..] + [item];
      BehindAppended(d[1..], item, k);
    }
  }

  lemma {:induction false} BehindKept(d: Cache, n: nat, k: Key)
    requires Get(d, k).Some? && Behind(d, k) < n
    ensures Get(Newest(d, n), k) == Get(d, k) && Behind(Newest(d, n), k) == Behind(d, k)
    decreases |d|
  {
    if |d| > n {
      assert d[0].0 != k;
      BehindKept(d[1..], n, k);
      assert |d| - 1 > n ==> d[1..][|d| - 1 - n..] == d[|d| - n..];
      assert |d| - 1 == n ==> d[1..] == d[|d| - n..];
    }
  }

  lemma {:induction false} BehindLast(d: Cache, item: (Key, Entry))
    requires Get(d, item.0) == None
    ensures Get(d + [item], item.0) == Some(item.1) && Behind(d + [item], item.0) == 0
    decreases |d|
  {
    if d == [] {
      assert d + [item] == [item];
    } else {
      assert (d + [item])[1..] == d[1..] + [item];
      BehindLast(d[1..], item);
    }
  }

  lemma MovedLast(d: Cache, x: Key, e: Entry, k: Key)
    requires Distinct(d) && Get(d, k).Some?
    ensures Distinct(PutLast(d, x, e))
    ensures if x == k then Get(PutLast(d, x, e), k) == Some(e) && Behind(PutLast(d, x, e), k) == 0
            else Get(PutLast(d, x, e), k) == Get(d, k) && Behind(PutLast(d, x, e), k) <= Behind(d, k) + 1
  {
    PutLastFacts(d, x, e);
    if x == k {
      GetRemove(d, x, x);
      BehindLast(Remove(d, x), (x, e));
    } else {
      BehindRemoved(d, x, k);
      BehindAppended(Remove(d, x), (x, e), k);
    }
  }

  /** The use leaves a key's entry alone: it is of another key, or a lookup before the entry's end. */
  predicate Spares(u: Use, k: Key, expires: real) {
    u.key == k ==> u.Look? && u.now < expires
  }

  lemma UseSpares(d: Cache, u: Use, k: Key, e: Entry)
    requires Distinct(d) && Get(d, k) == Some(e) && Spares(u, k, e.expires) && Behind(d, k) + 1 < 512
    ensures Distinct(Used(d, u)) && Get(Used(d, u), k) == Some(e) && Behind(Used(d, u), k) <= Behind(d, k) + 1
  {
    match u
    case Look(x, now) =>
      match Get(d, x) {
        case None =>
        case Some(found) =>
          if found.expires <= now {
            RemoveKeys(d, x);
            BehindRemoved(d, x, k);
          } else {
            MovedLast(d, x, found, k);
          }
      }
    case Put(x, caption, ttl, now) =>
      var all := PutLast(d, x, Entry(caption, now + ttl));
      MovedLast(d, x, Entry(caption, now + ttl), k);
      BehindKept(all, 512, k);
      if |all| > 512 {
        DistinctDrop(all, |all| - 512);
      }
  }

  lemma {:induction false} StaysThrough(d: Cache, uses: seq<Use>, k: Key, e: Entry)
    requires Distinct(d) && Get(d, k) == Some(e) && Behind(d, k) + |uses| < 512
    requires forall u :: u in uses ==> Spares(u, k, e.expires)
    ensures Get(UsedAll(d, uses), k) == Some(e)
    decreases |uses|
  {
    hide Used;
    if uses != [] {
      UseSpares(d, uses[0], k, e);
      StaysThrough(Used(d, uses[0]), uses[1..], k, e);
    }
  }

  /** A stored caption is answered until its end, whatever other keys are looked up and stored meanwhile, as long as
      there are fewer such uses than the cache has room for. */
  lemma StoredIsAnswered(d: Cache, k: Key, caption: string, ttl: real, now: real, uses: seq<Use>, later: real)
    requires Distinct(d) && ttl > 0.0 && caption != "" && |uses| < 512 && later < now + ttl
    requires forall u :: u in uses ==> Spares(u, k, now + ttl)
    ensures Looked(UsedAll(Stored(d, k, caption, ttl, now), uses), k, later).1 == Some(caption)
  {
    var e := Entry(caption, now + ttl);
    var all := PutLast(d, k, e);
    PutLastFacts(d, k, e);
    GetRemove(d, k, k);
    BehindLast(Remove(d, k), (k, e));
    BehindKept(all, 512, k);
    if |all| > 512 {
      DistinctDrop(all, |all| - 512);
    }
    StaysThrough(Stored(d, k, caption, ttl, now), uses, k, e);
  }

  /** Captions are not cached when caching is off or there is none, and never longer than their time to live. */
  lemma NeverStoredOrExpired(d: Cache, k: Key, caption: string, ttl: real, now: real, later: real)
    requires Distinct(d)
    ensures ttl <= 0.0 || caption == "" ==> Stored(d, k, caption, ttl, now) == d
    ensures ttl > 0.0 && caption != "" && later >= now + ttl ==>
              Looked(Stored(d, k, caption, ttl, now), k, later).1 == None
  {
    if ttl > 0.0 && caption != "" {
      var e := Entry(caption, now + ttl);
      PutLastFacts(d, k, e);
      GetRemove(d, k, k);
      BehindLast(Remove(d, k), (k, e));
      BehindKept(PutLast(d, k, e), 512, k);
    }
  }
}
