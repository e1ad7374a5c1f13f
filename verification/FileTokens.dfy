/** Download tokens and the reference counts that decide when a service-owned file is deleted. */
module FileTokens {
  import opened Options
  import opened OrderedDicts

  type Token = string
  type Path = string

  datatype Staged = Staged(path: Path, expire: real)

  /** `removed` is the log of the paths the service asked the system to delete. */
  datatype Service = Service(
    staged: ODict<Token, Staged>,
    owned: ODict<Token, Path>,
    claimed: ODict<Token, Path>,
    artifacts: ODict<Path, int>,
    published: set<Token>,
    removed: seq<Path>)

  datatype Outcome<T> = Returned(value: T) | FileNotFound | UnknownToken | Rejected

  // ---------------------------------------------------------------- what each critical section does

  function ReleasePath(s: Service, p: Path): Service {
    var count := Get(s.artifacts, p).GetOr(0);
    if count <= 1 then s.(artifacts := Remove(s.artifacts, p), removed := s.removed + [p])
    else s.(artifacts := Put(s.artifacts, p, count - 1))
  }

  function ExpireToken(s: Service, token: Token): Service {
    var popped := s.(staged := Remove(s.staged, token), published := s.published - {token},
    owned := Remove(s.owned, token));
    match Get(s.owned, token)
    case None => popped
    case Some(p) => ReleasePath(popped, p)
  }

  function ExpireTokens(s: Service, tokens: seq<Token>): Service
    decreases |tokens|
  {
    if tokens == [] then s else ExpireTokens(ExpireToken(s, tokens[0]), tokens[1..])
  }

  function Expired(staged: ODict<Token, Staged>, now: real): seq<Token> {
    if staged == [] then []
    else (if staged[0].1.expire < now then [staged[0].0] else []) + Expired(staged[1..], now)
  }

  function Cleanup(s: Service, now: real): Service {
    ExpireTokens(s, Expired(s.staged, now))
  }

  /** A new token; `ownedPath` is the artifact it owns, if any. */
  function Stage(s: Service, token: Token, path: Path, expire: real, ownedPath: Option<Path>, publish: bool): Service {
    s.(staged := Put(s.staged, token, Staged(path, expire)),
    owned := if ownedPath.Some? then Put(s.owned, token, ownedPath.value) else s.owned,
    artifacts := if ownedPath.Some?
                 then Put(s.artifacts, ownedPath.value, Get(s.artifacts, ownedPath.value).GetOr(0) + 1)
                 else s.artifacts,
    published := if publish then s.published + {token} else s.published)
  }

  /** Claiming a token after the expired ones are gone. */
  function Claim(s: Service, token: Token, exists_: bool): (Service, Outcome<(Path, bool)>) {
    match Get(s.staged, token)
    case None => (s, UnknownToken)
    case Some(entry) =>
      if token in s.published then (s, if exists_ then Returned((entry.path, false)) else FileNotFound)
      else
        var popped := s.(staged := Remove(s.staged, token), owned := Remove(s.owned, token));
        var ownedPath := Get(s.owned, token);
        if !exists_ then (if ownedPath.Some? then ReleasePath(popped, ownedPath.value) else popped, FileNotFound)
        else
          (if ownedPath.Some? then popped.(claimed := Put(s.claimed, token, ownedPath.value)) else popped,
           Returned((entry.path, ownedPath.Some?)))
  }

  function ReleaseClaim(s: Service, token: Token): Service {
    match Get(s.claimed, token)
    case None => s
    case Some(p) => ReleasePath(s.(claimed := Remove(s.claimed, token)), p)
  }

  function KeysOf<V>(d: ODict<string, V>): seq<string> {
    if d == [] then [] else [d[0].0] + KeysOf(d[1..])
  }

  function Shutdown(s: Service): Service {
    Service([], [], [], [], {}, s.removed + KeysOf(s.artifacts))
  }

  class FileTokenService {
    var stagedFiles: ODict<Token, Staged>
    var ownedTokens: ODict<Token, Path>
    var claimedOwnedTokens: ODict<Token, Path>
    var ownedArtifacts: ODict<Path, int>
    var publishedTokens: set<Token>
    ghost var removed: seq<Path>
    const defaultTimeout: real

    ghost function View(): Service
      reads this
    {
      Service(stagedFiles, ownedTokens, claimedOwnedTokens, ownedArtifacts, publishedTokens, removed)
    }

    constructor (defaultTimeout: real)
      ensures View() == Service([], [], [], [], {}, [])
      ensures this.defaultTimeout == defaultTimeout
    {
      this.defaultTimeout := defaultTimeout;
      stagedFiles, ownedTokens, claimedOwnedTokens, ownedArtifacts := [], [], [], [];
      publishedTokens := {};
      removed := [];
    }

    method ReleaseOwnedPath(path: Path)
      modifies this`ownedArtifacts, this`removed
      ensures View() == ReleasePath(old(View()), path)
    {
      var count := Get(ownedArtifacts, path).GetOr(0);
      if count <= 1 {
        ownedArtifacts := Remove(ownedArtifacts, path);
        removed := removed + [path];
      } else {
        ownedArtifacts := Put(ownedArtifacts, path, count - 1);
      }
    }

    method CleanupExpiredTokens(now: real)
      modifies this
      ensures View() == Cleanup(old(View()), now)
    {
      var expired: seq<Token> := [];
      var rest := stagedFiles;
      while rest != []
        invariant Expired(stagedFiles, now) == expired + Expired(rest, now)
      {
        if rest[0].1.expire < now {
          expired := expired + [rest[0].0];
        }
        rest := rest[1..];
      }
      assert expired == Expired(stagedFiles, now);
      while expired != []
        invariant Cleanup(old(View()), now) == ExpireTokens(View(), expired)
      {
        var token := expired[0];
        stagedFiles := Remove(stagedFiles, token);
        publishedTokens := publishedTokens - {token};
        var ownedPath := Get(ownedTokens, token);
        ownedTokens := Remove(ownedTokens, token);
        if ownedPath.Some? {
          ReleaseOwnedPath(ownedPath.value);
        }
        expired := expired[1..];
      }
    }

    method CheckTokenExpired(now: real, token: Token) returns (gone: bool)
      modifies this
      ensures View() == Cleanup(old(View()), now)
      ensures gone == !Has(Cleanup(old(View()), now).staged, token)
    {
      CleanupExpiredTokens(now);
      gone := !Has(stagedFiles, token);
    }

    /** `_register`; `now` and `later` are its two readings of the clock, `exists_` what the file system says,
        `token` the fresh identifier. */
    method Register(now: real, later: real, path: Path, ttl: Option<real>, exists_: bool, token: Token,
                    ownedPath: Option<Path>, publish: bool)
      returns (r: Outcome<Token>)
      modifies this
      ensures var s := Cleanup(old(View()), now);
              if exists_
              then && View() == Stage(s, token, path, later + ttl.GetOr(defaultTimeout), ownedPath, publish)
                   && r == Returned(token)
              else View() == s && r == FileNotFound
    {
      CleanupExpiredTokens(now);
      if !exists_ {
        return FileNotFound;
      }
      stagedFiles := Put(stagedFiles, token, Staged(path, later + ttl.GetOr(defaultTimeout)));
      if ownedPath.Some? {
        ownedTokens := Put(ownedTokens, token, ownedPath.value);
        ownedArtifacts := Put(ownedArtifacts, ownedPath.value, Get(ownedArtifacts, ownedPath.value).GetOr(0) + 1);
      }
      if publish {
        publishedTokens := publishedTokens + {token};
      }
      return Returned(token);
    }

    /** `register_owned_file`: ownership moves only if the event tracks the file and lets it go. */
    method RegisterOwnedFile(now: real, later: real, path: Path, ttl: Option<real>, hasFile: bool, exists_: bool,
                             transferred: bool, token: Token)
      returns (r: Outcome<Token>)
      modifies this
      ensures var s := Cleanup(old(View()), now);
              if !hasFile then View() == old(View()) && r == Rejected
              else if !exists_ then View() == s && r == FileNotFound
              else if !transferred then View() == s && r == Rejected
              else && View() == Stage(s, token, path, later + ttl.GetOr(defaultTimeout), Some(path), false)
                   && r == Returned(token)
    {
      if !hasFile {
        return Rejected;
      }
      CleanupExpiredTokens(now);
      if !exists_ {
        return FileNotFound;
      }
      if !transferred {
        return Rejected;
      }
      stagedFiles := Put(stagedFiles, token, Staged(path, later + ttl.GetOr(defaultTimeout)));
      ownedTokens := Put(ownedTokens, token, path);
      ownedArtifacts := Put(ownedArtifacts, path, Get(ownedArtifacts, path).GetOr(0) + 1);
      return Returned(token);
    }

    method ClaimFile(now: real, token: Token, exists_: bool) returns (r: Outcome<(Path, bool)>)
      modifies this
      ensures (View(), r) == Claim(Cleanup(old(View()), now), token, exists_)
    {
      CleanupExpiredTokens(now);
      var entry := Get(stagedFiles, token);
      if entry.None? {
        return UnknownToken;
      }
      if token in publishedTokens {
        return if exists_ then Returned((entry.value.path, false)) else FileNotFound;
      }
      stagedFiles := Remove(stagedFiles, token);
      var ownedPath := Get(ownedTokens, token);
      ownedTokens := Remove(ownedTokens, token);
      if !exists_ {
        if ownedPath.Some? {
          ReleaseOwnedPath(ownedPath.value);
        }
        return FileNotFound;
      }
      if ownedPath.Some? {
        claimedOwnedTokens := Put(claimedOwnedTokens, token, ownedPath.value);
      }
      return Returned((entry.value.path, ownedPath.Some?));
    }

    method ReleaseToken(token: Token)
      modifies this
      ensures View() == ReleaseClaim(old(View()), token)
    {
      var ownedPath := Get(claimedOwnedTokens, token);
      claimedOwnedTokens := Remove(claimedOwnedTokens, token);
      if ownedPath.Some? {
        ReleaseOwnedPath(ownedPath.value);
      } else {
        RemoveAbsent(old(claimedOwnedTokens), token);
      }
    }

    method ShutDown()
      modifies this
      ensures View() == Shutdown(old(View()))
    {
      var paths := ownedArtifacts;
      stagedFiles, publishedTokens, ownedTokens, claimedOwnedTokens, ownedArtifacts := [], {}, [], [], [];
      while paths != []
        modifies this`removed
        invariant removed + KeysOf(paths) == old(removed) + KeysOf(old(ownedArtifacts))
      {
        removed := removed + [paths[0].0];
        paths := paths[1..];
      }
    }
  }
}
