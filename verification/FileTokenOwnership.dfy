/** Reference counts are exact on every interleaving, so a file goes exactly with its last owning token. */
module FileTokenOwnership {
  import opened Options
  import opened OrderedDicts
  import opened FileTokens

  /** Tokens of a table that own a path. */
  function Owners(d: ODict<Token, Path>, p: Path): nat {
    if d == [] then 0 else (if d[0].1 == p then 1 else 0) + Owners(d[1..], p)
  }

  /** Staged and claimed tokens that own a path. */
  function Holders(s: Service, p: Path): nat {
    Owners(s.owned, p) + Owners(s.claimed, p)
  }

  lemma {:induction false} OwnersPut(d: ODict<Token, Path>, token: Token, path: Path, p: Path)
    requires Get(d, token) == None
    ensures Owners(Put(d, token, path), p) == Owners(d, p) + if p == path then 1 else 0
  {
    if d != [] {
      OwnersPut(d[1..], token, path, p);
    }
  }

  lemma {:induction false} OwnersRemove(d: ODict<Token, Path>, token: Token, p: Path)
    ensures Owners(Remove(d, token), p) == Owners(d, p) - if Get(d, token) == Some(p) then 1 else 0
  {
    if d != [] && d[0].0 != token {
      OwnersRemove(d[1..], token, p);
    }
  }

  lemma {:induction false} OwnedIsOwner(d: ODict<Token, Path>, token: Token)
    requires Get(d, token).Some?
    ensures Owners(d, Get(d, token).value) > 0
  {
    if d[0].0 != token {
      OwnedIsOwner(d[1..], token);
    }
  }

  /** The count kept for a path is the number of tokens that own it; `extra` owners are being released. */
  ghost predicate Counted(s: Service, extra: Option<Path>) {
    forall p :: Get(s.artifacts, p)
                == var n := Holders(s, p) + (if extra == Some(p) then 1 else 0);
                   if n == 0 then None else Some(n)
  }

  ghost predicate WellKept(s: Service) {
    && Distinct(s.staged) && Distinct(s.owned) && Distinct(s.claimed) && Distinct(s.artifacts)
    && (forall t :: Get(s.owned, t).Some? ==> Get(s.staged, t).Some? && Get(s.staged, t).value.path == Get(s.owned, t).value)
    && (forall t :: t in s.published ==> Get(s.staged, t).Some?)
    && (forall t :: Get(s.staged, t).Some? ==> Get(s.claimed, t).None?)
  }

  ghost predicate Inv(s: Service) {
    WellKept(s) && Counted(s, None)
  }

  /** Releasing one owner: the file goes exactly when it was the last one. */
  lemma ReleaseKeepsCounts(s: Service, path: Path)
    requires WellKept(s) && Counted(s, Some(path))
    ensures Inv(ReleasePath(s, path))
    ensures ReleasePath(s, path).removed == s.removed + if Holders(s, path) == 0 then [path] else []
  {
    var r := ReleasePath(s, path);
    var n := Holders(s, path);
    assert Get(s.artifacts, path) == Some(n + 1);
    RemoveKeys(s.artifacts, path);
    PutKeys(s.artifacts, path, n);
    forall p ensures Get(r.artifacts, p) == if Holders(r, p) == 0 then None else Some(Holders(r, p)) {
      GetRemove(s.artifacts, path, p);
      GetPut(s.artifacts, path, n, p);
      assert Holders(r, p) == Holders(s, p);
    }
    if n == 0 {
      assert r.removed == s.removed + [path];
    } else {
      assert r.removed == s.removed + [];
    }
  }

  lemma DroppedOwner(d: ODict<Token, Path>, token: Token)
    requires Distinct(d)
    ensures Distinct(Remove(d, token))
    ensures forall p :: Owners(Remove(d, token), p) == Owners(d, p) - if Get(d, token) == Some(p) then 1 else 0
    ensures forall t :: Get(Remove(d, token), t) == if t == token then None else Get(d, t)
  {
    RemoveKeys(d, token);
    forall p ensures Owners(Remove(d, token), p) == Owners(d, p) - if Get(d, token) == Some(p) then 1 else 0 {
      OwnersRemove(d, token, p);
    }
    forall t ensures Get(Remove(d, token), t) == if t == token then None else Get(d, t) {
      GetRemove(d, token, t);
    }
  }

  /** A staged token is taken off the staging tables; its owned path, if any, is one owner short. */
  function Unstage(s: Service, token: Token): Service {
    s.(staged := Remove(s.staged, token), owned := Remove(s.owned, token), published := s.published - {token})
  }

  lemma UnstageKeepsCounts(s: Service, token: Token)
    requires Inv(s)
    ensures WellKept(Unstage(s, token)) && Counted(Unstage(s, token), Get(s.owned, token))
    ensures forall p :: Holders(Unstage(s, token), p) == Holders(s, p) - if Get(s.owned, token) == Some(p) then 1 else 0
  {
    DroppedOwner(s.owned, token);
    RemoveKeys(s.staged, token);
    forall t ensures Get(Unstage(s, token).staged, t) == if t == token then None else Get(s.staged, t) {
      GetRemove(s.staged, token, t);
    }
    if Get(s.owned, token).Some? {
      OwnedIsOwner(s.owned, token);
    }
  }

  /** What a call deletes: every owned file that loses its last owner, once, and nothing else. */
  ghost predicate DeletesExactlyOrphans(s: Service, v: Service) {
    && s.removed <= v.removed
    && var deleted := v.removed[|s.removed|..];
    && (forall p :: p in deleted <==> Holders(s, p) > 0 && Holders(v, p) == 0)
    && (forall i, j :: 0 <= i < j < |deleted| ==> deleted[i] != deleted[j])
  }

  lemma ExpireTokenFacts(s: Service, token: Token)
    requires Inv(s)
    ensures Inv(ExpireToken(s, token)) && DeletesExactlyOrphans(s, ExpireToken(s, token))
    ensures ExpireToken(s, token).claimed == s.claimed
    ensures forall p :: Holders(ExpireToken(s, token), p) <= Holders(s, p)
  {
    UnstageKeepsCounts(s, token);
    match Get(s.owned, token)
    case None =>
      assert Unstage(s, token).removed == s.removed;
    case Some(p) => ReleaseKeepsCounts(Unstage(s, token), p);
  }

  lemma OrphansCompose(s: Service, m: Service, v: Service)
    requires DeletesExactlyOrphans(s, m) && DeletesExactlyOrphans(m, v)
    requires forall p :: Holders(v, p) <= Holders(m, p) <= Holders(s, p)
    ensures DeletesExactlyOrphans(s, v)
  {
    var d1 := m.removed[|s.removed|..];
    var d2 := v.removed[|m.removed|..];
    var d := v.removed[|s.removed|..];
    assert d == d1 + d2;
    forall i, j | 0 <= i < j < |d| ensures d[i] != d[j] {
      if i < |d1| <= j {
        assert d[i] in d1 && d[j] in d2;
      } else if i >= |d1| {
        assert d[i] == d2[i - |d1|] && d[j] == d2[j - |d1|];
      }
    }
  }

  lemma {:induction false} ExpireTokensFacts(s: Service, tokens: seq<Token>)
    requires Inv(s)
    ensures var v := ExpireTokens(s, tokens);
            && Inv(v) && DeletesExactlyOrphans(s, v) && v.claimed == s.claimed
            && (forall p :: Holders(v, p) <= Holders(s, p))
    decreases |tokens|
  {
    if tokens != [] {
      ExpireTokenFacts(s, tokens[0]);
      ExpireTokensFacts(ExpireToken(s, tokens[0]), tokens[1..]);
      OrphansCompose(s, ExpireToken(s, tokens[0]), ExpireTokens(s, tokens));
    }
  }

  // ---------------------------------------------------------------- runs

  /** The critical sections, in the order the lock lets them run. A token handed to `Add` is fresh. */
  datatype Action =
    | Expire(now: real)
    | Add(token: Token, path: Path, expire: real, isOwned: bool, publish: bool)
    | ClaimToken(token: Token, exists_: bool)
    | ReleaseToken(token: Token)
    | Teardown

  function Step(s: Service, a: Action): Service {
    match a
    case Expire(now) => Cleanup(s, now)
    case Add(token, path, expire, isOwned, publish) =>
      Stage(s, token, path, expire, if isOwned then Some(path) else None, publish)
    case ClaimToken(token, exists_) => Claim(s, token, exists_).0
    case ReleaseToken(token) => ReleaseClaim(s, token)
    case Teardown => Shutdown(s)
  }

  predicate Fresh(s: Service, a: Action) {
    a.Add? ==> Get(s.staged, a.token).None? && Get(s.claimed, a.token).None?
  }

  lemma AddKeepsTables(s: Service, token: Token, path: Path, expire: real, isOwned: bool, publish: bool)
    requires WellKept(s) && Fresh(s, Add(token, path, expire, isOwned, publish))
    ensures WellKept(Step(s, Add(token, path, expire, isOwned, publish)))
  {
    PutFacts(s.staged, token, Staged(path, expire));
    if isOwned {
      PutFacts(s.owned, token, path);
      PutFacts(s.artifacts, path, Get(s.artifacts, path).GetOr(0) + 1);
    }
  }

  lemma AddKeepsCounts(s: Service, token: Token, path: Path, expire: real, isOwned: bool, publish: bool)
    requires Inv(s) && Fresh(s, Add(token, path, expire, isOwned, publish))
    ensures var v := Step(s, Add(token, path, expire, isOwned, publish));
            && Counted(v, None)
            && (forall p :: Holders(v, p) == Holders(s, p) + if isOwned && p == path then 1 else 0)
  {
    var v := Step(s, Add(token, path, expire, isOwned, publish));
    PutFacts(s.artifacts, path, Get(s.artifacts, path).GetOr(0) + 1);
    assert Get(s.owned, token) == None;
    forall p ensures Owners(v.owned, p) == Owners(s.owned, p) + if isOwned && p == path then 1 else 0 {
      OwnersPut(s.owned, token, path, p);
    }
  }

  lemma AddFacts(s: Service, token: Token, path: Path, expire: real, isOwned: bool, publish: bool)
    requires Inv(s) && Fresh(s, Add(token, path, expire, isOwned, publish))
    ensures var v := Step(s, Add(token, path, expire, isOwned, publish));
            && Inv(v) && DeletesExactlyOrphans(s, v)
            && (forall p :: Holders(v, p) == Holders(s, p) + if isOwned && p == path then 1 else 0)
  {
    AddKeepsTables(s, token, path, expire, isOwned, publish);
    AddKeepsCounts(s, token, path, expire, isOwned, publish);
  }

  lemma ClaimedFacts(s: Service, token: Token)
    requires Inv(s) && Get(s.staged, token).Some? && token !in s.published && Get(s.owned, token).Some?
    ensures var v := Claim(s, token, true).0;
            Inv(v) && v.removed == s.removed && (forall p :: Holders(v, p) == Holders(s, p))
  {
    var p0 := Get(s.owned, token).value;
    var v := Claim(s, token, true).0;
    UnstageKeepsCounts(s, token);
    assert s.published - {token} == s.published;
    PutKeys(s.claimed, token, p0);
    forall t ensures Get(v.claimed, t) == if t == token then Some(p0) else Get(s.claimed, t) {
      GetPut(s.claimed, token, p0, t);
    }
    forall p ensures Holders(v, p) == Holders(s, p) {
      OwnersPut(s.claimed, token, p0, p);
    }
    forall t ensures Get(v.staged, t) == if t == token then None else Get(s.staged, t) {
      GetRemove(s.staged, token, t);
    }
  }

  lemma ClaimFacts(s: Service, token: Token, exists_: bool)
    requires Inv(s)
    ensures var v := Claim(s, token, exists_).0;
            && Inv(v) && DeletesExactlyOrphans(s, v) && (forall p :: Holders(v, p) <= Holders(s, p))
  {
    var v := Claim(s, token, exists_).0;
    if Get(s.staged, token).Some? && token !in s.published {
      UnstageKeepsCounts(s, token);
      assert s.published - {token} == s.published;
      if Get(s.owned, token).Some? {
        if exists_ {
          ClaimedFacts(s, token);
        } else {
          ReleaseKeepsCounts(Unstage(s, token), Get(s.owned, token).value);
        }
      }
    }
  }

  lemma ReleaseClaimFacts(s: Service, token: Token)
    requires Inv(s)
    ensures var v := ReleaseClaim(s, token);
            && Inv(v) && DeletesExactlyOrphans(s, v) && (forall p :: Holders(v, p) <= Holders(s, p))
  {
    match Get(s.claimed, token)
    case None =>
    case Some(p0) =>
      DroppedOwner(s.claimed, token);
      OwnedIsOwner(s.claimed, token);
      ReleaseKeepsCounts(s.(claimed := Remove(s.claimed, token)), p0);
  }

  lemma {:induction false} KeysOfFacts<V>(d: ODict<string, V>)
    requires Distinct(d)
    ensures forall p :: p in KeysOf(d) <==> Get(d, p).Some?
    ensures forall i, j :: 0 <= i < j < |KeysOf(d)| ==> KeysOf(d)[i] != KeysOf(d)[j]
  {
    if d != [] {
      KeysOfFacts(d[1..]);
      var k := KeysOf(d);
      assert k[1..] == KeysOf(d[1..]);
      forall i, j | 0 <= i < j < |k| ensures k[i] != k[j] {
        assert k[j] in k[1..];
      }
    }
  }

  lemma ShutdownFacts(s: Service)
    requires Inv(s)
    ensures Inv(Shutdown(s)) && DeletesExactlyOrphans(s, Shutdown(s))
    ensures forall p :: Holders(Shutdown(s), p) == 0
  {
    KeysOfFacts(s.artifacts);
  }

  /** Every critical section keeps the counts exact and deletes exactly the owned files it leaves without an
      owner, each once. */
  lemma StepFacts(s: Service, a: Action)
    requires Inv(s) && Fresh(s, a)
    ensures Inv(Step(s, a)) && DeletesExactlyOrphans(s, Step(s, a))
    ensures forall p :: Holders(Step(s, a), p) > Holders(s, p) ==> a.Add? && a.isOwned && a.path == p
  {
    match a
    case Expire(now) => ExpireTokensFacts(s, Expired(s.staged, now));
    case Add(token, path, expire, isOwned, publish) => AddFacts(s, token, path, expire, isOwned, publish);
    case ClaimToken(token, exists_) => ClaimFacts(s, token, exists_);
    case ReleaseToken(token) => ReleaseClaimFacts(s, token);
    case Teardown => ShutdownFacts(s);
  }

  function Run(s: Service, actions: seq<Action>): Service
    decreases |actions|
  {
    if actions == [] then s else Run(Step(s, actions[0]), actions[1..])
  }

  predicate AllFresh(s: Service, actions: seq<Action>)
    decreases |actions|
  {
    actions == [] || (Fresh(s, actions[0]) && AllFresh(Step(s, actions[0]), actions[1..]))
  }

  const EMPTY := Service([], [], [], [], {}, [])

  lemma EmptyInv()
    ensures Inv(EMPTY)
  {
  }

  predicate RegistersOwned(actions: seq<Action>, p: Path) {
    exists a | a in actions :: a.Add? && a.isOwned && a.path == p
  }

  /** Over a whole run the counts stay exact, only files registered as owned are ever deleted, and none leaks:
      a registered file is still owned by a live token or has been deleted. */
  lemma {:induction false} RunDeletesExactlyWhatItOwns(s: Service, actions: seq<Action>)
    requires Inv(s) && AllFresh(s, actions)
    ensures var v := Run(s, actions);
            && Inv(v) && s.removed <= v.removed
            && (forall p :: p in v.removed[|s.removed|..] ==> Holders(s, p) > 0 || RegistersOwned(actions, p))
            && (forall p :: Holders(s, p) > 0 || RegistersOwned(actions, p) ==>
                  Holders(v, p) > 0 || p in v.removed[|s.removed|..])
    decreases |actions|
  {
    hide Inv, Step, Fresh, Holders;
    if actions != [] {
      var m := Step(s, actions[0]);
      StepFacts(s, actions[0]);
      RunDeletesExactlyWhatItOwns(m, actions[1..]);
      var v := Run(s, actions);
      var d := v.removed[|s.removed|..];
      assert d == m.removed[|s.removed|..] + v.removed[|m.removed|..];
      forall p ensures RegistersOwned(actions, p) <==>
                       RegistersOwned(actions[1..], p)
                       || (actions[0].Add? && actions[0].isOwned && actions[0].path == p) {
        assert actions == [actions[0]] + actions[1..];
      }
      if actions[0].Add? && actions[0].isOwned {
        var a := actions[0];
        AddFacts(s, a.token, a.path, a.expire, a.isOwned, a.publish);
      }
    }
  }

  /** The same for the life of a service: a file is deleted only if some call registered it as owned, and each
      registered file is deleted or still owned. */
  lemma LifetimeDeletesExactlyWhatItOwns(actions: seq<Action>)
    requires AllFresh(EMPTY, actions)
    ensures var v := Run(EMPTY, actions);
            && (forall p :: p in v.removed ==> RegistersOwned(actions, p))
            && (forall p :: RegistersOwned(actions, p) ==> Holders(v, p) > 0 || p in v.removed)
  {
    EmptyInv();
    RunDeletesExactlyWhatItOwns(EMPTY, actions);
    var v := Run(EMPTY, actions);
    assert v.removed[|EMPTY.removed|..] == v.removed;
  }

  // ---------------------------------------------------------------- files being served

  predicate GivesUp(a: Action, token: Token) {
    a.Teardown? || (a.ReleaseToken? && a.token == token)
  }

  lemma StepKeepsClaim(s: Service, a: Action, token: Token, path: Path)
    requires Inv(s) && Fresh(s, a) && Get(s.claimed, token) == Some(path) && !GivesUp(a, token)
    ensures Get(Step(s, a).claimed, token) == Some(path)
    ensures s.removed <= Step(s, a).removed && path !in Step(s, a).removed[|s.removed|..]
  {
    hide Counted;
    StepFacts(s, a);
    match a {
      case Expire(now) => ExpireTokensFacts(s, Expired(s.staged, now));
      case Add(_, _, _, _, _) =>
      case ClaimToken(other, _) =>
        if Get(s.owned, other).Some? {
          GetPut(s.claimed, other, Get(s.owned, other).value, token);
        }
      case ReleaseToken(other) => GetRemove(s.claimed, other, token);
    }
    OwnedIsOwner(Step(s, a).claimed, token);
  }

  /** Whatever else runs, a claim answered as owned keeps its file until its own release or the shutdown. */
  lemma {:induction false} OwnedClaimKeepsFile(s: Service, actions: seq<Action>, token: Token, path: Path)
    requires Inv(s) && AllFresh(s, actions) && Get(s.claimed, token) == Some(path)
    requires forall a :: a in actions ==> !GivesUp(a, token)
    ensures var v := Run(s, actions);
            && Get(v.claimed, token) == Some(path)
            && s.removed <= v.removed && path !in v.removed[|s.removed|..]
    decreases |actions|
  {
    hide Inv, Step, Fresh;
    if actions != [] {
      var m := Step(s, actions[0]);
      StepFacts(s, actions[0]);
      StepKeepsClaim(s, actions[0], token, path);
      OwnedClaimKeepsFile(m, actions[1..], token, path);
      assert Run(s, actions).removed[|s.removed|..]
          == m.removed[|s.removed|..] + Run(s, actions).removed[|m.removed|..];
    }
  }

  /** A moment after every staged token's end. */
  function AfterAll(staged: ODict<Token, Staged>): (now: real)
    ensures forall e :: e in staged ==> e.1.expire < now
  {
    if staged == [] then 0.0
    else
      var rest := AfterAll(staged[1..]);
      if staged[0].1.expire < rest then rest else staged[0].1.expire + 1.0
  }

  lemma {:induction false} ExpiredIsEverything(staged: ODict<Token, Staged>, now: real)
    requires forall e :: e in staged ==> e.1.expire < now
    ensures forall t :: Get(staged, t).Some? ==> t in Expired(staged, now)
  {
    if staged != [] {
      assert staged[0] in staged;
      forall e | e in staged[1..] ensures e.1.expire < now {
        assert e in staged;
      }
      ExpiredIsEverything(staged[1..], now);
    }
  }

  lemma {:induction false} ExpiredAreUnstaged(s: Service, tokens: seq<Token>, t: Token)
    requires Distinct(s.staged) && (t in tokens || Get(s.staged, t).None?)
    ensures Get(ExpireTokens(s, tokens).staged, t).None?
    decreases |tokens|
  {
    if tokens != [] {
      GetRemove(s.staged, tokens[0], t);
      RemoveKeys(s.staged, tokens[0]);
      ExpiredAreUnstaged(ExpireToken(s, tokens[0]), tokens[1..], t);
    }
  }

  /** A clean-up after every staged token's end leaves the claimed owners only. */
  lemma LateCleanupFacts(s: Service, path: Path)
    requires Inv(s)
    ensures var v := Cleanup(s, AfterAll(s.staged));
            Holders(v, path) == Owners(s.claimed, path)
  {
    var now := AfterAll(s.staged);
    var v := Cleanup(s, now);
    ExpireTokensFacts(s, Expired(s.staged, now));
    ExpiredIsEverything(s.staged, now);
    if v.owned != [] {
      assert Get(v.owned, v.owned[0].0).Some?;
      ExpiredAreUnstaged(s, Expired(s.staged, now), v.owned[0].0);
    }
  }

  /** No clean-up, whenever it comes, deletes the file. */
  ghost predicate SurvivesCleanups(s: Service, path: Path) {
    forall now :: s.removed <= Cleanup(s, now).removed && path !in Cleanup(s, now).removed[|s.removed|..]
  }

  /** A file is safe from expiry if and only if a claim in flight owns it or no staged token does. */
  lemma SurvivesCleanupsIff(s: Service, path: Path)
    requires Inv(s)
    ensures SurvivesCleanups(s, path) <==> Owners(s.claimed, path) > 0 || Owners(s.owned, path) == 0
  {
    forall now
      ensures s.removed <= Cleanup(s, now).removed
      ensures Owners(s.claimed, path) > 0 || Owners(s.owned, path) == 0 ==>
                path !in Cleanup(s, now).removed[|s.removed|..]
    {
      ExpireTokensFacts(s, Expired(s.staged, now));
    }
    if Owners(s.claimed, path) == 0 && Owners(s.owned, path) > 0 {
      LateCleanupFacts(s, path);
      ExpireTokensFacts(s, Expired(s.staged, AfterAll(s.staged)));
      assert path in Cleanup(s, AfterAll(s.staged)).removed[|s.removed|..];
    }
  }

  /** If nothing else happens in between, the file a claim answers with survives the next clean-up, whenever it
      comes, if and only if the token owned it and was not published, another claim in flight owns it, or no staged
      token owned it. */
  lemma ClaimedFileSurvivesIff(s: Service, token: Token)
    requires Inv(s) && Get(s.staged, token).Some?
    ensures var (v, answer) := Claim(s, token, true);
            var path := Get(s.staged, token).value.path;
            var isOwned := Get(s.owned, token).Some? && token !in s.published;
            && answer == Returned((path, isOwned))
            && (SurvivesCleanups(v, path) <==>
                  isOwned || Owners(s.claimed, path) > 0 || Owners(s.owned, path) == 0)
  {
    hide Counted, SurvivesCleanups;
    var v := Claim(s, token, true).0;
    var path := Get(s.staged, token).value.path;
    ClaimFacts(s, token, true);
    SurvivesCleanupsIff(v, path);
    if Get(s.owned, token).Some? && token !in s.published {
      PutFacts(s.claimed, token, path);
      OwnedIsOwner(v.claimed, token);
    } else if token !in s.published {
      RemoveKeys(s.owned, token);
      OwnersRemove(s.owned, token, path);
    }
  }

  /** A published snapshot is served without a claim, and the next clean-up after its end deletes it. */
  lemma PublishedFileIsDeletedWhileServed()
    ensures var s := Step(EMPTY, Add("t", "p", 10.0, true, true));
            && Claim(s, "t", true) == (s, Returned(("p", false)))
            && Cleanup(s, 11.0).removed == ["p"]
  {
    var s := Step(EMPTY, Add("t", "p", 10.0, true, true));
    assert s == Service([("t", Staged("p", 10.0))], [("t", "p")], [], [("p", 1)], {"t"}, []);
    assert Expired(s.staged, 11.0) == ["t"];
    assert ["t"][1..] == [];
    var v := ExpireToken(s, "t");
    assert ExpireTokens(v, []) == v;
    assert v.removed == ["p"];
  }

  /** A token that owns nothing is served without a claim, and the file goes with another token that owns it. */
  lemma UnownedFileIsDeletedWhileServed()
    ensures var s := Run(EMPTY, [Add("t", "p", 10.0, true, false), Add("u", "p", 20.0, false, false)]);
            var (v, answer) := Claim(s, "u", true);
            answer == Returned(("p", false)) && Cleanup(v, 11.0).removed == ["p"]
  {
    var (a, b) := (Add("t", "p", 10.0, true, false), Add("u", "p", 20.0, false, false));
    assert "t"[0] != "u"[0];
    var s1 := Step(EMPTY, a);
    assert s1 == Service([("t", Staged("p", 10.0))], [("t", "p")], [], [("p", 1)], {}, []);
    var s := Step(s1, b);
    assert [a, b][1..] == [b] && [b][1..] == [];
    assert Run(s1, [b]) == Run(s, []);
    var v := Claim(s, "u", true).0;
    assert v == s1;
    assert Expired(v.staged, 11.0) == ["t"];
    assert ["t"][1..] == [];
    var x := ExpireToken(v, "t");
    assert ExpireTokens(x, []) == x;
    assert x.removed == ["p"];
  }
}
