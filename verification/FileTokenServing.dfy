/** Which served files are safe while they are served, whatever other calls run meanwhile. */
module FileTokenServing {
  import opened Options
  import opened OrderedDicts
  import opened FileTokens
  import opened FileTokenOwnership

  // ---------------------------------------------------------------- runs in pieces

  lemma {:induction false} RunThen(s: Service, first: seq<Action>, second: seq<Action>)
    ensures Run(s, first + second) == Run(Run(s, first), second)
    ensures AllFresh(s, first + second) <==> AllFresh(s, first) && AllFresh(Run(s, first), second)
    decreases |first|
  {
    hide Step, Fresh;
    if first == [] {
      assert first + second == second;
    } else {
      assert (first + second)[1..] == first[1..] + second;
      RunThen(Step(s, first[0]), first[1..], second);
    }
  }

  lemma RunOne(s: Service, a: Action)
    ensures Run(s, [a]) == Step(s, a)
    ensures AllFresh(s, [a]) <==> Fresh(s, a)
  {
    assert [a][1..] == [];
    assert Run(Step(s, a), []) == Step(s, a);
  }

  ghost predicate NoneGivesUp(actions: seq<Action>, token: Token) {
    forall a :: a in actions ==> !GivesUp(a, token)
  }

  /** While the file is served under this token, no fresh calls of others ever delete it. */
  ghost predicate SafeWhileServed(s: Service, token: Token, path: Path) {
    forall actions | AllFresh(s, actions) && NoneGivesUp(actions, token) ::
      s.removed <= Run(s, actions).removed && path !in Run(s, actions).removed[|s.removed|..]
  }

  // ---------------------------------------------------------------- a fresh token

  function Longest<V>(d: ODict<Token, V>): nat {
    if d == [] then 0
    else if |d[0].0| > Longest(d[1..]) then |d[0].0| else Longest(d[1..])
  }

  lemma {:induction false} LongerIsAbsent<V>(d: ODict<Token, V>, token: Token)
    requires |token| > Longest(d)
    ensures Get(d, token).None?
  {
    if d != [] {
      LongerIsAbsent(d[1..], token);
    }
  }

  /** A token that is neither staged nor claimed, nor this one. */
  lemma FreshToken(s: Service, other: Token) returns (token: Token)
    ensures token != other && Get(s.staged, token).None? && Get(s.claimed, token).None?
  {
    token := seq(Longest(s.staged) + Longest(s.claimed) + |other| + 1, _ => 'x');
    LongerIsAbsent(s.staged, token);
    LongerIsAbsent(s.claimed, token);
  }

  // ---------------------------------------------------------------- the overtaking run

  lemma {:induction false} OwnerExists(d: ODict<Token, Path>, p: Path) returns (token: Token)
    requires Distinct(d) && Owners(d, p) > 0
    ensures Get(d, token) == Some(p)
  {
    if d[0].1 == p {
      token := d[0].0;
    } else {
      token := OwnerExists(d[1..], p);
    }
  }

  lemma ReleasedClaims(s: Service, token: Token, p: Path)
    requires Inv(s) && Get(s.claimed, token).Some?
    ensures var v := Step(s, ReleaseToken(token));
            && Inv(v)
            && Owners(v.claimed, p) == Owners(s.claimed, p) - (if Get(s.claimed, token) == Some(p) then 1 else 0)
            && forall t :: Get(v.claimed, t) == if t == token then None else Get(s.claimed, t)
  {
    ReleaseClaimFacts(s, token);
    DroppedOwner(s.claimed, token);
  }

  /** All other claims on the file are released. */
  lemma {:induction false} ReleaseClaimsOn(s: Service, p: Path, token: Token) returns (actions: seq<Action>)
    requires Inv(s) && Get(s.claimed, token).None?
    ensures AllFresh(s, actions) && NoneGivesUp(actions, token) && !RegistersOwned(actions, p)
    ensures Inv(Run(s, actions)) && Owners(Run(s, actions).claimed, p) == 0
    decreases Owners(s.claimed, p)
  {
    hide Step, Counted;
    if Owners(s.claimed, p) == 0 {
      actions := [];
    } else {
      var t := OwnerExists(s.claimed, p);
      var a := ReleaseToken(t);
      ReleasedClaims(s, t, p);
      var rest := ReleaseClaimsOn(Step(s, a), p, token);
      actions := [a] + rest;
      RunOne(s, a);
      RunThen(s, [a], rest);
    }
  }

  /** Another call registers the file as owned, the claims on it are released, and every staged token expires. */
  lemma UnclaimedIsOvertaken(s: Service, p: Path, token: Token) returns (actions: seq<Action>)
    requires Inv(s) && Get(s.claimed, token).None?
    ensures AllFresh(s, actions) && NoneGivesUp(actions, token)
    ensures s.removed <= Run(s, actions).removed && p in Run(s, actions).removed[|s.removed|..]
  {
    hide Step, Inv;
    var other := FreshToken(s, token);
    var add := Add(other, p, 0.0, true, false);
    var s1 := Step(s, add);
    StepFacts(s, add);
    StaysUnclaimed(s, add, token);
    var releases := ReleaseClaimsOn(s1, p, token);
    var s2 := Run(s1, releases);
    var expire := Expire(AfterAll(s2.staged));
    StepFacts(s2, expire);
    ExpiredAllFacts(s2, p);
    actions := [add] + releases + [expire];
    RunOne(s, add);
    RunThen(s, [add], releases);
    RunOne(s2, expire);
    RunThen(s, [add] + releases, [expire]);
    assert add in actions;
    RunDeletesExactlyWhatItOwns(s, actions);
  }

  lemma StaysUnclaimed(s: Service, a: Action, token: Token)
    requires a.Add?
    ensures Step(s, a).claimed == s.claimed
  {
  }

  lemma ExpiredAllFacts(s: Service, p: Path)
    requires Inv(s) && Owners(s.claimed, p) == 0
    ensures Holders(Step(s, Expire(AfterAll(s.staged))), p) == 0
  {
    LateCleanupFacts(s, p);
  }

  // ---------------------------------------------------------------- exactly which claims keep their file

  /** A file is safe while it is served under a token if that token's claim owns it; without a claim of its own,
      other calls can delete it. */
  lemma SafeIff(s: Service, token: Token, path: Path)
    requires Inv(s) && (Get(s.claimed, token).Some? ==> Get(s.claimed, token) == Some(path))
    ensures SafeWhileServed(s, token, path) <==> Get(s.claimed, token) == Some(path)
  {
    hide Inv;
    if Get(s.claimed, token) == Some(path) {
      forall actions | AllFresh(s, actions) && NoneGivesUp(actions, token)
        ensures s.removed <= Run(s, actions).removed && path !in Run(s, actions).removed[|s.removed|..]
      {
        OwnedClaimKeepsFile(s, actions, token, path);
      }
    } else {
      var actions := UnclaimedIsOvertaken(s, path, token);
    }
  }

  /** The file a claim answers with is safe from all other calls, in any order, until the token's release or the
      shutdown if and only if the token owned it and was not published: exactly if the answer says so. */
  lemma ServedFileIsSafeIff(s: Service, token: Token)
    requires Inv(s) && Get(s.staged, token).Some?
    ensures var (v, answer) := Claim(s, token, true);
            var path := Get(s.staged, token).value.path;
            var isOwned := Get(s.owned, token).Some? && token !in s.published;
            && answer == Returned((path, isOwned))
            && (SafeWhileServed(v, token, path) <==> isOwned)
  {
    hide Counted, SafeWhileServed;
    var v := Claim(s, token, true).0;
    var path := Get(s.staged, token).value.path;
    ClaimFacts(s, token, true);
    if Get(s.owned, token).Some? && token !in s.published {
      PutFacts(s.claimed, token, path);
    }
    SafeIff(v, token, path);
  }
}
