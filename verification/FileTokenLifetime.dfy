/** How long a token is answered, and what a claim answers with. */
module FileTokenLifetime {
  import opened Options
  import opened OrderedDicts
  import opened FileTokens
  import opened FileTokenOwnership

  // ---------------------------------------------------------------- one clean-up

  lemma {:induction false} ExpiredIff(staged: ODict<Token, Staged>, now: real, t: Token)
    requires Distinct(staged)
    ensures t in Expired(staged, now) <==> Get(staged, t).Some? && Get(staged, t).value.expire < now
  {
    if staged != [] {
      ExpiredIff(staged[1..], now, t);
    }
  }

  lemma {:induction false} ExpireTokensDrops(s: Service, tokens: seq<Token>, t: Token)
    requires Distinct(s.staged) && Distinct(s.owned)
    ensures var v := ExpireTokens(s, tokens);
            && Get(v.staged, t) == (if t in tokens then None else Get(s.staged, t))
            && Get(v.owned, t) == (if t in tokens then None else Get(s.owned, t))
            && (t in v.published <==> t in s.published && t !in tokens)
            && v.claimed == s.claimed
    decreases |tokens|
  {
    if tokens != [] {
      var v := ExpireToken(s, tokens[0]);
      GetRemove(s.staged, tokens[0], t);
      GetRemove(s.owned, tokens[0], t);
      RemoveKeys(s.staged, tokens[0]);
      RemoveKeys(s.owned, tokens[0]);
      ExpireTokensDrops(v, tokens[1..], t);
    }
  }

  /** A clean-up keeps a staged token, unchanged, if and only if its end is not before now; what it owns and whether
      it is published stay or go with it, and claims stay. */
  lemma CleanupKeepsIff(s: Service, now: real, t: Token)
    requires Inv(s)
    ensures var v := Step(s, Expire(now));
            var stays := Get(s.staged, t).Some? && !(Get(s.staged, t).value.expire < now);
            && Get(v.staged, t) == (if stays then Get(s.staged, t) else None)
            && Get(v.owned, t) == (if stays then Get(s.owned, t) else None)
            && (t in v.published <==> stays && t in s.published)
            && Get(v.claimed, t) == Get(s.claimed, t)
  {
    ExpiredIff(s.staged, now, t);
    ExpireTokensDrops(s, Expired(s.staged, now), t);
  }

  // ---------------------------------------------------------------- a token's life

  /** What a claim answers with, for every token. */
  lemma ClaimAnswers(s: Service, t: Token, exists_: bool)
    ensures Claim(s, t, exists_).1
            == if Get(s.staged, t).None? then UnknownToken
               else if !exists_ then FileNotFound
               else Returned((Get(s.staged, t).value.path, t !in s.published && Get(s.owned, t).Some?))
  {
  }

  /** What the tables say about one token. */
  datatype Entry = Entry(staged: Option<Staged>, owned: Option<Path>, published: bool)

  function EntryOf(s: Service, t: Token): Entry {
    Entry(Get(s.staged, t), Get(s.owned, t), t in s.published)
  }

  /** The step ends the token's life: it is claimed without being published, it expires, or the service ends. */
  predicate Ends(s: Service, a: Action, t: Token) {
    && Get(s.staged, t).Some?
    && match a
       case Expire(now) => Get(s.staged, t).value.expire < now
       case ClaimToken(other, _) => other == t && t !in s.published
       case Teardown => true
       case _ => false
  }

  /** Each step keeps a token's entry, or ends it for good; only `Add` makes one. */
  lemma StepKeepsEntry(s: Service, a: Action, t: Token)
    requires Inv(s) && Fresh(s, a)
    ensures !(a.Add? && a.token == t) ==>
              EntryOf(Step(s, a), t) == if Ends(s, a, t) then Entry(None, None, false) else EntryOf(s, t)
    ensures a.Add? && a.token == t ==>
              EntryOf(Step(s, a), t)
              == Entry(Some(Staged(a.path, a.expire)), if a.isOwned then Some(a.path) else None, a.publish)
  {
    match a
    case Expire(now) => CleanupKeepsIff(s, now, t);
    case Add(token, path, expire, isOwned, publish) =>
      GetPut(s.staged, token, Staged(path, expire), t);
      GetPut(s.owned, token, path, t);
    case ClaimToken(token, exists_) =>
      GetRemove(s.staged, token, t);
      GetRemove(s.owned, token, t);
    case ReleaseToken(token) =>
    case Teardown =>
  }

  /** No call adds the token again: tokens are never reused. */
  ghost predicate NeverReused(actions: seq<Action>, t: Token) {
    forall a :: a in actions && a.Add? ==> a.token != t
  }

  /** Nothing on the run ends the token's life. */
  predicate LivesOn(s: Service, actions: seq<Action>, t: Token)
    decreases |actions|
  {
    actions == [] || (!Ends(s, actions[0], t) && LivesOn(Step(s, actions[0]), actions[1..], t))
  }

  lemma {:induction false} RunKeepsEntryIff(s: Service, actions: seq<Action>, t: Token)
    requires Inv(s) && AllFresh(s, actions) && NeverReused(actions, t)
    ensures EntryOf(Run(s, actions), t) == if LivesOn(s, actions, t) then EntryOf(s, t) else Entry(None, None, false)
    decreases |actions|
  {
    hide Inv, Step, Fresh, Ends;
    if actions != [] {
      var v := Step(s, actions[0]);
      StepFacts(s, actions[0]);
      StepKeepsEntry(s, actions[0], t);
      RunKeepsEntryIff(v, actions[1..], t);
      if Ends(s, actions[0], t) {
        GoneIsGone(v, actions[1..], t);
      }
    }
  }

  lemma {:induction false} GoneIsGone(s: Service, actions: seq<Action>, t: Token)
    requires Inv(s) && AllFresh(s, actions) && NeverReused(actions, t)
    requires EntryOf(s, t) == Entry(None, None, false)
    ensures EntryOf(Run(s, actions), t) == Entry(None, None, false)
    decreases |actions|
  {
    hide Inv, Step, Fresh;
    if actions != [] {
      StepFacts(s, actions[0]);
      StepKeepsEntry(s, actions[0], t);
      GoneIsGone(Step(s, actions[0]), actions[1..], t);
    }
  }

  /** Nothing after the registration happens to the token: the service is not shut down, no clean-up comes after its
      end, and it is not claimed unless it is published. */
  ghost predicate Untouched(actions: seq<Action>, t: Token, end: real, publish: bool) {
    forall a :: a in actions ==>
      !a.Teardown? && (a.Expire? ==> a.now <= end) && (a.ClaimToken? && a.token == t ==> publish)
  }

  lemma {:induction false} LivesOnIff(s: Service, actions: seq<Action>, t: Token, entry: Staged, publish: bool)
    requires Inv(s) && AllFresh(s, actions) && NeverReused(actions, t)
    requires Get(s.staged, t) == Some(entry) && (t in s.published <==> publish)
    ensures LivesOn(s, actions, t) <==> Untouched(actions, t, entry.expire, publish)
    decreases |actions|
  {
    hide Inv, Step, Fresh;
    if actions != [] {
      StepFacts(s, actions[0]);
      StepKeepsEntry(s, actions[0], t);
      assert actions == [actions[0]] + actions[1..];
      if !Ends(s, actions[0], t) {
        LivesOnIff(Step(s, actions[0]), actions[1..], t, entry, publish);
      }
    }
  }

  /** After a registration, whatever other calls run, a claim answers with the registered file if and only if the
      service was not shut down, no clean-up came after the token's end, and the token was not claimed before unless
      it is published; otherwise the token is unknown. */
  lemma ServedUntilItEndsIff(s: Service, a: Action, actions: seq<Action>)
    requires Inv(s) && Fresh(s, a) && a.Add? && AllFresh(Step(s, a), actions) && NeverReused(actions, a.token)
    ensures Claim(Run(Step(s, a), actions), a.token, true).1
            == if Untouched(actions, a.token, a.expire, a.publish)
               then Returned((a.path, a.isOwned && !a.publish)) else UnknownToken
  {
    hide Inv, Step, Fresh;
    var v := Step(s, a);
    StepFacts(s, a);
    StepKeepsEntry(s, a, a.token);
    RunKeepsEntryIff(v, actions, a.token);
    LivesOnIff(v, actions, a.token, Staged(a.path, a.expire), a.publish);
    ClaimAnswers(Run(v, actions), a.token, true);
    assert EntryOf(v, a.token) == Entry(Some(Staged(a.path, a.expire)), if a.isOwned then Some(a.path) else None, a.publish);
  }
}
