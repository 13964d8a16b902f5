/** The guarantees of human sign-in, in every state of every run. */
module HumanSessionTheorems {
  import opened Wrappers
  import opened Identifiers
  import opened HumanSessionRepository
  import opened HumanSessionChains
  import opened HumanSessionProtocol
  import opened HumanSessionSafety

  ghost predicate Inv(s: State) {
    SingleUse(s) && Chained(s) && Custody(s)
  }

  lemma {:induction false} RunKeepsInv(s: State, events: seq<Event>)
    requires Inv(s)
    ensures Inv(Run(s, events))
    decreases events
  {
    if events != [] {
      var before, e := Run(s, events[..|events| - 1]), events[|events| - 1];
      RunKeepsInv(s, events[..|events| - 1]);
      hide Next, SingleUse, Chained, Custody;
      SingleUseStep(before, e);
      ChainedStep(before, e);
      CustodyStep(before, e);
    }
  }

  lemma InitInv(providerId: string, clock: int, memberships: map<Identity, seq<Owner>>)
    ensures Inv(Init(providerId, clock, memberships))
  {
  }

  /** A state some run leads to from the empty store. */
  ghost predicate Reachable(s: State) {
    exists providerId, clock, memberships, events :: s == Run(Init(providerId, clock, memberships), events)
  }

  lemma ReachableInv(s: State)
    requires Reachable(s)
    ensures Inv(s)
  {
    var providerId, clock, memberships, events :| s == Run(Init(providerId, clock, memberships), events);
    InitInv(providerId, clock, memberships);
    RunKeepsInv(Init(providerId, clock, memberships), events);
  }

  /**
    Sessions form disjoint rotation chains: each stands at one place of one
    chain, its generation is its position, and only the last of a chain can be
    unrevoked; each of the others names its successor.
  */
  lemma SessionsFormChains(s: State, i: nat, j: nat)
    requires Reachable(s) && i < |s.ledger.chains| && j < |s.ledger.chains[i]|
    ensures var chain := s.ledger.chains[i];
      && chain[j] in s.store.sessions
      && s.store.sessions[chain[j]].generation == j + 1
      && (j + 1 < |chain| ==>
            && s.store.sessions[chain[j]].revokedAt.Some?
            && chain[j + 1] in s.store.sessions
            && s.store.sessions[chain[j]].replacedBy == Some(s.store.sessions[chain[j + 1]].id)
            && SameOwner(s.store.sessions[chain[j]].owner, s.store.sessions[chain[j + 1]].owner))
  {
    hide SingleUse, Custody, Reachable, SameOwner;
    ReachableInv(s);
    var t := s.ledger.chains[i][j];
    assert At(s.ledger, i, j, t);
    assert Linked(s.ledger, s.store.sessions, t);
  }

  lemma SessionsHaveOnePlace(s: State, t: Digest)
    requires Reachable(s) && t in s.store.sessions
    ensures exists i, j :: At(s.ledger, i, j, t) && forall k, l :: At(s.ledger, k, l, t) ==> k == i && l == j
  {
    ReachableInv(s);
    assert At(s.ledger, s.ledger.place[t].0, s.ledger.place[t].1, t);
  }

  // ---- single use -------------------------------------------------------------------------------------------------

  function ConsumedStates(s: State): set<Digest> {
    set state | state in s.store.logins && s.store.logins[state].consumedAt.Some?
  }

  lemma {:induction false} DistinctFit<T>(xs: seq<T>, within: set<T>)
    requires forall i :: 0 <= i < |xs| ==> xs[i] in within
    requires forall i, j :: 0 <= i < j < |xs| ==> xs[i] != xs[j]
    ensures |xs| <= |within|
    decreases |xs|
  {
    if xs != [] {
      var last := xs[|xs| - 1];
      DistinctFit(xs[..|xs| - 1], within - {last});
      assert |within - {last}| == |within| - 1;
    }
  }

  lemma {:induction false} InjectiveFits<K, V>(m: map<K, V>, within: set<V>)
    requires forall k :: k in m ==> m[k] in within
    requires forall k, l :: k in m && l in m && k != l ==> m[k] != m[l]
    ensures |m| <= |within|
    decreases |m|
  {
    if m != map[] {
      var k :| k in m;
      var rest := m - {k};
      assert rest.Keys == m.Keys - {k};
      assert |rest.Keys| == |m.Keys| - 1;
      InjectiveFits(rest, within - {m[k]});
      assert |within - {m[k]}| == |within| - 1;
    }
  }

  /**
    However callbacks interleave, every chain comes from a login state that was
    consumed and an authorization code that was claimed under that state, and no
    two chains from one state or one code: a code is used once, as section 4.1.2
    of RFC 6749 asks.
  */
  lemma ChainsHaveTheirOwnStateAndCode(s: State)
    requires Reachable(s)
    ensures |s.origins| == |s.ledger.chains|
    ensures forall i :: 0 <= i < |s.origins| ==>
      && s.origins[i].1 in s.claimedBy && s.claimedBy[s.origins[i].1] == s.origins[i].0
      && s.origins[i].1 in s.store.codes && s.origins[i].0 in ConsumedStates(s)
    ensures forall i, j :: 0 <= i < j < |s.origins| ==>
      s.origins[i].0 != s.origins[j].0 && s.origins[i].1 != s.origins[j].1
  {
    hide Chained, Custody, Reachable;
    ReachableInv(s);
  }

  /** Chains are at most as many as claimed codes, and those at most as many as consumed states. */
  lemma ChainsCodesStates(s: State)
    requires Reachable(s)
    ensures |s.ledger.chains| <= |s.store.codes| <= |ConsumedStates(s)|
  {
    ReachableInv(s);
    var codes := seq(|s.origins|, i requires 0 <= i < |s.origins| => s.origins[i].1);
    hide Chained, Custody;
    DistinctFit(codes, s.claimedBy.Keys);
    InjectiveFits(s.claimedBy, ConsumedStates(s));
    assert |s.claimedBy| == |s.claimedBy.Keys| == |s.store.codes.Keys| == |s.store.codes|;
  }

  // ---- audits -----------------------------------------------------------------------------------------------------

  /** No session of the chain of `t` is unrevoked. */
  ghost predicate ChainIsDead(s: State, t: Digest) {
    && t in s.ledger.place && s.ledger.place[t].0 < |s.ledger.chains|
    && var chain := s.ledger.chains[s.ledger.place[t].0];
       forall j :: 0 <= j < |chain| ==> chain[j] in s.store.sessions && s.store.sessions[chain[j]].revokedAt.Some?
  }

  lemma EndedIsDead(s: State, t: Digest)
    requires Chained(s) && Ended(s.store.sessions, t)
    ensures ChainIsDead(s, t)
  {
    EndedChainIsDead(s.ledger, s.store.sessions, t);
  }

  /** A session sent to a browser has a success audit with its id. */
  lemma SentSessionsAreAudited(s: State, t: Digest)
    requires Reachable(s) && t in s.sent
    ensures t in s.store.sessions && HasSuccessAudit(s.store.audits, s.store.sessions[t].id)
  {
    ReachableInv(s);
    hide SingleUse, Chained;
  }

  /** A logout that revoked its session leaves a dead chain, whether or not its audit was written. */
  lemma LogoutEndsTheChain(s: State, r: nat, t: Digest)
    requires Reachable(s) && r in s.requests
    requires s.requests[r] == Done(LoggedOut(t)) || s.requests[r] == Done(LogoutUnaudited(t))
    ensures ChainIsDead(s, t)
  {
    hide SingleUse, Custody, ChainInv, Reachable;
    ReachableInv(s);
    CustodyOf(s, r);
    EndedIsDead(s, t);
  }

  /**
    After a failed success audit in a callback or rotation the chain is dead if
    and only if the compensating revocation went through.
  */
  lemma FailedAuditEndsTheChainIff(s: State, r: nat, t: Digest)
    requires Reachable(s) && r in s.requests
    requires s.requests[r] == Done(AuditFailed(t)) || s.requests[r] == Done(Uncompensated(t))
    ensures ChainIsDead(s, t) <==> s.requests[r] == Done(AuditFailed(t))
  {
    hide SingleUse, Custody, Reachable;
    ReachableInv(s);
    CustodyOf(s, r);
    if s.requests[r] == Done(AuditFailed(t)) {
      hide ChainInv;
      EndedIsDead(s, t);
    } else {
      hide Linked, IdsDistinct;
      assert At(s.ledger, s.ledger.place[t].0, s.ledger.place[t].1, t);
    }
  }

  lemma ReachableNext(s: State, e: Event)
    requires Reachable(s)
    ensures Reachable(Next(s, e))
  {
    var providerId, clock, memberships, events :| s == Run(Init(providerId, clock, memberships), events);
    hide Next;
    assert (events + [e])[..|events + [e]| - 1] == events;
    assert Next(s, e) == Run(Init(providerId, clock, memberships), events + [e]);
  }

  const SOME_DIGEST: Digest := seq(64, _ => 'a')

  const SOME_CHOICE := Choice(true, "issuer", "subject", SOME_DIGEST, "session", SOME_DIGEST, 100)

  const SOME_LOGIN := Login("transaction", "browser", "idp", "challenge", "/", 100, None)

  const SOME_IDENTITY := Identity("idp", "issuer", "subject")

  const SOME_MEMBERSHIPS: map<Identity, seq<Owner>> :=
    map[SOME_IDENTITY := [Owner("subject", "tenant", "principal", ["viewer"])]]

  /** The first request of a run stands at `p`, and there is one membership and no session. */
  ghost predicate Reached(s: State, p: Phase) {
    && Reachable(s) && s.providerId == "idp" && s.clock == 0
    && 0 in s.requests && s.requests[0] == p
    && s.store.memberships == SOME_MEMBERSHIPS && s.store.sessions == map[]
  }

  lemma CallbackIsReachable() returns (s: State)
    ensures Reached(s, Callback("state", "browser", "code"))
    ensures s.store.logins == map["state" := SOME_LOGIN] && s.store.codes == map[]
  {
    var s0 := Init("idp", 0, SOME_MEMBERSHIPS);
    assert Reachable(s0) by {
      assert Run(s0, []) == s0;
    }
    hide Reachable, Advance;
    ReachableNext(s0, LoginRequested("state", SOME_LOGIN));
    var s1 := Next(s0, LoginRequested("state", SOME_LOGIN));
    ReachableNext(s1, Begin(0, Callback("state", "browser", "code")));
    s := Next(s1, Begin(0, Callback("state", "browser", "code")));
  }

  lemma ClaimIsReachable() returns (s: State)
    ensures Reached(s, Claimed("state", "code", 0))
  {
    hide Reachable, StartChain, ExtendChain;
    var s0 := CallbackIsReachable();
    ReachableNext(s0, Step(0, SOME_CHOICE));
    var s1 := Next(s0, Step(0, SOME_CHOICE));
    assert Reached(s1, Consumed("state", "code", 0));
    ReachableNext(s1, Step(0, SOME_CHOICE));
    s := Next(s1, Step(0, SOME_CHOICE));
  }

  lemma MemberIsReachable() returns (s: State)
    ensures Reached(s, Member("state", "code", SOME_MEMBERSHIPS[SOME_IDENTITY][0], 0))
  {
    hide Reachable, StartChain, ExtendChain;
    var s0 := ClaimIsReachable();
    ReachableNext(s0, Step(0, SOME_CHOICE));
    var s1 := Next(s0, Step(0, SOME_CHOICE));
    assert Reached(s1, Identified("state", "code", SOME_IDENTITY, 0));
    ReachableNext(s1, Step(0, SOME_CHOICE));
    s := Next(s1, Step(0, SOME_CHOICE));
  }

  /**
    Both can fail: a run of one callback ends with the success audit not written
    and the compensating revocation not gone through, and its chain has a live
    session.
  */
  lemma UncompensatedIsReachable() returns (s: State, t: Digest)
    ensures Reachable(s) && 0 in s.requests && s.requests[0] == Done(Uncompensated(t))
    ensures t in s.store.sessions && s.store.sessions[t].revokedAt == None && !ChainIsDead(s, t)
  {
    hide Reachable, ChainIsDead;
    var s0 := MemberIsReachable();
    t := SOME_DIGEST;
    var failing := SOME_CHOICE.(ok := false);
    var s1 := Next(s0, Step(0, SOME_CHOICE));
    ReachableNext(s0, Step(0, SOME_CHOICE));
    var p := s0.requests[0];
    MemberIsIssued(s0, p.state, p.code, p.owner, p.now);
    ReachableNext(s1, Step(0, failing));
    ReachableNext(Next(s1, Step(0, failing)), Step(0, failing));
    s := Next(Next(s1, Step(0, failing)), Step(0, failing));
    hide Next;
    IssuedFailsTwice(s1, failing);
    FailedAuditEndsTheChainIff(s, 0, t);
  }

  lemma IssuedFailsTwice(s: State, failing: Choice)
    requires 0 in s.requests && s.requests[0].Issued? && !failing.ok
    ensures var s' := Next(Next(s, Step(0, failing)), Step(0, failing));
      s'.store == s.store && 0 in s'.requests && s'.requests[0] == Done(Uncompensated(s.requests[0].token))
  {
    hide StepConsume, StepClaim, StepExchange, StepResolve, StartChain, StepAuthenticate, StepProve, ExtendChain,
      StepLogout, StepAuditLogout;
  }

  lemma MemberIsIssued(s: State, state: Digest, code: Digest, owner: Owner, now: int)
    requires 0 in s.requests && s.requests[0] == Member(state, code, owner, now) && s.store.sessions == map[]
    ensures var s' := Next(s, Step(0, SOME_CHOICE));
      && 0 in s'.requests && s'.requests[0].Issued? && s'.requests[0].token == SOME_DIGEST
      && SOME_DIGEST in s'.store.sessions && s'.store.sessions[SOME_DIGEST].revokedAt == None
  {
    hide Start, Cloned;
    var n := NewFrom(owner, SOME_CHOICE, now, 1);
    assert IsDigest(SOME_DIGEST);
    assert IdUnused(s, n.id) && SessionFault(s.store, n) == None;
  }

  /** The request has created a session and neither sent nor revoked it: under way, broken off, or uncompensated. */
  predicate InFlight(p: Phase, t: Digest) {
    KeeperOf(p) == Some(t)
  }

  /** An unrevoked session that was never sent is some request's unfinished business. */
  lemma UnsentSessionsAreInFlight(s: State, t: Digest)
    requires Reachable(s) && t in s.store.sessions && s.store.sessions[t].revokedAt == None && t !in s.sent
    ensures exists r :: r in s.requests && InFlight(s.requests[r], t)
  {
    ReachableInv(s);
    assert Unclaimed(s, t);
    var r :| r in s.requests && KeeperOf(s.requests[r]) == Some(t);
    assert InFlight(s.requests[r], t);
  }

  // ---- tokens stay dead -------------------------------------------------------------------------------------------

  /** Sessions are created and revoked; none of those stored is brought back or given more time. */
  ghost predicate NoneRevived(s: State, s': State) {
    forall t :: t in s.store.sessions ==>
      && t in s'.store.sessions
      && s'.store.sessions[t].expiresAt == s.store.sessions[t].expiresAt
      && (s.store.sessions[t].revokedAt.Some? ==> s'.store.sessions[t].revokedAt.Some?)
  }

  lemma ChangingPhasesReviveNone(s: State, r: nat, c: Choice)
    requires r in s.requests && ChangesSessions(s.requests[r])
    ensures NoneRevived(s, Advance(s, r, s.requests[r], c)) && Advance(s, r, s.requests[r], c).clock == s.clock
  {
    hide NoneRevived, StepConsume, StepClaim, StepExchange, StepResolve, StartChain, StepAuthenticate, StepProve,
      ExtendChain, StepLogout, StepAudit, StepCompensate, StepAuditLogout;
    match s.requests[r]
    case Member(state, code, owner, now) =>
      StartChainRevivesNone(s, r, CodeKey(s.providerId, code), state, NewFrom(owner, c, now, 1));
    case Proved(token, session, ToRotate, now) =>
      ExtendChainRevivesNone(s, r, token, NewFrom(session.owner, c, now, session.generation + 1));
    case Proved(token, session, ToLogout, now) => LogoutRevivesNone(s, r, token, session, now);
    case Compensating(token, now) => CompensationRevivesNone(s, r, token, now, c);
  }

  lemma StartChainRevivesNone(s: State, r: nat, key: CodeKey, state: Digest, n: NewSession)
    ensures NoneRevived(s, StartChain(s, r, key, state, n)) && StartChain(s, r, key, state, n).clock == s.clock
  {
    hide Start, IdUnused, Stored;
  }

  lemma ExtendChainRevivesNone(s: State, r: nat, token: Digest, n: NewSession)
    ensures NoneRevived(s, ExtendChain(s, r, token, n)) && ExtendChain(s, r, token, n).clock == s.clock
  {
    hide Extend, IdUnused, Stored, SameIds;
  }

  lemma LogoutRevivesNone(s: State, r: nat, token: Digest, session: Session, now: int)
    ensures NoneRevived(s, StepLogout(s, r, token, session, now))
    ensures StepLogout(s, r, token, session, now).clock == s.clock
  {
  }

  lemma CompensationRevivesNone(s: State, r: nat, token: Digest, now: int, c: Choice)
    ensures NoneRevived(s, StepCompensate(s, r, token, now, c)) && StepCompensate(s, r, token, now, c).clock == s.clock
  {
  }

  lemma {:induction false} StepRevivesNone(s: State, e: Event)
    ensures NoneRevived(s, Next(s, e)) && s.clock <= Next(s, e).clock
  {
    hide Advance;
    if e.Step? && e.r in s.requests {
      if ChangesSessions(s.requests[e.r]) {
        ChangingPhasesReviveNone(s, e.r, e.choice);
      } else {
        OtherPhasesKeepSessions(s, e.r, e.choice);
      }
    }
  }

  /** A token that existed and no longer authenticates never authenticates again, whatever happens later. */
  lemma {:induction false} DeadTokensStayDead(s: State, events: seq<Event>, t: Digest)
    requires t in s.store.sessions && !Authenticates(s.store, t, s.clock)
    ensures var s' := Run(s, events); t in s'.store.sessions && !Authenticates(s'.store, t, s'.clock)
    decreases events
  {
    if events != [] {
      DeadTokensStayDead(s, events[..|events| - 1], t);
      hide Next;
      StepRevivesNone(Run(s, events[..|events| - 1]), events[|events| - 1]);
    }
  }
}
