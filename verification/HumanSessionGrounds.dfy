/**
  What a request stands on: the member it acts for, the live session it showed,
  the audit that says what it did. The invariant here is kept beside those of
  single use, custody and chains.
*/
module HumanSessionGrounds {
  import opened Wrappers
  import opened Identifiers
  import opened HumanSessionRepository
  import opened HumanSessionChains
  import opened HumanSessionProtocol
  import opened HumanSessionSafety
  import opened HumanSessionTheorems

  /** What never changes about a stored session. */
  predicate SameRecord(a: Session, b: Session) {
    && a.id == b.id && a.owner == b.owner && a.csrf == b.csrf
    && a.issuedAt == b.issuedAt && a.expiresAt == b.expiresAt && a.generation == b.generation
  }

  /** The audit of a session's creation: a login for the first of a chain, a rotation for the others. */
  function SuccessAudit(session: Session): Audit {
    Audit(session.owner.tenantId, session.owner.principalId, session.id,
          if session.generation == 1 then LoginSucceeded else SessionRotated)
  }

  function LogoutAudit(session: Session): Audit {
    Audit(session.owner.tenantId, session.owner.principalId, session.id, LogoutSucceeded)
  }

  predicate HasAudit(audits: seq<Audit>, audit: Audit) {
    exists i :: 0 <= i < |audits| && audits[i] == audit
  }

  /** One identity has just this membership. */
  ghost predicate IsMember(memberships: map<Identity, seq<Owner>>, owner: Owner) {
    exists identity :: identity in memberships && memberships[identity] == [owner]
  }

  /** The ids are those of a member. */
  ghost predicate Owned(memberships: map<Identity, seq<Owner>>, owner: Owner) {
    exists member :: IsMember(memberships, member) && SameOwner(member, owner)
  }

  ghost predicate PhaseGrounded(s: State, p: Phase) {
    && (p.Member? ==> IsMember(s.store.memberships, p.owner))
    && (p.Authenticated? || p.Proved? ==>
          && p.token in s.store.sessions && SameRecord(s.store.sessions[p.token], p.session)
          && p.session.revokedAt == None && p.now < p.session.expiresAt)
    && (p.LogoutRevoked? ==> p.token in s.store.sessions && SameRecord(s.store.sessions[p.token], p.session))
    && (p.Issued? ==> p.token in s.store.sessions && p.audit == SuccessAudit(s.store.sessions[p.token]))
    && (p.Audited? ==>
          p.token in s.store.sessions && HasAudit(s.store.audits, SuccessAudit(s.store.sessions[p.token])))
    && (p.Done? && p.outcome.LoggedOut? ==>
          var t := p.outcome.token;
          t in s.store.sessions && HasAudit(s.store.audits, LogoutAudit(s.store.sessions[t])))
  }

  ghost predicate SessionGrounded(s: State, t: Digest)
    requires t in s.store.sessions
  {
    Owned(s.store.memberships, s.store.sessions[t].owner) && 1 <= s.store.sessions[t].generation
  }

  ghost predicate SentGrounded(s: State, t: Digest) {
    t in s.store.sessions && HasAudit(s.store.audits, SuccessAudit(s.store.sessions[t]))
  }

  /** A login is consumed before it expires. */
  predicate LoginsInTime(logins: map<Digest, Login>) {
    forall state :: state in logins && logins[state].consumedAt.Some? ==>
      logins[state].consumedAt.value < logins[state].expiresAt
  }

  ghost predicate Grounded(s: State) {
    && (forall r :: r in s.requests ==> PhaseGrounded(s, s.requests[r]))
    && (forall t :: t in s.store.sessions ==> SessionGrounded(s, t))
    && (forall t :: t in s.sent ==> SentGrounded(s, t))
    && LoginsInTime(s.store.logins)
  }

  /** No session is lost, and what never changes has not. */
  predicate Keeps(before: map<Digest, Session>, after: map<Digest, Session>) {
    forall t :: t in before ==> t in after && SameRecord(before[t], after[t])
  }

  /** Records stay, audits are added, memberships are as they were. */
  ghost predicate Grows(s: State, s': State) {
    && Keeps(s.store.sessions, s'.store.sessions)
    && s.store.audits <= s'.store.audits
    && s'.store.memberships == s.store.memberships
  }

  lemma AuditStays(audits: seq<Audit>, more: seq<Audit>, audit: Audit)
    requires audits <= more && HasAudit(audits, audit)
    ensures HasAudit(more, audit)
  {
    var i :| 0 <= i < |audits| && audits[i] == audit;
    assert more[i] == audit;
  }

  lemma SameAudits(a: Session, b: Session)
    requires SameRecord(a, b)
    ensures SuccessAudit(a) == SuccessAudit(b) && LogoutAudit(a) == LogoutAudit(b)
  {
  }

  lemma PhaseStaysGrounded(s: State, s': State, p: Phase)
    requires PhaseGrounded(s, p) && Grows(s, s')
    ensures PhaseGrounded(s', p)
  {
    hide HasAudit, SuccessAudit, LogoutAudit, IsMember;
    if p.Issued? || p.Audited? {
      SameAudits(s.store.sessions[p.token], s'.store.sessions[p.token]);
    }
    if p.Audited? {
      AuditStays(s.store.audits, s'.store.audits, SuccessAudit(s.store.sessions[p.token]));
    }
    if p.Done? && p.outcome.LoggedOut? {
      var t := p.outcome.token;
      SameAudits(s.store.sessions[t], s'.store.sessions[t]);
      AuditStays(s.store.audits, s'.store.audits, LogoutAudit(s.store.sessions[t]));
    }
  }

  /** The move of request `r` is grounded: what it now stands at, what it created and what it sent. */
  ghost predicate MoveGrounded(s: State, s': State, r: nat) {
    && Grows(s, s')
    && r in s'.requests && s'.requests == s.requests[r := s'.requests[r]]
    && PhaseGrounded(s', s'.requests[r])
    && (forall t :: t in s'.store.sessions && t !in s.store.sessions ==> SessionGrounded(s', t))
    && (forall t :: t in s'.sent && t !in s.sent ==> SentGrounded(s', t))
    && LoginsInTime(s'.store.logins)
  }

  lemma MoveKeepsGrounded(s: State, s': State, r: nat)
    requires Grounded(s) && MoveGrounded(s, s', r)
    ensures Grounded(s')
  {
    hide PhaseGrounded, HasAudit, SuccessAudit, Owned, LoginsInTime;
    forall q | q in s'.requests
      ensures PhaseGrounded(s', s'.requests[q])
    {
      if q != r {
        PhaseStaysGrounded(s, s', s.requests[q]);
      }
    }
    forall t | t in s'.sent
      ensures SentGrounded(s', t)
    {
      if t in s.sent {
        SameAudits(s.store.sessions[t], s'.store.sessions[t]);
        AuditStays(s.store.audits, s'.store.audits, SuccessAudit(s.store.sessions[t]));
      }
    }
  }

  lemma NothingGrows(s: State, s': State)
    requires s'.store.sessions == s.store.sessions && s.store.audits <= s'.store.audits
    requires s'.store.memberships == s.store.memberships
    ensures Grows(s, s')
  {
  }

  lemma RevokingKeeps(store: Store, token: Digest, at: int)
    requires token in store.sessions
    ensures Keeps(store.sessions, Revoked(store, token, at).sessions)
    ensures Revoked(store, token, at).sessions.Keys == store.sessions.Keys
  {
  }

  lemma CreatingKeeps(store: Store, n: NewSession)
    requires n.token !in store.sessions
    ensures Keeps(store.sessions, Created(store, n).sessions)
  {
  }

  lemma ReplacingKeeps(sessions: map<Digest, Session>, current: Digest, n: NewSession)
    requires current in sessions && n.token !in sessions
    ensures Keeps(sessions, Replacing(sessions, current, n))
    ensures Replacing(sessions, current, n).Keys == sessions.Keys + {n.token}
    ensures Replacing(sessions, current, n)[n.token] == Stored(n)
  {
  }

  /** A request that revokes a session on its way. */
  lemma RevokingIsGrounded(s: State, s': State, r: nat, token: Digest, at: int)
    requires Grounded(s) && token in s.store.sessions
    requires r in s'.requests && s' == Moved(s.(store := Revoked(s.store, token, at)), r, s'.requests[r])
    requires PhaseGrounded(s', s'.requests[r])
    ensures MoveGrounded(s, s', r)
  {
    RevokingKeeps(s.store, token, at);
    hide PhaseGrounded, Keeps, LoginsInTime, SessionGrounded, SentGrounded;
  }

  /** A request that creates a session on its way. */
  lemma CreatingIsGrounded(s: State, s': State, r: nat, token: Digest)
    requires Grounded(s) && Keeps(s.store.sessions, s'.store.sessions)
    requires s'.store == s.store.(sessions := s'.store.sessions) && s'.sent == s.sent
    requires s'.store.sessions.Keys == s.store.sessions.Keys + {token} && SessionGrounded(s', token)
    requires r in s'.requests && s'.requests == s.requests[r := s'.requests[r]]
    requires PhaseGrounded(s', s'.requests[r])
    ensures MoveGrounded(s, s', r)
  {
    hide PhaseGrounded, Keeps, LoginsInTime, SessionGrounded, SentGrounded;
  }

  // ---- steps ------------------------------------------------------------------------------------------------------

  /** A step that creates and sends nothing and leaves logins alone, to a phase with nothing to stand on. */
  predicate Plain(p: Phase) {
    && !p.Member? && !p.Authenticated? && !p.Proved? && !p.LogoutRevoked? && !p.Issued? && !p.Audited?
    && !(p.Done? && p.outcome.LoggedOut?)
  }

  lemma PlainIsGrounded(s: State, p: Phase)
    requires Plain(p)
    ensures PhaseGrounded(s, p)
  {
  }

  lemma ConsumedInTime(s: State, r: nat, state: Digest, browserBinding: Digest, code: Digest)
    requires LoginsInTime(s.store.logins)
    ensures LoginsInTime(StepConsume(s, r, state, browserBinding, code).store.logins)
  {
  }

  lemma ConsumeIsGrounded(s: State, r: nat, state: Digest, browserBinding: Digest, code: Digest)
    requires Grounded(s)
    ensures MoveGrounded(s, StepConsume(s, r, state, browserBinding, code), r)
  {
    var s' := StepConsume(s, r, state, browserBinding, code);
    ConsumedInTime(s, r, state, browserBinding, code);
    hide Grounded, PhaseGrounded, LoginsInTime, Grows;
    NothingGrows(s, s');
    PlainIsGrounded(s', s'.requests[r]);
  }

  /** A callback goes on exactly with an unconsumed, unexpired login of its browser and provider. */
  lemma ConsumedIff(s: State, r: nat, state: Digest, browserBinding: Digest, code: Digest)
    ensures StepConsume(s, r, state, browserBinding, code).requests[r].Consumed? <==>
      && state in s.store.logins
      && s.store.logins[state].browserBinding == browserBinding
      && s.store.logins[state].providerId == s.providerId
      && s.store.logins[state].consumedAt == None
      && s.clock < s.store.logins[state].expiresAt
  {
  }

  lemma ClaimIsGrounded(s: State, r: nat, state: Digest, code: Digest, now: int, c: Choice)
    requires Grounded(s)
    ensures MoveGrounded(s, StepClaim(s, r, state, code, now, c), r)
  {
    var s' := StepClaim(s, r, state, code, now, c);
    NothingGrows(s, s');
    hide PhaseGrounded, Grows, LoginsInTime;
    PlainIsGrounded(s', s'.requests[r]);
  }

  lemma ExchangeIsGrounded(s: State, r: nat, state: Digest, code: Digest, now: int, c: Choice)
    requires Grounded(s)
    ensures MoveGrounded(s, StepExchange(s, r, state, code, now, c), r)
  {
    var s' := StepExchange(s, r, state, code, now, c);
    NothingGrows(s, s');
    hide PhaseGrounded, Grows, LoginsInTime;
    PlainIsGrounded(s', s'.requests[r]);
  }

  lemma ResolveIsGrounded(s: State, r: nat, state: Digest, code: Digest, identity: Identity, now: int, c: Choice)
    requires Grounded(s)
    ensures MoveGrounded(s, StepResolve(s, r, state, code, identity, now, c), r)
  {
    var s' := StepResolve(s, r, state, code, identity, now, c);
    NothingGrows(s, s');
    hide Grows, LoginsInTime;
    var owner := MembershipOf(s.store, identity);
    if owner.Some? {
      assert s.store.memberships[identity] == [owner.value];
    }
  }

  lemma AuthenticationIsGrounded(s: State, r: nat, token: Digest, purpose: Purpose, c: Choice)
    requires Grounded(s) && StepAuthenticate(s, r, token, purpose, c) != s
    ensures MoveGrounded(s, StepAuthenticate(s, r, token, purpose, c), r)
  {
    NothingGrows(s, StepAuthenticate(s, r, token, purpose, c));
    hide Grows, LoginsInTime;
  }

  /** A request goes on as authenticated only with a token whose stored session is unrevoked and unexpired. */
  lemma AuthenticatedNeedsLive(s: State, r: nat, token: Digest, purpose: Purpose, c: Choice)
    requires !(r in s.requests && s.requests[r].Authenticated?)
    ensures var s' := StepAuthenticate(s, r, token, purpose, c);
      r in s'.requests && s'.requests[r].Authenticated? ==>
        && token in s.store.sessions && s.store.sessions[token].revokedAt == None
        && s.clock < s.store.sessions[token].expiresAt
        && s'.requests[r] == Authenticated(token, s.store.sessions[token], purpose, s.clock)
  {
  }

  /**
    A check that fails before a session is touched ends the request, with nothing consumed, claimed, created, revoked
    or sent; a request whose proof fails leaves one audit of the denial.
  */
  lemma FailedChecksEndTheRequest(s: State, r: nat, c: Choice)
    requires r in s.requests && !c.ok
    requires var p := s.requests[r]; p.Consumed? || p.Claimed? || p.Identified? || p.Authenticated?
    ensures var s' := Next(s, Step(r, c));
      && s'.requests == s.requests[r := Done(Failed)]
      && s'.sent == s.sent && s'.ledger == s.ledger && s'.store == s.store.(audits := s'.store.audits)
      && s'.store.audits == s.store.audits +
           if s.requests[r].Authenticated? then
             var session := s.requests[r].session;
             [Audit(session.owner.tenantId, session.owner.principalId, session.id, SessionDenied)]
           else []
  {
  }

  lemma ProofIsGrounded(s: State, r: nat, c: Choice)
    requires Grounded(s) && r in s.requests && s.requests[r].Authenticated?
    ensures var p := s.requests[r]; MoveGrounded(s, StepProve(s, r, p.token, p.session, p.purpose, p.now, c), r)
  {
    var p := s.requests[r];
    var s' := StepProve(s, r, p.token, p.session, p.purpose, p.now, c);
    NothingGrows(s, s');
    assert PhaseGrounded(s, p);
    hide Grows, LoginsInTime, Grounded;
  }

  lemma LogoutIsGrounded(s: State, r: nat)
    requires Grounded(s) && r in s.requests && s.requests[r].Proved?
    ensures var p := s.requests[r]; MoveGrounded(s, StepLogout(s, r, p.token, p.session, p.now), r)
  {
    hide LoginsInTime, Grounded, MoveGrounded, Keeps;
    var p := s.requests[r];
    var s' := StepLogout(s, r, p.token, p.session, p.now);
    GroundedPhase(s, r);
    if Revocable(s.store, p.token) {
      RevokingKeeps(s.store, p.token, p.now);
      SameInBoth(s.store.sessions, s'.store.sessions, p.token);
      RevokingIsGrounded(s, s', r, p.token, p.now);
    } else {
      PlainIsGrounded(s', s'.requests[r]);
      UnchangedIsGrounded(s, s', r);
    }
  }

  lemma SameInBoth(before: map<Digest, Session>, after: map<Digest, Session>, t: Digest)
    requires Keeps(before, after) && t in before
    ensures t in after && SameRecord(before[t], after[t])
  {
  }

  lemma GroundedPhase(s: State, r: nat)
    requires Grounded(s) && r in s.requests
    ensures PhaseGrounded(s, s.requests[r])
  {
    hide PhaseGrounded;
  }

  /** A request that moves and leaves the store alone. */
  lemma UnchangedIsGrounded(s: State, s': State, r: nat)
    requires Grounded(s) && r in s'.requests && s' == Moved(s, r, s'.requests[r])
    requires PhaseGrounded(s', s'.requests[r])
    ensures MoveGrounded(s, s', r)
  {
    NothingGrows(s, s');
    hide PhaseGrounded, Grows, LoginsInTime, SessionGrounded, SentGrounded;
  }

  lemma AuditIsGrounded(s: State, r: nat, c: Choice)
    requires Grounded(s) && r in s.requests && s.requests[r].Issued?
    ensures var p := s.requests[r]; MoveGrounded(s, StepAudit(s, r, p.token, p.audit, p.now, c), r)
  {
    var p := s.requests[r];
    var s' := StepAudit(s, r, p.token, p.audit, p.now, c);
    NothingGrows(s, s');
    assert PhaseGrounded(s, p);
    hide Grows, LoginsInTime, Grounded;
    assert c.ok ==> s'.store.audits[|s.store.audits|] == p.audit;
  }

  lemma SendIsGrounded(s: State, r: nat, token: Digest)
    requires Grounded(s) && r in s.requests && s.requests[r] == Audited(token)
    ensures MoveGrounded(s, Moved(s.(sent := s.sent + {token}), r, Done(SentSession(token))), r)
  {
    var s' := Moved(s.(sent := s.sent + {token}), r, Done(SentSession(token)));
    NothingGrows(s, s');
    assert PhaseGrounded(s, s.requests[r]);
    hide Grows, LoginsInTime, Grounded, HasAudit;
  }

  lemma CompensationIsGrounded(s: State, r: nat, token: Digest, now: int, c: Choice)
    requires Grounded(s)
    ensures MoveGrounded(s, StepCompensate(s, r, token, now, c), r)
  {
    hide Grounded, MoveGrounded, PhaseGrounded;
    var s' := StepCompensate(s, r, token, now, c);
    PlainIsGrounded(s', s'.requests[r]);
    if c.ok && Revocable(s.store, token) {
      RevokingIsGrounded(s, s', r, token, now);
    } else {
      UnchangedIsGrounded(s, s', r);
    }
  }

  lemma LogoutAuditIsGrounded(s: State, r: nat, c: Choice)
    requires Grounded(s) && r in s.requests && s.requests[r].LogoutRevoked?
    ensures var p := s.requests[r]; MoveGrounded(s, StepAuditLogout(s, r, p.token, p.session, c), r)
  {
    var p := s.requests[r];
    var s' := StepAuditLogout(s, r, p.token, p.session, c);
    NothingGrows(s, s');
    assert PhaseGrounded(s, p);
    hide Grows, LoginsInTime, Grounded;
    assert c.ok ==> s'.store.audits[|s.store.audits|] == LogoutAudit(p.session);
    assert LogoutAudit(p.session) == LogoutAudit(s.store.sessions[p.token]);
  }

  lemma GivenIsStored(owner: Owner)
    ensures SameOwner(owner, Cloned(AsGiven(owner)))
  {
    LowerIsIdentityIff(owner.subjectId);
    LowerIsIdentityIff(owner.tenantId);
    LowerIsIdentityIff(owner.principalId);
  }

  lemma GivenIsOwned(memberships: map<Identity, seq<Owner>>, member: Owner, owner: Owner)
    requires IsMember(memberships, member) && SameOwner(member, owner)
    ensures Owned(memberships, Cloned(AsGiven(owner)))
  {
    GivenIsStored(owner);
    hide IsMember;
    assert SameOwner(member, Cloned(AsGiven(owner)));
  }

  /** The audit a request is about to record is that of the session it has just created. */
  lemma IssuedIsGrounded(s: State, r: nat, n: NewSession)
    requires n.token in s.store.sessions && s.store.sessions[n.token] == Stored(n)
    requires r in s.requests && s.requests[r].Issued? && s.requests[r].token == n.token
    requires s.requests[r].audit == AuditOf(Stored(n), if n.generation == 1 then LoginSucceeded else SessionRotated)
    ensures PhaseGrounded(s, s.requests[r])
  {
    hide Rendered, Cloned;
  }

  lemma StartIsGrounded(s: State, r: nat, key: CodeKey, state: Digest, owner: Owner, n: NewSession)
    requires Grounded(s) && IsMember(s.store.memberships, owner)
    requires n.owner == AsGiven(owner) && n.generation == 1 && StartChain(s, r, key, state, n) != s
    ensures MoveGrounded(s, StartChain(s, r, key, state, n), r)
  {
    var s' := StartChain(s, r, key, state, n);
    hide LoginsInTime, Grounded, IsMember, Start, IdUnused, SameIds, MoveGrounded, Keeps, PhaseGrounded, Rendered,
      Cloned, AsGiven, SessionGrounded;
    if SessionFault(s.store, n) == None {
      MembersAreOwned(s, owner);
      CreatingKeeps(s.store, n);
      IssuedIsGrounded(s', r, n);
      StoredIsGrounded(s', n, owner);
      CreatingIsGrounded(s, s', r, n.token);
    } else {
      PlainIsGrounded(s', s'.requests[r]);
      UnchangedIsGrounded(s, s', r);
    }
  }

  lemma MembersAreOwned(s: State, owner: Owner)
    requires IsMember(s.store.memberships, owner)
    ensures Owned(s.store.memberships, owner)
  {
    hide IsMember;
    assert SameOwner(owner, owner);
  }

  lemma ExtendIsGrounded(s: State, r: nat, n: NewSession)
    requires Grounded(s) && r in s.requests && s.requests[r].Proved?
    requires var p := s.requests[r]; n.owner == AsGiven(p.session.owner) && n.generation == p.session.generation + 1
    requires ExtendChain(s, r, s.requests[r].token, n) != s
    ensures MoveGrounded(s, ExtendChain(s, r, s.requests[r].token, n), r)
  {
    var p := s.requests[r];
    var s' := ExtendChain(s, r, p.token, n);
    hide LoginsInTime, Grounded, IsMember, Extend, IdUnused, MoveGrounded, Keeps, PhaseGrounded, RotationOutcome,
      Rendered, Cloned, AsGiven, Replacing, SameIds, SessionGrounded;
    if RotationOutcome(s.store, p.token, n) == Rotated {
      RotatedFrom(s, r, n);
      ReplacingKeeps(s.store.sessions, p.token, n);
      IssuedIsGrounded(s', r, n);
      StoredIsGrounded(s', n, p.session.owner);
      CreatingIsGrounded(s, s', r, n.token);
    } else {
      PlainIsGrounded(s', s'.requests[r]);
      UnchangedIsGrounded(s, s', r);
    }
  }

  /** A session made from the owner of another, with ids of a member. */
  lemma StoredIsGrounded(s: State, n: NewSession, owner: Owner)
    requires n.token in s.store.sessions && s.store.sessions[n.token] == Stored(n)
    requires n.owner == AsGiven(owner) && Owned(s.store.memberships, owner) && 1 <= n.generation
    ensures SessionGrounded(s, n.token)
  {
    hide IsMember, Cloned, AsGiven, Rendered, SameOwner;
    var member :| IsMember(s.store.memberships, member) && SameOwner(member, owner);
    GivenIsOwned(s.store.memberships, member, owner);
  }

  lemma RotatedFrom(s: State, r: nat, n: NewSession)
    requires Grounded(s) && r in s.requests && s.requests[r].Proved?
    requires RotationOutcome(s.store, s.requests[r].token, n) == Rotated
    ensures s.requests[r].token in s.store.sessions && n.token !in s.store.sessions
    ensures Owned(s.store.memberships, s.requests[r].session.owner)
    ensures 1 <= s.requests[r].session.generation
  {
    assert PhaseGrounded(s, s.requests[r]);
    assert SessionGrounded(s, s.requests[r].token);
    hide IsMember;
  }

  predicate OfCallback(p: Phase) {
    p.Callback? || p.Consumed? || p.Claimed? || p.Identified? || p.Member?
  }

  lemma CallbackIsGrounded(s: State, r: nat, c: Choice)
    requires Grounded(s) && r in s.requests && Advance(s, r, s.requests[r], c) != s && OfCallback(s.requests[r])
    ensures MoveGrounded(s, Advance(s, r, s.requests[r], c), r)
  {
    GroundedPhase(s, r);
    hide Grounded, MoveGrounded, IsMember, HasAudit, StepConsume, StepClaim, StepExchange, StepResolve, StartChain,
      StepAuthenticate, StepProve, ExtendChain, StepLogout, StepAudit, StepCompensate, StepAuditLogout;
    match s.requests[r]
    case Callback(state, browserBinding, code) => ConsumeIsGrounded(s, r, state, browserBinding, code);
    case Consumed(state, code, now) => ClaimIsGrounded(s, r, state, code, now, c);
    case Claimed(state, code, now) => ExchangeIsGrounded(s, r, state, code, now, c);
    case Identified(state, code, identity, now) => ResolveIsGrounded(s, r, state, code, identity, now, c);
    case Member(state, code, owner, now) =>
      StartIsGrounded(s, r, CodeKey(s.providerId, code), state, owner, NewFrom(owner, c, now, 1));
    case _ =>
  }

  lemma AdvanceIsGrounded(s: State, r: nat, c: Choice)
    requires Grounded(s) && r in s.requests && Advance(s, r, s.requests[r], c) != s
    ensures MoveGrounded(s, Advance(s, r, s.requests[r], c), r)
  {
    hide Grounded, MoveGrounded, StepConsume, StepClaim, StepExchange, StepResolve, StartChain,
      StepAuthenticate, StepProve, ExtendChain, StepLogout, StepAudit, StepCompensate, StepAuditLogout;
    match s.requests[r]
    case Present(token, purpose) => AuthenticationIsGrounded(s, r, token, purpose, c);
    case Authenticated(token, session, purpose, now) => ProofIsGrounded(s, r, c);
    case Proved(token, session, ToRotate, now) =>
      ExtendIsGrounded(s, r, NewFrom(session.owner, c, now, session.generation + 1));
    case Proved(token, session, ToLogout, now) => LogoutIsGrounded(s, r);
    case Issued(token, audit, now) => AuditIsGrounded(s, r, c);
    case Audited(token) => SendIsGrounded(s, r, token);
    case Compensating(token, now) => CompensationIsGrounded(s, r, token, now, c);
    case LogoutRevoked(token, session) => LogoutAuditIsGrounded(s, r, c);
    case Done(_) =>
    case _ => CallbackIsGrounded(s, r, c);
  }

  lemma BrokenIsGrounded(s: State, r: nat)
    requires Grounded(s) && r in s.requests
    ensures MoveGrounded(s, Moved(s, r, Broken(s.requests[r])), r)
  {
    assert PhaseGrounded(s, s.requests[r]);
    var s' := Moved(s, r, Broken(s.requests[r]));
    NothingGrows(s, s');
    hide Grounded, Grows, LoginsInTime, HasAudit;
  }

  lemma OutsideKeepsGrounded(s: State, s': State)
    requires Grounded(s) && LoginsInTime(s'.store.logins)
    requires s'.store == s.store.(logins := s'.store.logins) && s'.requests == s.requests && s'.sent == s.sent
    ensures Grounded(s')
  {
    hide PhaseGrounded, LoginsInTime, HasAudit, Grows, SuccessAudit;
    NothingGrows(s, s');
    forall r | r in s'.requests
      ensures PhaseGrounded(s', s'.requests[r])
    {
      PhaseStaysGrounded(s, s', s.requests[r]);
    }
  }

  lemma RequestedIsInTime(s: State, e: Event)
    requires LoginsInTime(s.store.logins) && e.LoginRequested?
    ensures LoginsInTime(Next(s, e).store.logins)
  {
  }

  lemma GroundedStep(s: State, e: Event)
    requires Grounded(s)
    ensures Grounded(Next(s, e))
  {
    var s' := Next(s, e);
    match e
    case Tick(_) => OutsideKeepsGrounded(s, s');
    case LoginRequested(_, _) =>
      RequestedIsInTime(s, e);
      OutsideKeepsGrounded(s, s');
    case Begin(r, phase) =>
      if s' != s {
        BeginIsGrounded(s, s', r, phase);
        hide Grounded, MoveGrounded;
        MoveKeepsGrounded(s, s', r);
      }
    case BreakOff(r) =>
      hide Grounded, MoveGrounded;
      if r in s.requests {
        BrokenIsGrounded(s, r);
        MoveKeepsGrounded(s, s', r);
      }
    case Step(r, c) =>
      hide Grounded, MoveGrounded, Advance;
      if r in s.requests && s' != s {
        AdvanceIsGrounded(s, r, c);
        MoveKeepsGrounded(s, s', r);
      }
  }

  lemma BeginIsGrounded(s: State, s': State, r: nat, phase: Phase)
    requires Grounded(s) && s' == Moved(s, r, phase) && (phase.Callback? || phase.Present?)
    ensures MoveGrounded(s, s', r)
  {
    NothingGrows(s, s');
    PlainIsGrounded(s', phase);
    hide PhaseGrounded, Grows, LoginsInTime;
  }

  lemma {:induction false} RunKeepsGrounded(s: State, events: seq<Event>)
    requires Grounded(s)
    ensures Grounded(Run(s, events))
    decreases events
  {
    if events != [] {
      RunKeepsGrounded(s, events[..|events| - 1]);
      hide Next, Grounded;
      GroundedStep(Run(s, events[..|events| - 1]), events[|events| - 1]);
    }
  }

  lemma ReachableIsGrounded(s: State)
    requires Reachable(s)
    ensures Grounded(s)
  {
    var providerId, clock, memberships, events :| s == Run(Init(providerId, clock, memberships), events);
    assert Grounded(Init(providerId, clock, memberships));
    hide Grounded, Run;
    RunKeepsGrounded(Init(providerId, clock, memberships), events);
  }

  // ---- what follows -----------------------------------------------------------------------------------------------

  /** This identity has exactly one membership, and its ids are those of the session. */
  predicate IsOwner(s: State, identity: Identity, session: Session) {
    && identity in s.store.memberships && |s.store.memberships[identity]| == 1
    && var member := s.store.memberships[identity][0];
       member.subjectId == session.owner.subjectId && member.tenantId == session.owner.tenantId
       && member.principalId == session.owner.principalId
  }

  /** Every session, however often rotated, has the ids of a person with exactly one membership. */
  lemma SessionsBelongToMembers(s: State, t: Digest)
    requires Reachable(s) && t in s.store.sessions
    ensures exists identity :: IsOwner(s, identity, s.store.sessions[t])
  {
    ReachableIsGrounded(s);
    assert SessionGrounded(s, t);
    var member :| IsMember(s.store.memberships, member) && SameOwner(member, s.store.sessions[t].owner);
    var identity :| identity in s.store.memberships && s.store.memberships[identity] == [member];
    assert IsOwner(s, identity, s.store.sessions[t]);
  }

  /** The audit of a sent session names its tenant, principal and id, and whether it was a login or a rotation. */
  lemma SentSessionsHaveTheirAudit(s: State, t: Digest)
    requires Reachable(s) && t in s.sent
    ensures t in s.store.sessions
    ensures var session := s.store.sessions[t];
      exists i :: 0 <= i < |s.store.audits|
        && s.store.audits[i].tenantId == session.owner.tenantId
        && s.store.audits[i].principalId == session.owner.principalId
        && s.store.audits[i].sessionId == session.id
        && s.store.audits[i].event == if session.generation == 1 then LoginSucceeded else SessionRotated
  {
    ReachableIsGrounded(s);
    assert SentGrounded(s, t);
  }

  /** So does that of a logout that reported success. */
  lemma LogoutsHaveTheirAudit(s: State, r: nat, t: Digest)
    requires Reachable(s) && r in s.requests && s.requests[r] == Done(LoggedOut(t))
    ensures t in s.store.sessions
    ensures var session := s.store.sessions[t];
      exists i :: 0 <= i < |s.store.audits|
        && s.store.audits[i].tenantId == session.owner.tenantId
        && s.store.audits[i].principalId == session.owner.principalId
        && s.store.audits[i].sessionId == session.id
        && s.store.audits[i].event == LogoutSucceeded
  {
    ReachableIsGrounded(s);
    assert PhaseGrounded(s, s.requests[r]);
  }

  /** A login state is only ever consumed before it expires. */
  lemma LoginsAreConsumedInTime(s: State, state: Digest)
    requires Reachable(s) && state in s.store.logins && s.store.logins[state].consumedAt.Some?
    ensures s.store.logins[state].consumedAt.value < s.store.logins[state].expiresAt
  {
    ReachableIsGrounded(s);
  }

  // ---- expiry -----------------------------------------------------------------------------------------------------

  /** A stored token authenticates exactly while its session is unrevoked and its time is not up. */
  lemma AuthenticatesIff(store: Store, t: Digest, now: int)
    requires t in store.sessions
    ensures Authenticates(store, t, now)
       <==> store.sessions[t].revokedAt == None && now < store.sessions[t].expiresAt
  {
  }

  /** A session whose time is up never authenticates again, whatever happens later. */
  lemma {:induction false} SessionsExpire(s: State, events: seq<Event>, t: Digest)
    requires t in s.store.sessions && s.store.sessions[t].expiresAt <= s.clock
    ensures var s' := Run(s, events); t in s'.store.sessions && !Authenticates(s'.store, t, s'.clock)
  {
    DeadTokensStayDead(s, events, t);
  }

  /** A new session lives from its creation to the time it was given. */
  lemma NewSessionsLiveUntil(store: Store, n: NewSession, now: int)
    ensures Authenticates(Created(store, n), n.token, now) <==> now < n.expiresAt
  {
  }
}
