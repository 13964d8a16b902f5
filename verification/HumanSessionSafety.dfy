/** What every run of the human-session protocol keeps. */
module HumanSessionSafety {
  import opened Wrappers
  import opened Identifiers
  import opened HumanSessionRepository
  import opened HumanSessionChains
  import opened HumanSessionProtocol

  // ---- single use of states and codes -----------------------------------------------------------------------------

  /** The login state a callback has consumed and not yet used to claim a code. */
  function StateOf(p: Phase): Option<Digest> {
    if p.Consumed? then Some(p.state) else None
  }

  /** The code, with its state, that a callback has claimed and not yet turned into a session. */
  function CodeOf(p: Phase): Option<(Digest, Digest)> {
    match p
    case Claimed(state, code, _) => Some((state, code))
    case Identified(state, code, _, _) => Some((state, code))
    case Member(state, code, _, _) => Some((state, code))
    case _ => None
  }

  predicate IsConsumed(logins: map<Digest, Login>, state: Digest) {
    state in logins && logins[state].consumedAt.Some?
  }

  /** Claims go to distinct consumed states, and chains to distinct claims. */
  ghost predicate Injective(s: State) {
    && s.claimedBy.Keys == s.store.codes.Keys
    && (forall k :: k in s.claimedBy ==> IsConsumed(s.store.logins, s.claimedBy[k]))
    && (forall k, l :: k in s.claimedBy && l in s.claimedBy && k != l ==> s.claimedBy[k] != s.claimedBy[l])
    && |s.origins| == |s.ledger.chains|
    && (forall i :: 0 <= i < |s.origins| ==>
          s.origins[i].1 in s.claimedBy && s.claimedBy[s.origins[i].1] == s.origins[i].0)
    && forall i, j :: 0 <= i < j < |s.origins| ==> s.origins[i].1 != s.origins[j].1
  }

  /** A request that holds a state or code holds it alone, and it is not used yet. */
  ghost predicate HoldsAlone(s: State, r: nat)
    requires r in s.requests
  {
    var p := s.requests[r];
    && (StateOf(p).Some? ==>
          && IsConsumed(s.store.logins, StateOf(p).value)
          && (forall k :: k in s.claimedBy ==> s.claimedBy[k] != StateOf(p).value)
          && forall q :: q in s.requests && q != r ==> StateOf(s.requests[q]) != StateOf(p))
    && (CodeOf(p).Some? ==>
          var key := CodeKey(s.providerId, CodeOf(p).value.1);
          && key in s.claimedBy && s.claimedBy[key] == CodeOf(p).value.0
          && (forall i :: 0 <= i < |s.origins| ==> s.origins[i].1 != key)
          && forall q :: q in s.requests && q != r && CodeOf(s.requests[q]).Some? ==>
               CodeOf(s.requests[q]).value.1 != CodeOf(p).value.1)
  }

  ghost predicate SingleUse(s: State) {
    Injective(s) && forall r :: r in s.requests ==> HoldsAlone(s, r)
  }

  /** The parts of the state that single use speaks about are the same. */
  predicate SameClaims(s: State, s': State) {
    && s'.providerId == s.providerId && s'.store.codes == s.store.codes && s'.claimedBy == s.claimedBy
    && s'.origins == s.origins && |s'.ledger.chains| == |s.ledger.chains|
  }

  ghost predicate LoginsGrow(s: State, s': State) {
    forall state :: IsConsumed(s.store.logins, state) ==> IsConsumed(s'.store.logins, state)
  }

  /** Request `r` gives up what it held, or keeps it; nothing else changes. */
  lemma MoveKeepsSingleUse(s: State, s': State, r: nat, p: Phase)
    requires SingleUse(s) && SameClaims(s, s') && LoginsGrow(s, s') && s'.requests == s.requests[r := p]
    requires StateOf(p) == None || (r in s.requests && StateOf(p) == StateOf(s.requests[r]))
    requires CodeOf(p) == None || (r in s.requests && CodeOf(p) == CodeOf(s.requests[r]))
    ensures SingleUse(s')
  {
    hide Injective, HoldsAlone;
    SingleUseOf(s);
    InjectiveIsKept(s, s');
    forall q | q in s'.requests
      ensures HoldsAlone(s', q)
    {
      MoveKeepsHolding(s, s', r, p, q);
    }
  }

  lemma MoveKeepsHolding(s: State, s': State, r: nat, p: Phase, q: nat)
    requires SameClaims(s, s') && LoginsGrow(s, s') && s'.requests == s.requests[r := p] && q in s'.requests
    requires StateOf(p) == None || (r in s.requests && StateOf(p) == StateOf(s.requests[r]))
    requires CodeOf(p) == None || (r in s.requests && CodeOf(p) == CodeOf(s.requests[r]))
    requires q in s.requests ==> HoldsAlone(s, q)
    ensures HoldsAlone(s', q)
  {
    hide IsConsumed;
  }

  lemma LoginsKeepSingleUse(s: State, s': State)
    requires SingleUse(s) && SameClaims(s, s') && LoginsGrow(s, s') && s'.requests == s.requests
    ensures SingleUse(s')
  {
    forall q | q in s'.requests
      ensures HoldsAlone(s', q)
    {
      assert HoldsAlone(s, q);
    }
  }

  lemma ConsumeKeepsSingleUse(s: State, s': State, r: nat, state: Digest, code: Digest, now: int)
    requires SingleUse(s) && SameClaims(s, s') && r in s.requests
    requires state in s.store.logins && s.store.logins[state].consumedAt == None
    requires s'.store.logins == ConsumeLogin(s.store, state, now).logins
    requires s'.requests == s.requests[r := Consumed(state, code, now)]
    ensures SingleUse(s')
  {
    hide Injective, HoldsAlone;
    SingleUseOf(s);
    InjectiveIsKept(s, s');
    forall q | q in s'.requests
      ensures HoldsAlone(s', q)
    {
      if q != r {
        StillHoldsAlone(s, s', r, q);
      } else {
        ConsumerHoldsAlone(s, s', r, state, code, now);
      }
    }
  }

  lemma SingleUseOf(s: State)
    requires SingleUse(s)
    ensures Injective(s) && forall r :: r in s.requests ==> HoldsAlone(s, r)
  {
    hide Injective, HoldsAlone;
  }

  lemma InjectiveIsKept(s: State, s': State)
    requires Injective(s) && SameClaims(s, s') && LoginsGrow(s, s')
    ensures Injective(s')
  {
  }

  /** Request `q` keeps what it holds when `r` takes up a state that was not consumed, or nothing new. */
  lemma StillHoldsAlone(s: State, s': State, r: nat, q: nat)
    requires SameClaims(s, s') && LoginsGrow(s, s')
    requires r in s'.requests && s'.requests == s.requests[r := s'.requests[r]] && q in s.requests && q != r
    requires HoldsAlone(s, q) && CodeOf(s'.requests[r]) == None
    requires StateOf(s'.requests[r]).Some? ==> !IsConsumed(s.store.logins, StateOf(s'.requests[r]).value)
    ensures HoldsAlone(s', q)
  {
  }

  lemma ConsumerHoldsAlone(s: State, s': State, r: nat, state: Digest, code: Digest, now: int)
    requires SameClaims(s, s') && r in s.requests && s'.requests == s.requests[r := Consumed(state, code, now)]
    requires Injective(s) && forall q :: q in s.requests ==> HoldsAlone(s, q)
    requires !IsConsumed(s.store.logins, state) && IsConsumed(s'.store.logins, state)
    ensures HoldsAlone(s', r)
  {
    forall q | q in s'.requests && q != r
      ensures StateOf(s'.requests[q]) != Some(state)
    {
      assert HoldsAlone(s, q);
    }
  }

  lemma ClaimKeepsSingleUse(s: State, s': State, r: nat, state: Digest, code: Digest, now: int, expiresAt: int)
    requires SingleUse(s) && r in s.requests && s.requests[r] == Consumed(state, code, now)
    requires CodeKey(s.providerId, code) !in s.store.codes
    requires s' == Moved(
      s.(store := s.store.(codes := s.store.codes[CodeKey(s.providerId, code) := expiresAt]),
         claimedBy := s.claimedBy[CodeKey(s.providerId, code) := state]), r, Claimed(state, code, now))
    ensures SingleUse(s')
  {
    hide Injective, HoldsAlone;
    SingleUseOf(s);
    ClaimKeepsInjective(s, s', r, state, code, now, expiresAt);
    forall q | q in s'.requests
      ensures HoldsAlone(s', q)
    {
      if q == r {
        ClaimerHoldsAlone(s, s', r, state, code, now);
      } else {
        OthersHoldApart(s, s', r, state, code, now, q);
      }
    }
  }

  lemma ClaimKeepsInjective(s: State, s': State, r: nat, state: Digest, code: Digest, now: int, expiresAt: int)
    requires Injective(s) && r in s.requests && HoldsAlone(s, r) && s.requests[r] == Consumed(state, code, now)
    requires CodeKey(s.providerId, code) !in s.store.codes
    requires s' == Moved(
      s.(store := s.store.(codes := s.store.codes[CodeKey(s.providerId, code) := expiresAt]),
         claimedBy := s.claimedBy[CodeKey(s.providerId, code) := state]), r, Claimed(state, code, now))
    ensures Injective(s') && Claiming(s, s', r, state, code, now)
    ensures forall i :: 0 <= i < |s.origins| ==> s.origins[i].1 in s.claimedBy
  {
    hide HoldsAlone, IsConsumed;
    var key := CodeKey(s.providerId, code);
    ConsumerHolds(s, r);
    assert s'.claimedBy.Keys == s'.store.codes.Keys;
    InsertIsInjective(s.claimedBy, key, state);
  }

  lemma ConsumerHolds(s: State, r: nat)
    requires r in s.requests && HoldsAlone(s, r) && s.requests[r].Consumed?
    ensures IsConsumed(s.store.logins, s.requests[r].state)
    ensures forall k :: k in s.claimedBy ==> s.claimedBy[k] != s.requests[r].state
  {
    assert StateOf(s.requests[r]) == Some(s.requests[r].state);
  }

  lemma InsertIsInjective<K, V>(m: map<K, V>, key: K, value: V)
    requires forall k, l :: k in m && l in m && k != l ==> m[k] != m[l]
    requires forall k :: k in m ==> m[k] != value
    ensures var m' := m[key := value]; forall k, l :: k in m' && l in m' && k != l ==> m'[k] != m'[l]
  {
  }

  /** The claim of a code under a state, as far as single use goes. */
  ghost predicate Claiming(s: State, s': State, r: nat, state: Digest, code: Digest, now: int) {
    && r in s.requests && s.requests[r] == Consumed(state, code, now)
    && CodeKey(s.providerId, code) !in s.claimedBy
    && s'.requests == s.requests[r := Claimed(state, code, now)]
    && s'.providerId == s.providerId && s'.origins == s.origins && s'.store.logins == s.store.logins
    && s'.claimedBy == s.claimedBy[CodeKey(s.providerId, code) := state]
  }

  lemma ClaimerHoldsAlone(s: State, s': State, r: nat, state: Digest, code: Digest, now: int)
    requires Claiming(s, s', r, state, code, now)
    requires forall q :: q in s.requests ==> HoldsAlone(s, q)
    requires forall i :: 0 <= i < |s.origins| ==> s.origins[i].1 in s.claimedBy
    ensures HoldsAlone(s', r)
  {
    forall q | q in s'.requests && q != r && CodeOf(s'.requests[q]).Some?
      ensures CodeOf(s'.requests[q]).value.1 != code
    {
      assert HoldsAlone(s, q);
    }
  }

  lemma OthersHoldApart(s: State, s': State, r: nat, state: Digest, code: Digest, now: int, q: nat)
    requires Claiming(s, s', r, state, code, now) && q in s.requests && q != r
    requires HoldsAlone(s, q) && HoldsAlone(s, r)
    ensures HoldsAlone(s', q)
  {
    assert StateOf(s.requests[q]) != Some(state);
  }

  lemma StartKeepsSingleUse(s: State, s': State, r: nat, state: Digest, code: Digest, p: Phase)
    requires SingleUse(s) && r in s.requests && CodeOf(s.requests[r]) == Some((state, code))
    requires StateOf(p) == None && CodeOf(p) == None && s'.requests == s.requests[r := p]
    requires s'.providerId == s.providerId && s'.claimedBy == s.claimedBy
    requires s'.store.codes == s.store.codes && s'.store.logins == s.store.logins
    requires s'.origins == s.origins + [(state, CodeKey(s.providerId, code))]
    requires |s'.ledger.chains| == |s.ledger.chains| + 1
    ensures SingleUse(s')
  {
    hide Injective, HoldsAlone;
    SingleUseOf(s);
    var key := CodeKey(s.providerId, code);
    StartKeepsInjective(s, s', r, state, key);
    forall q | q in s'.requests
      ensures HoldsAlone(s', q)
    {
      if q == r {
        HoldsNothing(s', r);
      } else {
        HoldsWhenStarted(s, s', r, q, state, code, p);
      }
    }
  }

  lemma StartKeepsInjective(s: State, s': State, r: nat, state: Digest, key: CodeKey)
    requires Injective(s) && r in s.requests && HoldsAlone(s, r)
    requires CodeOf(s.requests[r]) == Some((state, key.code)) && key.providerId == s.providerId
    requires s'.claimedBy == s.claimedBy && s'.store.codes == s.store.codes && s'.store.logins == s.store.logins
    requires s'.origins == s.origins + [(state, key)] && |s'.ledger.chains| == |s.ledger.chains| + 1
    ensures Injective(s')
  {
  }

  lemma HoldsNothing(s: State, r: nat)
    requires r in s.requests && StateOf(s.requests[r]) == None && CodeOf(s.requests[r]) == None
    ensures HoldsAlone(s, r)
  {
  }

  /** Request `q` keeps what it holds when `r` starts a chain from a code of its own. */
  lemma HoldsWhenStarted(s: State, s': State, r: nat, q: nat, state: Digest, code: Digest, p: Phase)
    requires r in s.requests && CodeOf(s.requests[r]) == Some((state, code)) && q in s.requests && q != r
    requires StateOf(p) == None && CodeOf(p) == None && s'.requests == s.requests[r := p]
    requires s'.providerId == s.providerId && s'.claimedBy == s.claimedBy && s'.store.logins == s.store.logins
    requires s'.origins == s.origins + [(state, CodeKey(s.providerId, code))]
    requires HoldsAlone(s, q)
    ensures HoldsAlone(s', q)
  {
  }

  lemma SingleUseStep(s: State, e: Event)
    requires SingleUse(s)
    ensures SingleUse(Next(s, e))
  {
    hide Advance, SingleUse;
    var s' := Next(s, e);
    match e
    case Tick(_) => LoginsKeepSingleUse(s, s');
    case LoginRequested(_, _) => LoginsKeepSingleUse(s, s');
    case Begin(r, phase) =>
      if s' != s {
        MoveKeepsSingleUse(s, s', r, phase);
      }
    case BreakOff(r) =>
      if r in s.requests {
        MoveKeepsSingleUse(s, s', r, Broken(s.requests[r]));
      }
    case Step(r, c) =>
      if r in s.requests && s' != s {
        AdvanceKeepsSingleUse(s, r, c);
      }
  }

  lemma AdvanceKeepsSingleUse(s: State, r: nat, c: Choice)
    requires SingleUse(s) && r in s.requests && Advance(s, r, s.requests[r], c) != s
    ensures SingleUse(Advance(s, r, s.requests[r], c))
  {
    hide SingleUse, StepConsume, StepClaim, StepExchange, StepResolve, StartChain,
      StepAuthenticate, StepProve, ExtendChain, StepLogout, StepAudit, StepCompensate, StepAuditLogout;
    var p := s.requests[r];
    if p.Callback? {
      StepConsumeKeepsSingleUse(s, r);
    } else if p.Consumed? {
      StepClaimKeepsSingleUse(s, r, c);
    } else if p.Member? {
      StartChainKeepsSingleUse(s, r, NewFrom(p.owner, c, p.now, 1));
    } else {
      hide Advance;
      OthersMove(s, r, c);
      MoveKeepsSingleUse(s, Advance(s, r, p, c), r, Advance(s, r, p, c).requests[r]);
    }
  }

  lemma StepConsumeKeepsSingleUse(s: State, r: nat)
    requires SingleUse(s) && r in s.requests && s.requests[r].Callback?
    ensures var p := s.requests[r]; SingleUse(StepConsume(s, r, p.state, p.browserBinding, p.code))
  {
    hide SingleUse;
    var p := s.requests[r];
    var s' := StepConsume(s, r, p.state, p.browserBinding, p.code);
    if Consumable(s.store, p.state, p.browserBinding, s.providerId, s.clock) {
      ConsumeKeepsSingleUse(s, s', r, p.state, p.code, s.clock);
    } else {
      MoveKeepsSingleUse(s, s', r, Done(Failed));
    }
  }

  lemma StepClaimKeepsSingleUse(s: State, r: nat, c: Choice)
    requires SingleUse(s) && r in s.requests && s.requests[r].Consumed?
    ensures var p := s.requests[r]; SingleUse(StepClaim(s, r, p.state, p.code, p.now, c))
  {
    hide SingleUse;
    var p := s.requests[r];
    var s' := StepClaim(s, r, p.state, p.code, p.now, c);
    if c.ok && CodeKey(s.providerId, p.code) !in s.store.codes {
      ClaimKeepsSingleUse(s, s', r, p.state, p.code, p.now, c.expiresAt);
    } else {
      MoveKeepsSingleUse(s, s', r, Done(Failed));
    }
  }

  lemma StartChainKeepsSingleUse(s: State, r: nat, n: NewSession)
    requires SingleUse(s) && r in s.requests && s.requests[r].Member?
    ensures var p := s.requests[r]; SingleUse(StartChain(s, r, CodeKey(s.providerId, p.code), p.state, n))
  {
    hide SingleUse, Start, IdUnused;
    var p := s.requests[r];
    var s' := StartChain(s, r, CodeKey(s.providerId, p.code), p.state, n);
    ChainCounts(s.ledger, "", n.token);
    if s' != s {
      if SessionFault(s.store, n).Some? {
        MoveKeepsSingleUse(s, s', r, Done(Failed));
      } else {
        StartKeepsSingleUse(s, s', r, p.state, p.code, s'.requests[r]);
      }
    }
  }

  /** Request `r` moves on without touching logins and codes, and takes up neither. */
  predicate Passes(s: State, s': State, r: nat) {
    && SameClaims(s, s') && s'.store.logins == s.store.logins
    && r in s'.requests && s'.requests == s.requests[r := s'.requests[r]]
    && StateOf(s'.requests[r]) == None
    && (CodeOf(s'.requests[r]) == None || (r in s.requests && CodeOf(s'.requests[r]) == CodeOf(s.requests[r])))
  }

  /** The remaining steps change neither logins nor codes, and take up neither. */
  lemma OthersMove(s: State, r: nat, c: Choice)
    requires r in s.requests && Advance(s, r, s.requests[r], c) != s
    requires !s.requests[r].Callback? && !s.requests[r].Consumed? && !s.requests[r].Member?
    ensures Passes(s, Advance(s, r, s.requests[r], c), r)
  {
    hide Passes, StepConsume, StepClaim, StepExchange, StepResolve, StartChain,
      StepAuthenticate, StepProve, ExtendChain, StepLogout, StepAudit, StepCompensate, StepAuditLogout;
    match s.requests[r]
    case Claimed(state, code, now) => ExchangePasses(s, r, c);
    case Identified(state, code, identity, now) => ResolvePasses(s, r, c);
    case Present(token, purpose) => AuthenticatePasses(s, r, token, purpose, c);
    case Authenticated(token, session, purpose, now) => ProvePasses(s, r, token, session, purpose, now, c);
    case Proved(token, session, ToRotate, now) =>
      ExtendChainPasses(s, r, token, NewFrom(session.owner, c, now, session.generation + 1));
    case Proved(token, session, ToLogout, now) => LogoutPasses(s, r, token, session, now);
    case Issued(token, audit, now) => AuditPasses(s, r, token, audit, now, c);
    case Audited(token) => SendPasses(s, r, token);
    case Compensating(token, now) => CompensatePasses(s, r, token, now, c);
    case LogoutRevoked(token, session) => AuditLogoutPasses(s, r, token, session, c);
    case Done(_) =>
  }

  lemma ExchangePasses(s: State, r: nat, c: Choice)
    requires r in s.requests && s.requests[r].Claimed?
    ensures var p := s.requests[r]; Passes(s, StepExchange(s, r, p.state, p.code, p.now, c), r)
  {
  }

  lemma ResolvePasses(s: State, r: nat, c: Choice)
    requires r in s.requests && s.requests[r].Identified?
    ensures var p := s.requests[r]; Passes(s, StepResolve(s, r, p.state, p.code, p.identity, p.now, c), r)
  {
    hide MembershipOf;
  }

  lemma AuthenticatePasses(s: State, r: nat, token: Digest, purpose: Purpose, c: Choice)
    requires StepAuthenticate(s, r, token, purpose, c) != s
    ensures Passes(s, StepAuthenticate(s, r, token, purpose, c), r)
  {
  }

  lemma ProvePasses(s: State, r: nat, token: Digest, session: Session, purpose: Purpose, now: int, c: Choice)
    ensures Passes(s, StepProve(s, r, token, session, purpose, now, c), r)
  {
  }

  lemma ExtendChainPasses(s: State, r: nat, token: Digest, n: NewSession)
    requires ExtendChain(s, r, token, n) != s
    ensures Passes(s, ExtendChain(s, r, token, n), r)
  {
    hide Extend, IdUnused;
    ChainCounts(s.ledger, token, n.token);
  }

  lemma LogoutPasses(s: State, r: nat, token: Digest, session: Session, now: int)
    ensures Passes(s, StepLogout(s, r, token, session, now), r)
  {
  }

  lemma AuditPasses(s: State, r: nat, token: Digest, audit: Audit, now: int, c: Choice)
    ensures Passes(s, StepAudit(s, r, token, audit, now, c), r)
  {
  }

  lemma SendPasses(s: State, r: nat, token: Digest)
    ensures Passes(s, Moved(s.(sent := s.sent + {token}), r, Done(SentSession(token))), r)
  {
  }

  lemma CompensatePasses(s: State, r: nat, token: Digest, now: int, c: Choice)
    ensures Passes(s, StepCompensate(s, r, token, now, c), r)
  {
  }

  lemma AuditLogoutPasses(s: State, r: nat, token: Digest, session: Session, c: Choice)
    ensures Passes(s, StepAuditLogout(s, r, token, session, c), r)
  {
  }

  // ---- custody of sessions not yet sent ---------------------------------------------------------------------------

  /** The session a request has created and answers for: not yet sent, not yet revoked. */
  function KeeperOf(p: Phase): Option<Digest> {
    match p
    case Issued(token, _, _) => Some(token)
    case Audited(token) => Some(token)
    case Compensating(token, _) => Some(token)
    case Done(Uncompensated(token)) => Some(token)
    case Done(Abandoned(token)) => Some(token)
    case _ => None
  }

  /** The session whose chain a request has ended. */
  function EndedBy(p: Phase): Option<Digest> {
    match p
    case LogoutRevoked(token, _) => Some(token)
    case Done(AuditFailed(token)) => Some(token)
    case Done(LoggedOut(token)) => Some(token)
    case Done(LogoutUnaudited(token)) => Some(token)
    case _ => None
  }

  predicate HasSuccessAudit(audits: seq<Audit>, id: string) {
    exists i :: 0 <= i < |audits| && audits[i].sessionId == id && IsSuccess(audits[i].event)
  }

  /** A session a request answers for is live, unsent and answered for by nobody else. */
  ghost predicate KeepsAlone(s: State, r: nat)
    requires r in s.requests
  {
    KeeperOf(s.requests[r]).Some? ==>
      var t := KeeperOf(s.requests[r]).value;
      && t in s.store.sessions && s.store.sessions[t].revokedAt == None && t !in s.sent
      && forall q :: q in s.requests && q != r ==> KeeperOf(s.requests[q]) != Some(t)
  }

  predicate IsSuccess(event: AuditEvent) {
    event.LoginSucceeded? || event.SessionRotated?
  }

  ghost predicate InOrder(s: State, p: Phase) {
    && (p.Issued? ==>
          p.token in s.store.sessions && p.audit.sessionId == s.store.sessions[p.token].id && IsSuccess(p.audit.event))
    && (p.Audited? ==> p.token in s.store.sessions && HasSuccessAudit(s.store.audits, s.store.sessions[p.token].id))
    && (EndedBy(p).Some? ==> Ended(s.store.sessions, EndedBy(p).value))
    && (p.Authenticated? || p.Proved? ==> p.token in s.store.sessions && p.token in s.sent)
  }

  /** Revoked and not replaced: the end of a dead chain. */
  predicate Ended(sessions: map<Digest, Session>, t: Digest) {
    t in sessions && sessions[t].revokedAt.Some? && sessions[t].replacedBy == None
  }

  ghost predicate Kept(s: State, t: Digest) {
    exists r :: r in s.requests && KeeperOf(s.requests[r]) == Some(t)
  }

  ghost predicate Unclaimed(s: State, t: Digest) {
    t in s.store.sessions && s.store.sessions[t].revokedAt == None && t !in s.sent
  }

  ghost predicate SentAreAudited(s: State) {
    forall t :: t in s.sent ==> t in s.store.sessions && HasSuccessAudit(s.store.audits, s.store.sessions[t].id)
  }

  ghost predicate Custody(s: State) {
    && SentAreAudited(s)
    && (forall t :: Unclaimed(s, t) ==> Kept(s, t))
    && forall r :: r in s.requests ==> KeepsAlone(s, r) && InOrder(s, s.requests[r])
  }

  lemma AuditsGrow(audits: seq<Audit>, audit: Audit)
    ensures forall id :: HasSuccessAudit(audits, id) ==> HasSuccessAudit(audits + [audit], id)
    ensures IsSuccess(audit.event) ==> HasSuccessAudit(audits + [audit], audit.sessionId)
  {
    forall id | HasSuccessAudit(audits, id)
      ensures HasSuccessAudit(audits + [audit], id)
    {
      var i :| 0 <= i < |audits| && audits[i].sessionId == id && IsSuccess(audits[i].event);
      assert (audits + [audit])[i] == audits[i];
    }
    assert (audits + [audit])[|audits|] == audit;
  }

  ghost predicate AuditsKept(s: State, s': State) {
    forall id :: HasSuccessAudit(s.store.audits, id) ==> HasSuccessAudit(s'.store.audits, id)
  }

  /** Sessions are added, revoked or replaced; an ended one stays as it is, and no id changes. */
  ghost predicate SessionsKept(s: State, s': State) {
    forall t :: t in s.store.sessions ==>
      && t in s'.store.sessions
      && s'.store.sessions[t].id == s.store.sessions[t].id
      && (Ended(s.store.sessions, t) ==> Ended(s'.store.sessions, t))
  }

  lemma InOrderIsKept(s: State, s': State, p: Phase)
    requires InOrder(s, p) && AuditsKept(s, s') && SessionsKept(s, s') && s.sent <= s'.sent
    ensures InOrder(s', p)
  {
  }

  lemma SentStayAudited(s: State, s': State)
    requires SentAreAudited(s) && AuditsKept(s, s') && SessionsKept(s, s') && s'.sent == s.sent
    ensures SentAreAudited(s')
  {
  }

  /** Request `r` moves on, answering for what it answered for before. */
  lemma MoveKeepsCustody(s: State, s': State, r: nat, p: Phase)
    requires Custody(s) && s'.requests == s.requests[r := p]
    requires s'.store.sessions == s.store.sessions && s'.sent == s.sent && AuditsKept(s, s')
    requires KeeperOf(p) == if r in s.requests then KeeperOf(s.requests[r]) else None
    requires InOrder(s', p)
    ensures Custody(s')
  {
    hide InOrder, HasSuccessAudit, IsSuccess;
    SentStayAudited(s, s');
    forall q | q in s'.requests
      ensures KeepsAlone(s', q) && InOrder(s', s'.requests[q])
    {
      if q in s.requests {
        assert KeepsAlone(s, q);
      }
      if q != r {
        InOrderIsKept(s, s', s.requests[q]);
      }
    }
    forall t | Unclaimed(s', t)
      ensures Kept(s', t)
    {
      assert Unclaimed(s, t);
      var q :| q in s.requests && KeeperOf(s.requests[q]) == Some(t);
      assert KeeperOf(s'.requests[q]) == Some(t);
    }
  }

  /** Request `r` takes up a session that is new; one that was sent may be replaced by it. */
  lemma CreateKeepsCustody(s: State, s': State, r: nat, p: Phase, t: Digest)
    requires Custody(s) && r in s.requests && KeeperOf(s.requests[r]) == None && s'.requests == s.requests[r := p]
    requires t !in s.store.sessions && KeeperOf(p) == Some(t) && InOrder(s', p)
    requires s'.sent == s.sent && AuditsKept(s, s') && SessionsKept(s, s')
    requires s'.store.sessions.Keys == s.store.sessions.Keys + {t} && s'.store.sessions[t].revokedAt == None
    requires forall u :: u in s.store.sessions && u !in s.sent ==> s'.store.sessions[u] == s.store.sessions[u]
    ensures Custody(s')
  {
    hide InOrder, HasSuccessAudit, IsSuccess;
    SentStayAudited(s, s');
    forall q | q in s'.requests
      ensures KeepsAlone(s', q) && InOrder(s', s'.requests[q])
    {
      assert KeepsAlone(s, q);
      if q != r {
        InOrderIsKept(s, s', s.requests[q]);
      } else {
        assert forall o :: o in s.requests ==> KeepsAlone(s, o);
      }
    }
    forall u | Unclaimed(s', u)
      ensures Kept(s', u)
    {
      if u == t {
        assert KeeperOf(s'.requests[r]) == Some(t);
      } else {
        assert Unclaimed(s, u);
        var q :| q in s.requests && KeeperOf(s.requests[q]) == Some(u);
        assert KeeperOf(s'.requests[q]) == Some(u);
      }
    }
  }

  /** A session no other request answers for is revoked. */
  lemma RevokeKeepsCustody(s: State, s': State, r: nat, p: Phase, t: Digest)
    requires Custody(s) && r in s.requests && s'.requests == s.requests[r := p]
    requires Revocable(s.store, t) && t in s'.store.sessions && s'.store.sessions[t].revokedAt.Some?
    requires s'.store.sessions == s.store.sessions[t := s'.store.sessions[t]]
    requires s'.store.sessions[t].id == s.store.sessions[t].id
    requires KeeperOf(s.requests[r]) == Some(t) || (KeeperOf(s.requests[r]) == None && t in s.sent)
    requires KeeperOf(p) == None && InOrder(s', p) && s'.sent == s.sent && s'.store.audits == s.store.audits
    ensures Custody(s')
  {
    assert SessionsKept(s, s');
    hide InOrder, HasSuccessAudit, IsSuccess, SessionsKept;
    SentStayAudited(s, s');
    assert KeepsAlone(s, r);
    forall q | q in s'.requests
      ensures KeepsAlone(s', q) && InOrder(s', s'.requests[q])
    {
      assert KeepsAlone(s, q);
      if q != r {
        InOrderIsKept(s, s', s.requests[q]);
      }
    }
    forall u | Unclaimed(s', u)
      ensures Kept(s', u)
    {
      assert Unclaimed(s, u);
      var q :| q in s.requests && KeeperOf(s.requests[q]) == Some(u);
      assert KeeperOf(s'.requests[q]) == Some(u);
    }
  }

  lemma SendKeepsCustody(s: State, r: nat, t: Digest)
    requires Custody(s) && r in s.requests && s.requests[r] == Audited(t)
    ensures Custody(Moved(s.(sent := s.sent + {t}), r, Done(SentSession(t))))
  {
    var s' := Moved(s.(sent := s.sent + {t}), r, Done(SentSession(t)));
    assert KeepsAlone(s, r) && InOrder(s, s.requests[r]);
    hide HasSuccessAudit, IsSuccess;
    forall q | q in s'.requests
      ensures KeepsAlone(s', q) && InOrder(s', s'.requests[q])
    {
      assert KeepsAlone(s, q) && InOrder(s, s.requests[q]);
    }
    forall u | Unclaimed(s', u)
      ensures Kept(s', u)
    {
      assert Unclaimed(s, u);
      var q :| q in s.requests && KeeperOf(s.requests[q]) == Some(u);
      assert KeeperOf(s'.requests[q]) == Some(u);
    }
  }

  lemma CustodyStep(s: State, e: Event)
    requires Custody(s) && Chained(s)
    ensures Custody(Next(s, e))
  {
    var s' := Next(s, e);
    hide Advance, Custody, InOrder, Chained;
    match e
    case Tick(_) => SameForCustody(s, s');
    case LoginRequested(_, _) => SameForCustody(s, s');
    case Begin(r, phase) =>
      if s' != s {
        PlainPhase(s', phase);
        MoveKeepsCustody(s, s', r, phase);
      }
    case BreakOff(r) =>
      if r in s.requests {
        BrokenInOrder(s, r);
        MoveKeepsCustody(s, s', r, Broken(s.requests[r]));
      }
    case Step(r, c) =>
      if r in s.requests && s' != s {
        AdvanceKeepsCustody(s, r, c);
      }
  }

  lemma SameForCustody(s: State, s': State)
    requires Custody(s) && s'.requests == s.requests && s'.sent == s.sent
    requires s'.store.sessions == s.store.sessions && s'.store.audits == s.store.audits
    ensures Custody(s')
  {
    forall r | r in s'.requests
      ensures KeepsAlone(s', r) && InOrder(s', s'.requests[r])
    {
      assert KeepsAlone(s, r) && InOrder(s, s.requests[r]);
    }
    forall t | Unclaimed(s', t)
      ensures Kept(s', t)
    {
      assert Unclaimed(s, t);
      var q :| q in s.requests && KeeperOf(s.requests[q]) == Some(t);
      assert KeeperOf(s'.requests[q]) == Some(t);
    }
  }

  lemma PlainPhase(s: State, p: Phase)
    requires p.Callback? || p.Present? || p == Done(Failed)
    ensures InOrder(s, p) && KeeperOf(p) == None
  {
  }

  lemma BrokenInOrder(s: State, r: nat)
    requires Custody(s) && r in s.requests
    ensures KeeperOf(Broken(s.requests[r])) == KeeperOf(s.requests[r])
    ensures InOrder(Moved(s, r, Broken(s.requests[r])), Broken(s.requests[r]))
  {
    assert InOrder(s, s.requests[r]);
  }

  lemma AdvanceKeepsCustody(s: State, r: nat, c: Choice)
    requires Custody(s) && Chained(s) && r in s.requests && Advance(s, r, s.requests[r], c) != s
    ensures Custody(Advance(s, r, s.requests[r], c))
  {
    hide Custody, Chained, InOrder, StepConsume, StepClaim, StepExchange, StepResolve, StartChain,
      StepAuthenticate, StepProve, ExtendChain, StepLogout, StepAudit, StepCompensate, StepAuditLogout;
    var p := s.requests[r];
    match p
    case Member(state, code, owner, now) =>
      StartChainKeepsCustody(s, r, CodeKey(s.providerId, code), state, NewFrom(owner, c, now, 1));
    case Proved(token, session, ToRotate, now) =>
      ExtendChainKeepsCustody(s, r, NewFrom(session.owner, c, now, session.generation + 1));
    case Proved(token, session, ToLogout, now) => LogoutKeepsCustody(s, r);
    case Compensating(token, now) => CompensationKeepsCustody(s, r, c);
    case Audited(token) => SendKeepsCustody(s, r, token);
    case _ =>
      hide Advance;
      OthersLeaveSessions(s, r, c);
      MoveKeepsCustody(s, Advance(s, r, p, c), r, Advance(s, r, p, c).requests[r]);
  }

  lemma StartChainKeepsCustody(s: State, r: nat, key: CodeKey, state: Digest, n: NewSession)
    requires Custody(s) && r in s.requests && s.requests[r].Member?
    ensures Custody(StartChain(s, r, key, state, n))
  {
    hide Custody, Start, HasSuccessAudit, IdUnused;
    var s' := StartChain(s, r, key, state, n);
    if s' != s {
      if SessionFault(s.store, n).Some? {
        PlainPhase(s', Done(Failed));
        MoveKeepsCustody(s, s', r, Done(Failed));
      } else {
        CreateKeepsCustody(s, s', r, s'.requests[r], n.token);
      }
    }
  }

  lemma ExtendChainKeepsCustody(s: State, r: nat, n: NewSession)
    requires Custody(s) && r in s.requests && s.requests[r].Proved?
    ensures Custody(ExtendChain(s, r, s.requests[r].token, n))
  {
    hide Custody, Extend, HasSuccessAudit, IdUnused, SameIds, Cloned, Rendered, KeepsAlone;
    var p := s.requests[r];
    CustodyOf(s, r);
    ProvedWasSent(s, p);
    var s' := ExtendChain(s, r, p.token, n);
    if s' != s {
      if RotationOutcome(s.store, p.token, n) != Rotated {
        PlainPhase(s', Done(Failed));
        MoveKeepsCustody(s, s', r, Done(Failed));
      } else {
        CreateKeepsCustody(s, s', r, s'.requests[r], n.token);
      }
    }
  }

  /** Revoking an unrevoked session leaves a dead end. */
  lemma RevocationEnds(s: State, t: Digest, at: int)
    requires Chained(s) && Revocable(s.store, t)
    ensures Ended(Revoked(s.store, t, at).sessions, t)
  {
    UnrevokedIsLast(s.ledger, s.store.sessions, t);
  }

  lemma LogoutKeepsCustody(s: State, r: nat)
    requires Custody(s) && Chained(s) && r in s.requests && s.requests[r].Proved?
    ensures var p := s.requests[r]; Custody(StepLogout(s, r, p.token, p.session, p.now))
  {
    hide Custody, Chained, HasSuccessAudit;
    var p := s.requests[r];
    if Revocable(s.store, p.token) {
      hide StepLogout;
      RevokingLogout(s, r);
    } else {
      var s' := StepLogout(s, r, p.token, p.session, p.now);
      PlainPhase(s', Done(Failed));
      MoveKeepsCustody(s, s', r, Done(Failed));
    }
  }

  lemma RevokingLogout(s: State, r: nat)
    requires Custody(s) && Chained(s) && r in s.requests && s.requests[r].Proved?
    requires Revocable(s.store, s.requests[r].token)
    ensures var p := s.requests[r]; Custody(StepLogout(s, r, p.token, p.session, p.now))
  {
    hide Custody, Chained, Ended, HasSuccessAudit, KeepsAlone, AuditsKept, InOrder;
    var p := s.requests[r];
    CustodyOf(s, r);
    ProvedWasSent(s, p);
    var s' := StepLogout(s, r, p.token, p.session, p.now);
    RevocationEnds(s, p.token, p.now);
    EndedInOrder(s', LogoutRevoked(p.token, p.session));
    RevokeKeepsCustody(s, s', r, LogoutRevoked(p.token, p.session), p.token);
  }

  lemma CompensationKeepsCustody(s: State, r: nat, c: Choice)
    requires Custody(s) && Chained(s) && r in s.requests && s.requests[r].Compensating?
    ensures var p := s.requests[r]; Custody(StepCompensate(s, r, p.token, p.now, c))
  {
    hide Custody, Chained, Ended, HasSuccessAudit, InOrder, KeepsAlone, AuditsKept;
    var p := s.requests[r];
    CustodyOf(s, r);
    UnderCompensation(s, r);
    var s' := StepCompensate(s, r, p.token, p.now, c);
    if c.ok {
      RevocationEnds(s, p.token, p.now);
      EndedInOrder(s', Done(AuditFailed(p.token)));
      RevokeKeepsCustody(s, s', r, Done(AuditFailed(p.token)), p.token);
    } else {
      NothingAudited(s, s');
      UncompensatedInOrder(s', p.token);
      MoveKeepsCustody(s, s', r, Done(Uncompensated(p.token)));
    }
  }

  lemma CustodyOf(s: State, r: nat)
    requires Custody(s) && r in s.requests
    ensures KeepsAlone(s, r) && InOrder(s, s.requests[r])
  {
  }

  lemma UnderCompensation(s: State, r: nat)
    requires r in s.requests && s.requests[r].Compensating? && KeepsAlone(s, r)
    ensures Revocable(s.store, s.requests[r].token)
  {
  }

  lemma ProvedWasSent(s: State, p: Phase)
    requires p.Proved? && InOrder(s, p)
    ensures p.token in s.sent
  {
  }

  lemma NothingAudited(s: State, s': State)
    requires s'.store.audits == s.store.audits
    ensures AuditsKept(s, s')
  {
  }

  lemma EndedInOrder(s: State, p: Phase)
    requires EndedBy(p).Some? && Ended(s.store.sessions, EndedBy(p).value)
    ensures InOrder(s, p)
  {
  }

  lemma UncompensatedInOrder(s: State, t: Digest)
    ensures InOrder(s, Done(Uncompensated(t)))
  {
  }

  /** Request `r` moves on, creating, revoking and sending nothing, and answers for what it did. */
  ghost predicate LeavesSessions(s: State, s': State, r: nat) {
    && s'.store.sessions == s.store.sessions && s'.sent == s.sent && AuditsKept(s, s')
    && r in s'.requests && s'.requests == s.requests[r := s'.requests[r]]
    && KeeperOf(s'.requests[r]) == (if r in s.requests then KeeperOf(s.requests[r]) else None)
    && InOrder(s', s'.requests[r])
  }

  /** The remaining steps create and revoke nothing, and send nothing. */
  lemma OthersLeaveSessions(s: State, r: nat, c: Choice)
    requires Custody(s) && r in s.requests && Advance(s, r, s.requests[r], c) != s
    requires var p := s.requests[r]; !p.Member? && !p.Proved? && !p.Compensating? && !p.Audited?
    ensures LeavesSessions(s, Advance(s, r, s.requests[r], c), r)
  {
    hide Custody, LeavesSessions, StepConsume, StepClaim, StepExchange, StepResolve, StartChain,
      StepAuthenticate, StepProve, ExtendChain, StepLogout, StepAudit, StepCompensate, StepAuditLogout;
    match s.requests[r]
    case Callback(state, browserBinding, code) => ConsumeLeavesSessions(s, r, state, browserBinding, code);
    case Consumed(state, code, now) => ClaimLeavesSessions(s, r, state, code, now, c);
    case Claimed(state, code, now) => ExchangeLeavesSessions(s, r, state, code, now, c);
    case Identified(state, code, identity, now) => ResolveLeavesSessions(s, r, state, code, identity, now, c);
    case Present(token, purpose) => AuthenticateLeavesSessions(s, r, token, purpose, c);
    case Authenticated(token, session, purpose, now) => ProveLeavesSessions(s, r, c);
    case Issued(token, audit, now) => AuditLeavesSessions(s, r, c);
    case LogoutRevoked(token, session) => AuditLogoutLeavesSessions(s, r, c);
    case Done(_) =>
  }

  lemma ConsumeLeavesSessions(s: State, r: nat, state: Digest, browserBinding: Digest, code: Digest)
    requires r in s.requests && KeeperOf(s.requests[r]) == None
    ensures LeavesSessions(s, StepConsume(s, r, state, browserBinding, code), r)
  {
    hide Consumable;
  }

  lemma ClaimLeavesSessions(s: State, r: nat, state: Digest, code: Digest, now: int, c: Choice)
    requires r in s.requests && KeeperOf(s.requests[r]) == None
    ensures LeavesSessions(s, StepClaim(s, r, state, code, now, c), r)
  {
  }

  lemma ExchangeLeavesSessions(s: State, r: nat, state: Digest, code: Digest, now: int, c: Choice)
    requires r in s.requests && KeeperOf(s.requests[r]) == None
    ensures LeavesSessions(s, StepExchange(s, r, state, code, now, c), r)
  {
  }

  lemma ResolveLeavesSessions(s: State, r: nat, state: Digest, code: Digest, identity: Identity, now: int, c: Choice)
    requires r in s.requests && KeeperOf(s.requests[r]) == None
    ensures LeavesSessions(s, StepResolve(s, r, state, code, identity, now, c), r)
  {
    hide MembershipOf;
  }

  lemma AuthenticateLeavesSessions(s: State, r: nat, token: Digest, purpose: Purpose, c: Choice)
    requires r in s.requests && KeeperOf(s.requests[r]) == None && StepAuthenticate(s, r, token, purpose, c) != s
    ensures LeavesSessions(s, StepAuthenticate(s, r, token, purpose, c), r)
  {
  }

  lemma ProveLeavesSessions(s: State, r: nat, c: Choice)
    requires r in s.requests && s.requests[r].Authenticated? && Custody(s)
    ensures var p := s.requests[r]; LeavesSessions(s, StepProve(s, r, p.token, p.session, p.purpose, p.now, c), r)
  {
    var p := s.requests[r];
    assert InOrder(s, p);
    hide Custody, HasSuccessAudit;
    AuditsGrow(s.store.audits, AuditOf(p.session, SessionDenied));
  }

  lemma AuditLeavesSessions(s: State, r: nat, c: Choice)
    requires r in s.requests && s.requests[r].Issued? && Custody(s)
    ensures var p := s.requests[r]; LeavesSessions(s, StepAudit(s, r, p.token, p.audit, p.now, c), r)
  {
    var p := s.requests[r];
    assert InOrder(s, p);
    hide Custody, HasSuccessAudit;
    AuditsGrow(s.store.audits, p.audit);
  }

  lemma AuditLogoutLeavesSessions(s: State, r: nat, c: Choice)
    requires r in s.requests && s.requests[r].LogoutRevoked? && Custody(s)
    ensures var p := s.requests[r]; LeavesSessions(s, StepAuditLogout(s, r, p.token, p.session, c), r)
  {
    var p := s.requests[r];
    assert InOrder(s, p);
    hide Custody, HasSuccessAudit;
    AuditsGrow(s.store.audits, AuditOf(p.session, LogoutSucceeded));
  }

  // ---- chains -----------------------------------------------------------------------------------------------------

  ghost predicate Chained(s: State) {
    ChainInv(s.ledger, s.store.sessions)
  }

  lemma ChainedStep(s: State, e: Event)
    requires Chained(s) && Custody(s)
    ensures Chained(Next(s, e))
  {
    if e.Step? && e.r in s.requests {
      AdvanceKeepsChains(s, e.r, e.choice);
    }
  }

  lemma AdvanceKeepsChains(s: State, r: nat, c: Choice)
    requires Chained(s) && Custody(s) && r in s.requests
    ensures Chained(Advance(s, r, s.requests[r], c))
  {
    hide ChainInv, Custody, StepConsume, StepClaim, StepExchange, StepResolve, StartChain, StepAuthenticate, StepProve,
      ExtendChain, StepLogout, StepAudit, StepCompensate, StepAuditLogout;
    match s.requests[r]
    case Member(state, code, owner, now) =>
      StartChainKeepsChains(s, r, CodeKey(s.providerId, code), state, NewFrom(owner, c, now, 1));
    case Proved(token, session, ToRotate, now) =>
      ExtendChainKeepsChains(s, r, token, NewFrom(session.owner, c, now, session.generation + 1));
    case Proved(token, session, ToLogout, now) => LogoutKeepsChains(s, r, token, session, now);
    case Compensating(token, now) => CompensationKeepsChains(s, r, token, now, c);
    case _ =>
      hide Advance;
      OtherPhasesKeepSessions(s, r, c);
  }

  lemma StartChainKeepsChains(s: State, r: nat, key: CodeKey, state: Digest, n: NewSession)
    requires Chained(s) && n.generation == 1
    ensures Chained(StartChain(s, r, key, state, n))
  {
    hide ChainInv, Start, Stored;
    if IdUnused(s, n.id) && IsLower(n.id) && SessionFault(s.store, n) == None {
      StartKeepsChains(s.ledger, s.store.sessions, n);
    }
  }

  lemma ExtendChainKeepsChains(s: State, r: nat, token: Digest, n: NewSession)
    requires Chained(s)
    ensures Chained(ExtendChain(s, r, token, n))
  {
    hide ChainInv, Extend, Stored;
    if IdUnused(s, n.id) && IsLower(n.id) && RotationOutcome(s.store, token, n) == Rotated {
      ExtendKeepsChains(s.ledger, s.store.sessions, token, n);
    }
  }

  lemma LogoutKeepsChains(s: State, r: nat, token: Digest, session: Session, now: int)
    requires Chained(s)
    ensures Chained(StepLogout(s, r, token, session, now))
  {
    hide ChainInv;
    if Revocable(s.store, token) {
      RevokeKeepsChains(s.ledger, s.store.sessions, token, now);
    }
  }

  lemma CompensationKeepsChains(s: State, r: nat, token: Digest, now: int, c: Choice)
    requires Chained(s)
    ensures Chained(StepCompensate(s, r, token, now, c))
  {
    hide ChainInv;
    if Revocable(s.store, token) {
      RevokeKeepsChains(s.ledger, s.store.sessions, token, now);
    }
  }

  predicate ChangesSessions(p: Phase) {
    p.Member? || p.Proved? || p.Compensating?
  }

  lemma OtherPhasesKeepSessions(s: State, r: nat, c: Choice)
    requires r in s.requests && !ChangesSessions(s.requests[r])
    ensures Advance(s, r, s.requests[r], c).store.sessions == s.store.sessions
    ensures Advance(s, r, s.requests[r], c).clock == s.clock && Advance(s, r, s.requests[r], c).ledger == s.ledger
  {
    hide Advance;
    if OpensSession(s.requests[r]) {
      OpeningKeepsSessions(s, r, c);
    } else {
      AuditingKeepsSessions(s, r, c);
    }
  }

  /** The phases of a callback before it has a member to create a session for. */
  predicate OpensSession(p: Phase) {
    p.Callback? || p.Consumed? || p.Claimed? || p.Identified?
  }

  lemma OpeningKeepsSessions(s: State, r: nat, c: Choice)
    requires r in s.requests && OpensSession(s.requests[r])
    ensures Advance(s, r, s.requests[r], c).store.sessions == s.store.sessions
    ensures Advance(s, r, s.requests[r], c).clock == s.clock && Advance(s, r, s.requests[r], c).ledger == s.ledger
  {
    hide Consumable, MembershipOf, StartChain, StepAuthenticate, StepProve, ExtendChain, StepLogout, StepAudit,
      StepCompensate, StepAuditLogout;
  }

  lemma AuditingKeepsSessions(s: State, r: nat, c: Choice)
    requires r in s.requests && !OpensSession(s.requests[r]) && !ChangesSessions(s.requests[r])
    ensures Advance(s, r, s.requests[r], c).store.sessions == s.store.sessions
    ensures Advance(s, r, s.requests[r], c).clock == s.clock && Advance(s, r, s.requests[r], c).ledger == s.ledger
  {
    hide Authenticates, StepConsume, StepClaim, StepExchange, StepResolve, StartChain, ExtendChain, StepLogout,
      StepCompensate;
  }
}
