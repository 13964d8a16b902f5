/**
  Requests of the human-session handlers, interleaved at every await. Each step
  is one repository call (taken to be atomic), one answer of the provider, or the
  sending of a response; any request may also break off between two steps.
*/
module HumanSessionProtocol {
  import opened Wrappers
  import opened Identifiers
  import opened HumanSessionRepository
  import opened HumanSessionChains

  datatype Purpose = ToRotate | ToLogout

  datatype Outcome =
    | Failed
    | SentSession(token: Digest)
    | AuditFailed(token: Digest)       // the audit failed and the session was revoked again
    | Uncompensated(token: Digest)     // the audit failed and so did the revocation
    | Abandoned(token: Digest)         // broken off with a session created and not sent
    | LoggedOut(token: Digest)
    | LogoutUnaudited(token: Digest)

  /** Where a request stands: what it is about to do. */
  datatype Phase =
    | Callback(state: Digest, browserBinding: Digest, code: Digest)
    | Consumed(state: Digest, code: Digest, now: int)
    | Claimed(state: Digest, code: Digest, now: int)
    | Identified(state: Digest, code: Digest, identity: Identity, now: int)
    | Member(state: Digest, code: Digest, owner: Owner, now: int)
    | Present(token: Digest, purpose: Purpose)
    | Authenticated(token: Digest, session: Session, purpose: Purpose, now: int)
    | Proved(token: Digest, session: Session, purpose: Purpose, now: int)
    | Issued(token: Digest, audit: Audit, now: int)
    | Audited(token: Digest)
    | Compensating(token: Digest, now: int)
    | LogoutRevoked(token: Digest, session: Session)
    | Done(outcome: Outcome)

  /** What is left open at a step: whether it goes well, and the random values drawn. */
  datatype Choice = Choice(
    ok: bool, issuer: Digest, subject: Digest, token: Digest, id: Uuid, csrf: Digest, expiresAt: int)

  datatype Event =
    | Tick(clock: int)
    | LoginRequested(state: Digest, login: Login)
    | Begin(r: nat, phase: Phase)
    | Step(r: nat, choice: Choice)
    | BreakOff(r: nat)

  /**
    The store, the clock, the requests and the tokens sent so far; then, as
    history: the ledger of rotation chains, the state and code that started each
    chain, and the state under which each code was claimed.
  */
  datatype State = State(
    providerId: string, clock: int, store: Store, requests: map<nat, Phase>, sent: set<Digest>,
    ledger: Ledger, origins: seq<(Digest, CodeKey)>, claimedBy: map<CodeKey, Digest>)

  function Init(providerId: string, clock: int, memberships: map<Identity, seq<Owner>>): State {
    State(providerId, clock, Store(map[], map[], memberships, map[], []), map[], {}, NoChains, [], map[])
  }

  /** A token can be presented only once it has been sent; anything else presented is not a token of the store. */
  predicate Presentable(s: State, token: Digest) {
    token in s.store.sessions ==> token in s.sent
  }

  function Moved(s: State, r: nat, phase: Phase): State {
    s.(requests := s.requests[r := phase])
  }

  function AuditOf(session: Session, event: AuditEvent): Audit {
    Audit(session.owner.tenantId, session.owner.principalId, session.id, event)
  }

  function NewFrom(owner: Owner, c: Choice, now: int, generation: nat): NewSession {
    NewSession(c.token, c.id, AsGiven(owner), c.csrf, now, c.expiresAt, generation)
  }

  function Next(s: State, e: Event): State {
    match e
    case Tick(clock) => if s.clock <= clock then s.(clock := clock) else s
    case LoginRequested(state, login) =>
      if state in s.store.logins then s
      else s.(store := s.store.(logins := s.store.logins[state := login.(consumedAt := None)]))
    case Begin(r, phase) =>
      if r !in s.requests && (phase.Callback? || phase.Present?) then Moved(s, r, phase) else s
    case Step(r, c) => if r in s.requests then Advance(s, r, s.requests[r], c) else s
    case BreakOff(r) => if r in s.requests then Moved(s, r, Broken(s.requests[r])) else s
  }

  function Broken(p: Phase): Phase {
    match p
    case Issued(token, _, _) => Done(Abandoned(token))
    case Audited(token) => Done(Abandoned(token))
    case Compensating(token, _) => Done(Abandoned(token))
    case LogoutRevoked(token, _) => Done(LogoutUnaudited(token))
    case Done(_) => p
    case _ => Done(Failed)
  }

  /** The next step of request `r`, which stands at `p`. */
  function Advance(s: State, r: nat, p: Phase, c: Choice): State {
    match p
    case Callback(state, browserBinding, code) => StepConsume(s, r, state, browserBinding, code)
    case Consumed(state, code, now) => StepClaim(s, r, state, code, now, c)
    case Claimed(state, code, now) => StepExchange(s, r, state, code, now, c)
    case Identified(state, code, identity, now) => StepResolve(s, r, state, code, identity, now, c)
    case Member(state, code, owner, now) =>
      StartChain(s, r, CodeKey(s.providerId, code), state, NewFrom(owner, c, now, 1))
    case Present(token, purpose) => StepAuthenticate(s, r, token, purpose, c)
    case Authenticated(token, session, purpose, now) => StepProve(s, r, token, session, purpose, now, c)
    case Proved(token, session, ToRotate, now) =>
      ExtendChain(s, r, token, NewFrom(session.owner, c, now, session.generation + 1))
    case Proved(token, session, ToLogout, now) => StepLogout(s, r, token, session, now)
    case Issued(token, audit, now) => StepAudit(s, r, token, audit, now, c)
    case Audited(token) => Moved(s.(sent := s.sent + {token}), r, Done(SentSession(token)))
    case Compensating(token, now) => StepCompensate(s, r, token, now, c)
    case LogoutRevoked(token, session) => StepAuditLogout(s, r, token, session, c)
    case Done(_) => s
  }

  function StepConsume(s: State, r: nat, state: Digest, browserBinding: Digest, code: Digest): State {
    if Consumable(s.store, state, browserBinding, s.providerId, s.clock) then
      Moved(s.(store := ConsumeLogin(s.store, state, s.clock)), r, Consumed(state, code, s.clock))
    else Moved(s, r, Done(Failed))
  }

  function StepClaim(s: State, r: nat, state: Digest, code: Digest, now: int, c: Choice): State {
    var key := CodeKey(s.providerId, code);
    if c.ok && key !in s.store.codes then
      Moved(s.(store := s.store.(codes := s.store.codes[key := c.expiresAt]), claimedBy := s.claimedBy[key := state]),
            r, Claimed(state, code, now))
    else Moved(s, r, Done(Failed))
  }

  function StepExchange(s: State, r: nat, state: Digest, code: Digest, now: int, c: Choice): State {
    if c.ok then Moved(s, r, Identified(state, code, Identity(s.providerId, c.issuer, c.subject), now))
    else Moved(s, r, Done(Failed))
  }

  function StepResolve(s: State, r: nat, state: Digest, code: Digest, identity: Identity, now: int, c: Choice): State {
    var owner := MembershipOf(s.store, identity);
    if c.ok && owner.Some? then Moved(s, r, Member(state, code, owner.value, now)) else Moved(s, r, Done(Failed))
  }

  function StepAuthenticate(s: State, r: nat, token: Digest, purpose: Purpose, c: Choice): State {
    if !Presentable(s, token) then s
    else if c.ok && Authenticates(s.store, token, s.clock) then
      Moved(s, r, Authenticated(token, s.store.sessions[token], purpose, s.clock))
    else Moved(s, r, Done(Failed))
  }

  function StepProve(s: State, r: nat, token: Digest, session: Session, purpose: Purpose, now: int, c: Choice): State {
    if c.ok then Moved(s, r, Proved(token, session, purpose, now))
    else Moved(WithAudit(s, AuditOf(session, SessionDenied)), r, Done(Failed))
  }

  function StepLogout(s: State, r: nat, token: Digest, session: Session, now: int): State {
    if Revocable(s.store, token) then Moved(s.(store := Revoked(s.store, token, now)), r, LogoutRevoked(token, session))
    else Moved(s, r, Done(Failed))
  }

  function StepAudit(s: State, r: nat, token: Digest, audit: Audit, now: int, c: Choice): State {
    if c.ok then Moved(WithAudit(s, audit), r, Audited(token)) else Moved(s, r, Compensating(token, now))
  }

  function StepCompensate(s: State, r: nat, token: Digest, now: int, c: Choice): State {
    if !c.ok then Moved(s, r, Done(Uncompensated(token)))
    else if Revocable(s.store, token) then Moved(s.(store := Revoked(s.store, token, now)), r, Done(AuditFailed(token)))
    else Moved(s, r, Done(AuditFailed(token)))
  }

  function StepAuditLogout(s: State, r: nat, token: Digest, session: Session, c: Choice): State {
    if c.ok then Moved(WithAudit(s, AuditOf(session, LogoutSucceeded)), r, Done(LoggedOut(token)))
    else Moved(s, r, Done(LogoutUnaudited(token)))
  }

  function WithAudit(s: State, audit: Audit): State {
    s.(store := s.store.(audits := s.store.audits + [audit]))
  }

  predicate IdUnused(s: State, id: string) {
    forall t :: t in s.store.sessions ==> s.store.sessions[t].id != id
  }

  /** The callback creates its session; ids are drawn fresh. */
  function StartChain(s: State, r: nat, key: CodeKey, state: Digest, n: NewSession): State {
    if !IdUnused(s, n.id) || !IsLower(n.id) then s
    else if SessionFault(s.store, n).Some? then Moved(s, r, Done(Failed))
    else
      Moved(
        s.(store := Created(s.store, n), ledger := Start(s.ledger, n.token), origins := s.origins + [(state, key)]),
        r, Issued(n.token, AuditOf(Stored(n), LoginSucceeded), n.issuedAt))
  }

  /** A rotation that goes through appends the new session to the chain of the old one. */
  function ExtendChain(s: State, r: nat, current: Digest, n: NewSession): State {
    if !IdUnused(s, n.id) || !IsLower(n.id) then s
    else if RotationOutcome(s.store, current, n) != Rotated then Moved(s, r, Done(Failed))
    else
      Moved(
        s.(store := AfterRotation(s.store, current, n), ledger := Extend(s.ledger, current, n.token)),
        r, Issued(n.token, AuditOf(Stored(n), SessionRotated), n.issuedAt))
  }

  function Run(s: State, events: seq<Event>): State {
    if events == [] then s else Next(Run(s, events[..|events| - 1]), events[|events| - 1])
  }
}
