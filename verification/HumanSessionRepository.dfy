/** The in-memory store of human sign-in: login transactions, codes, memberships, sessions and audits. */
module HumanSessionRepository {
  import opened Wrappers
  import opened Identifiers

  type Digest = string

  const HUMAN_ROLES: set<string> := {
    "platform_admin", "tenant_admin", "document_manager", "researcher", "procedure_author", "procedure_reviewer",
    "procedure_approver", "case_operator", "viewer"}

  /** A membership as it is stored: ids in lower case, each role once. */
  datatype Owner = Owner(subjectId: Uuid, tenantId: Uuid, principalId: Uuid, roles: seq<string>)

  /** A membership as a caller gives it. */
  datatype RawOwner = RawOwner(subjectId: string, tenantId: string, principalId: string, roles: seq<string>)

  function Cloned(raw: RawOwner): Owner {
    Owner(Rendered(raw.subjectId), Rendered(raw.tenantId), Rendered(raw.principalId), Unique(raw.roles))
  }

  function AsGiven(owner: Owner): RawOwner {
    RawOwner(owner.subjectId, owner.tenantId, owner.principalId, owner.roles)
  }

  datatype Login = Login(
    transactionId: string, browserBinding: Digest, providerId: string, challenge: string, returnPath: string,
    expiresAt: int, consumedAt: Option<int>)

  datatype CodeKey = CodeKey(providerId: string, code: Digest)

  datatype Identity = Identity(providerId: string, issuer: Digest, subject: Digest)

  datatype Session = Session(
    id: Uuid, owner: Owner, csrf: Digest, issuedAt: int, expiresAt: int, generation: nat,
    revokedAt: Option<int>, replacedBy: Option<string>)

  /** What the creator of a session supplies. */
  datatype NewSession = NewSession(
    token: Digest, id: string, owner: RawOwner, csrf: Digest, issuedAt: int, expiresAt: int, generation: nat)

  datatype AuditEvent = LoginSucceeded | SessionRotated | LogoutSucceeded | SessionDenied

  datatype Audit = Audit(tenantId: string, principalId: string, sessionId: string, event: AuditEvent)

  datatype Store = Store(
    logins: map<Digest, Login>, codes: map<CodeKey, int>, memberships: map<Identity, seq<Owner>>,
    sessions: map<Digest, Session>, audits: seq<Audit>)

  /** What the source throws. */
  datatype StoreError = InvalidDigest | InvalidProvider | InvalidMembership | Duplicate

  datatype Rotation = Rotated | Refused | Thrown(error: StoreError)

  function MembershipFault(identity: Identity, raw: RawOwner): Option<StoreError> {
    var owner := Cloned(raw);
    if !IsProviderId(identity.providerId) then Some(InvalidProvider)
    else if !IsDigest(identity.issuer) || !IsDigest(identity.subject) then Some(InvalidDigest)
    else if CanonicalUuid(owner.subjectId) && CanonicalUuid(owner.tenantId) && CanonicalUuid(owner.principalId)
            && owner.roles != [] && (forall i :: 0 <= i < |owner.roles| ==> owner.roles[i] in HUMAN_ROLES) then None
    else Some(InvalidMembership)
  }

  function WithMembership(memberships: map<Identity, seq<Owner>>, identity: Identity, raw: RawOwner)
    : map<Identity, seq<Owner>>
  {
    memberships[identity := (if identity in memberships then memberships[identity] else []) + [Cloned(raw)]]
  }

  function Seeded(seeds: seq<(Identity, RawOwner)>): map<Identity, seq<Owner>> {
    if seeds == [] then map[]
    else
      var last := seeds[|seeds| - 1];
      WithMembership(Seeded(seeds[..|seeds| - 1]), last.0, last.1)
  }

  function LoginFault(store: Store, state: Digest, login: Login): Option<StoreError> {
    if !IsDigest(state) || !IsDigest(login.browserBinding) then Some(InvalidDigest)
    else if !IsProviderId(login.providerId) then Some(InvalidProvider)
    else if state in store.logins then Some(Duplicate)
    else None
  }

  function CodeFault(key: CodeKey): Option<StoreError> {
    if !IsProviderId(key.providerId) then Some(InvalidProvider)
    else if !IsDigest(key.code) then Some(InvalidDigest)
    else None
  }

  function SessionFault(store: Store, n: NewSession): Option<StoreError> {
    if !IsDigest(n.token) || !IsDigest(n.csrf) then Some(InvalidDigest)
    else if n.token in store.sessions then Some(Duplicate)
    else None
  }

  function Stored(n: NewSession): Session {
    Session(Rendered(n.id), Cloned(n.owner), n.csrf, n.issuedAt, n.expiresAt, n.generation, None, None)
  }

  predicate Consumable(store: Store, state: Digest, browserBinding: Digest, providerId: string, now: int) {
    && state in store.logins
    && var login := store.logins[state];
       login.browserBinding == browserBinding && login.providerId == providerId
       && login.consumedAt == None && now < login.expiresAt
  }

  function ConsumeLogin(store: Store, state: Digest, now: int): Store
    requires state in store.logins
  {
    store.(logins := store.logins[state := store.logins[state].(consumedAt := Some(now))])
  }

  predicate Live(session: Session, now: int) {
    session.revokedAt == None && now < session.expiresAt
  }

  predicate Authenticates(store: Store, token: Digest, now: int) {
    token in store.sessions && Live(store.sessions[token], now)
  }

  predicate SameOwner(a: Owner, b: Owner) {
    SameIds(a, AsGiven(b))
  }

  /** The ids as given are those stored, to the letter. */
  predicate SameIds(a: Owner, b: RawOwner) {
    a.subjectId == b.subjectId && a.tenantId == b.tenantId && a.principalId == b.principalId
  }

  function RotationOutcome(store: Store, current: Digest, n: NewSession): Rotation {
    if !Authenticates(store, current, n.issuedAt) then Refused
    else
      var session := store.sessions[current];
      if !SameIds(session.owner, n.owner) || n.generation != session.generation + 1 then Refused
      else if SessionFault(store, n).Some? then Thrown(SessionFault(store, n).value)
      else Rotated
  }

  /** What a rotation asks of the session it replaces: unrevoked, in time, of the same person, one generation older. */
  predicate Rotatable(sessions: map<Digest, Session>, current: Digest, n: NewSession) {
    && current in sessions
    && sessions[current].revokedAt == None && n.issuedAt < sessions[current].expiresAt
    && sessions[current].owner.tenantId == n.owner.tenantId
    && sessions[current].owner.principalId == n.owner.principalId
    && sessions[current].owner.subjectId == n.owner.subjectId
    && n.generation == sessions[current].generation + 1
  }

  function Created(store: Store, n: NewSession): Store {
    store.(sessions := store.sessions[n.token := Stored(n)])
  }

  /** The sessions once that of `current` has been replaced. */
  function Replacing(sessions: map<Digest, Session>, current: Digest, n: NewSession): map<Digest, Session>
    requires current in sessions
  {
    sessions[n.token := Stored(n)][current :=
      sessions[current].(revokedAt := Some(n.issuedAt), replacedBy := Some(n.id))]
  }

  function AfterRotation(store: Store, current: Digest, n: NewSession): Store
    requires current in store.sessions
  {
    store.(sessions := Replacing(store.sessions, current, n))
  }

  predicate Revocable(store: Store, token: Digest) {
    token in store.sessions && store.sessions[token].revokedAt == None
  }

  function Revoked(store: Store, token: Digest, at: int): Store
    requires token in store.sessions
  {
    store.(sessions := store.sessions[token := store.sessions[token].(revokedAt := Some(at))])
  }

  function MembershipOf(store: Store, identity: Identity): Option<Owner> {
    if identity in store.memberships && |store.memberships[identity]| == 1 then Some(store.memberships[identity][0])
    else None
  }

  class InMemoryHumanSessionRepository {
    var loginTransactions: map<Digest, Login>
    var authorizationCodes: map<CodeKey, int>
    var memberships: map<Identity, seq<Owner>>
    var sessions: map<Digest, Session>
    var audits: seq<Audit>

    ghost function State(): Store
      reads this
    {
      Store(loginTransactions, authorizationCodes, memberships, sessions, audits)
    }

    /** A seed the source would refuse keeps the store from being made. */
    constructor (seeds: seq<(Identity, RawOwner)>)
      requires forall i :: 0 <= i < |seeds| ==> MembershipFault(seeds[i].0, seeds[i].1) == None
      ensures State() == Store(map[], map[], Seeded(seeds), map[], [])
    {
      loginTransactions, authorizationCodes, memberships, sessions, audits := map[], map[], map[], map[], [];
      new;
      for n := 0 to |seeds|
        invariant State() == Store(map[], map[], Seeded(seeds[..n]), map[], [])
      {
        assert seeds[..n + 1][..n] == seeds[..n];
        var fault := AddMembership(seeds[n].0, seeds[n].1);
      }
      assert seeds[..|seeds|] == seeds;
    }

    method AddMembership(identity: Identity, raw: RawOwner) returns (fault: Option<StoreError>)
      modifies this
      ensures fault == MembershipFault(identity, raw)
      ensures State() == if fault.Some? then old(State())
                         else old(State()).(memberships := WithMembership(old(memberships), identity, raw))
      ensures fault == None ==>
        var earlier := if identity in old(memberships) then old(memberships)[identity] else [];
        memberships == old(memberships)[identity := earlier + [
          Owner(Rendered(raw.subjectId), Rendered(raw.tenantId), Rendered(raw.principalId), Unique(raw.roles))]]
    {
      if !IsProviderId(identity.providerId) {
        return Some(InvalidProvider);
      }
      if !IsDigest(identity.issuer) || !IsDigest(identity.subject) {
        return Some(InvalidDigest);
      }
      var record := Cloned(raw);
      if !CanonicalUuid(record.subjectId) || !CanonicalUuid(record.tenantId) || !CanonicalUuid(record.principalId)
         || record.roles == [] || exists i :: 0 <= i < |record.roles| && record.roles[i] !in HUMAN_ROLES {
        return Some(InvalidMembership);
      }
      var records := if identity in memberships then memberships[identity] else [];
      memberships := memberships[identity := records + [record]];
      fault := None;
    }

    /** The transaction id drawn for the login is returned. */
    method CreateLoginTransaction(state: Digest, login: Login) returns (r: Result<string, StoreError>)
      modifies this
      ensures var fault := LoginFault(old(State()), state, login);
        r == if fault.Some? then Err(fault.value) else Ok(login.transactionId)
      ensures State() ==
        if r.Ok? then old(State()).(logins := old(loginTransactions)[state := login.(consumedAt := None)])
        else old(State())
      ensures r.Ok? <==> IsDigest(state) && IsDigest(login.browserBinding) && IsProviderId(login.providerId)
                         && state !in old(loginTransactions)
    {
      if !IsDigest(state) || !IsDigest(login.browserBinding) {
        return Err(InvalidDigest);
      }
      if !IsProviderId(login.providerId) {
        return Err(InvalidProvider);
      }
      if state in loginTransactions {
        return Err(Duplicate);
      }
      loginTransactions := loginTransactions[state := login.(consumedAt := None)];
      r := Ok(login.transactionId);
    }

    method ConsumeLoginTransaction(state: Digest, browserBinding: Digest, providerId: string, now: int)
      returns (r: Option<Login>)
      modifies this
      ensures r.Some? <==> Consumable(old(State()), state, browserBinding, providerId, now)
      ensures r.Some? <==>
        && state in old(loginTransactions)
        && old(loginTransactions)[state].browserBinding == browserBinding
        && old(loginTransactions)[state].providerId == providerId
        && old(loginTransactions)[state].consumedAt == None
        && now < old(loginTransactions)[state].expiresAt
      ensures r.Some? ==> r.value == old(loginTransactions)[state] && State() == ConsumeLogin(old(State()), state, now)
      ensures r.Some? ==>
        loginTransactions == old(loginTransactions)[state := r.value.(consumedAt := Some(now))]
      ensures r.None? ==> State() == old(State())
    {
      if state !in loginTransactions {
        return None;
      }
      var record := loginTransactions[state];
      if record.browserBinding != browserBinding || record.providerId != providerId
         || record.consumedAt.Some? || record.expiresAt <= now {
        return None;
      }
      loginTransactions := loginTransactions[state := record.(consumedAt := Some(now))];
      r := Some(record);
    }

    method ClaimAuthorizationCode(key: CodeKey, expiresAt: int) returns (r: Result<bool, StoreError>)
      modifies this
      ensures r == if CodeFault(key).Some? then Err(CodeFault(key).value) else Ok(key !in old(authorizationCodes))
      ensures r.Err? <==> !IsProviderId(key.providerId) || !IsDigest(key.code)
      ensures State() == if r == Ok(true) then old(State()).(codes := old(authorizationCodes)[key := expiresAt])
                         else old(State())
    {
      if !IsProviderId(key.providerId) {
        return Err(InvalidProvider);
      }
      if !IsDigest(key.code) {
        return Err(InvalidDigest);
      }
      if key in authorizationCodes {
        return Ok(false);
      }
      authorizationCodes := authorizationCodes[key := expiresAt];
      r := Ok(true);
    }

    method ResolveHumanMembership(identity: Identity) returns (r: Option<Owner>)
      ensures r == MembershipOf(State(), identity)
      ensures r.Some? <==> identity in memberships && |memberships[identity]| == 1
      ensures r.Some? ==> memberships[identity] == [r.value]
    {
      if identity !in memberships || |memberships[identity]| != 1 {
        return None;
      }
      r := Some(memberships[identity][0]);
    }

    method CreateSession(n: NewSession) returns (fault: Option<StoreError>)
      modifies this
      ensures fault == SessionFault(old(State()), n)
      ensures State() == if fault.Some? then old(State()) else Created(old(State()), n)
      ensures fault == None ==>
        sessions == old(sessions)[n.token := Session(
          Rendered(n.id),
          Owner(Rendered(n.owner.subjectId), Rendered(n.owner.tenantId), Rendered(n.owner.principalId),
                Unique(n.owner.roles)),
          n.csrf, n.issuedAt, n.expiresAt, n.generation, None, None)]
    {
      if !IsDigest(n.token) || !IsDigest(n.csrf) {
        return Some(InvalidDigest);
      }
      if n.token in sessions {
        return Some(Duplicate);
      }
      sessions := sessions[n.token := Stored(n)];
      fault := None;
    }

    method AuthenticateSession(token: Digest, now: int) returns (r: Option<Session>)
      ensures r.Some? <==> Authenticates(State(), token, now)
      ensures r.Some? <==>
        token in sessions && sessions[token].revokedAt == None && now < sessions[token].expiresAt
      ensures r.Some? ==> r.value == sessions[token]
    {
      if token !in sessions || sessions[token].revokedAt.Some? || sessions[token].expiresAt <= now {
        return None;
      }
      r := Some(sessions[token]);
    }

    method RotateSession(current: Digest, n: NewSession) returns (r: Rotation)
      modifies this
      ensures r == RotationOutcome(old(State()), current, n)
      ensures State() == if r == Rotated then AfterRotation(old(State()), current, n) else old(State())
      ensures r == Rotated <==> Rotatable(old(sessions), current, n) && IsDigest(n.token) && IsDigest(n.csrf)
                                && n.token !in old(sessions)
      ensures r == Refused <==> !Rotatable(old(sessions), current, n)
      ensures r == Rotated ==>
        n.issuedAt < old(sessions)[current].expiresAt && sessions.Keys == old(sessions).Keys + {n.token}
        && sessions[current] ==
             old(sessions)[current].(revokedAt := Some(n.issuedAt), replacedBy := Some(n.id))
        && sessions[n.token] == Session(
             Rendered(n.id),
             Owner(Rendered(n.owner.subjectId), Rendered(n.owner.tenantId), Rendered(n.owner.principalId),
                   Unique(n.owner.roles)),
             n.csrf, n.issuedAt, n.expiresAt, n.generation, None, None)
        && forall t :: t in old(sessions) && t != current ==> sessions[t] == old(sessions)[t]
    {
      if current !in sessions || sessions[current].revokedAt.Some? || sessions[current].expiresAt <= n.issuedAt {
        return Refused;
      }
      var session := sessions[current];
      if session.owner.tenantId != n.owner.tenantId || session.owner.principalId != n.owner.principalId
         || session.owner.subjectId != n.owner.subjectId || n.generation != session.generation + 1 {
        return Refused;
      }
      var fault := CreateSession(n);
      if fault.Some? {
        return Thrown(fault.value);
      }
      sessions := sessions[current := session.(revokedAt := Some(n.issuedAt), replacedBy := Some(n.id))];
      r := Rotated;
    }

    method RevokeSession(token: Digest, at: int) returns (r: Option<Session>)
      modifies this
      ensures r.Some? <==> Revocable(old(State()), token)
      ensures r.Some? <==> token in old(sessions) && old(sessions)[token].revokedAt == None
      ensures r.Some? ==>
        sessions == old(sessions)[token := old(sessions)[token].(revokedAt := Some(at))]
      ensures r.Some? ==>
        r.value == old(sessions)[token].(revokedAt := Some(at)) && State() == Revoked(old(State()), token, at)
      ensures r.None? ==> State() == old(State())
    {
      if token !in sessions || sessions[token].revokedAt.Some? {
        return None;
      }
      sessions := sessions[token := sessions[token].(revokedAt := Some(at))];
      r := Some(sessions[token]);
    }

    method RecordAudit(audit: Audit)
      modifies this
      ensures State() == old(State()).(audits := old(audits) + [audit])
    {
      audits := audits + [audit];
    }
  }
}
