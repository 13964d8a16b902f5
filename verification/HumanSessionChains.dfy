/** Rotation chains: which session replaced which, and what the stored sessions must say about it. */
module HumanSessionChains {
  import opened Wrappers
  import opened Identifiers
  import opened HumanSessionRepository

  /** The chains in the order they were started, and the place of each token: its chain and its position there. */
  datatype Ledger = Ledger(chains: seq<seq<Digest>>, place: map<Digest, (nat, nat)>)

  const NoChains := Ledger([], map[])

  function Start(l: Ledger, t: Digest): Ledger {
    Ledger(l.chains + [[t]], l.place[t := (|l.chains|, 0)])
  }

  /** `t` behind the chain that `current` stands in. */
  function Extend(l: Ledger, current: Digest, t: Digest): Ledger {
    if current !in l.place || |l.chains| <= l.place[current].0 then l
    else
      var i := l.place[current].0;
      Ledger(l.chains[i := l.chains[i] + [t]], l.place[t := (i, |l.chains[i]|)])
  }

  lemma ChainCounts(l: Ledger, current: Digest, t: Digest)
    ensures |Start(l, t).chains| == |l.chains| + 1
    ensures |Extend(l, current, t).chains| == |l.chains|
  {
  }

  /** Token `t` stands at position `j` of chain `i`. */
  predicate At(l: Ledger, i: nat, j: nat, t: Digest) {
    i < |l.chains| && j < |l.chains[i]| && l.chains[i][j] == t
  }

  /** Every token of the ledger has one place, and every place one token. */
  ghost predicate Partition(l: Ledger) {
    && (forall t :: t in l.place ==> At(l, l.place[t].0, l.place[t].1, t))
    && forall i: nat, j: nat, t :: At(l, i, j, t) ==> t in l.place && l.place[t] == (i, j)
  }

  function Successor(l: Ledger, t: Digest): Option<Digest> {
    if t !in l.place || |l.chains| <= l.place[t].0 || |l.chains[l.place[t].0]| <= l.place[t].1 + 1 then None
    else Some(l.chains[l.place[t].0][l.place[t].1 + 1])
  }

  lemma StartKeepsPartition(l: Ledger, t: Digest)
    requires Partition(l) && t !in l.place
    ensures Partition(Start(l, t))
    ensures forall u :: u in l.place ==> Successor(Start(l, t), u) == Successor(l, u)
    ensures Successor(Start(l, t), t) == None
  {
    var l' := Start(l, t);
    forall u | u in l.place
      ensures At(l', l.place[u].0, l.place[u].1, u)
    {
      assert At(l, l.place[u].0, l.place[u].1, u);
    }
    forall i: nat, j: nat, u | At(l', i, j, u)
      ensures u in l'.place && l'.place[u] == (i, j)
    {
      if i < |l.chains| {
        assert At(l, i, j, u);
      }
    }
  }

  lemma ExtendKeepsPartition(l: Ledger, last: Digest, t: Digest)
    requires Partition(l) && t !in l.place && last in l.place && Successor(l, last) == None
    ensures var l' := Extend(l, last, t);
      && Partition(l')
      && (forall u :: u in l.place && u != last ==> Successor(l', u) == Successor(l, u))
      && Successor(l', last) == Some(t) && Successor(l', t) == None
      && l'.place == l.place[t := (l.place[last].0, l.place[last].1 + 1)]
  {
    assert At(l, l.place[last].0, l.place[last].1, last);
    var c := l.place[last].0;
    var l' := Extend(l, last, t);
    forall u | u in l.place
      ensures At(l', l.place[u].0, l.place[u].1, u)
    {
      assert At(l, l.place[u].0, l.place[u].1, u);
    }
    forall i: nat, j: nat, u | At(l', i, j, u)
      ensures u in l'.place && l'.place[u] == (i, j)
    {
      if i != c || j < |l.chains[c]| {
        assert At(l, i, j, u);
      }
    }
    forall u | u in l.place && u != last
      ensures Successor(l', u) == Successor(l, u)
    {
      assert At(l, l.place[u].0, l.place[u].1, u);
    }
  }

  /** The stored session of `t` agrees with the ledger; one that has a successor is revoked and names it. */
  ghost predicate Linked(l: Ledger, sessions: map<Digest, Session>, t: Digest)
    requires t in l.place && t in sessions
  {
    && sessions[t].generation == l.place[t].1 + 1
    && match Successor(l, t)
       case None => sessions[t].replacedBy == None
       case Some(u) =>
         && u in sessions
         && sessions[t].revokedAt.Some?
         && sessions[t].replacedBy == Some(sessions[u].id)
         && SameOwner(sessions[t].owner, sessions[u].owner)
  }

  ghost predicate IdsDistinct(sessions: map<Digest, Session>) {
    forall t, u :: t in sessions && u in sessions && t != u ==> sessions[t].id != sessions[u].id
  }

  ghost predicate FreshId(sessions: map<Digest, Session>, id: string) {
    forall t :: t in sessions ==> sessions[t].id != id
  }

  /** The sessions of the store form disjoint chains. */
  ghost predicate ChainInv(l: Ledger, sessions: map<Digest, Session>) {
    && Partition(l)
    && l.place.Keys == sessions.Keys
    && IdsDistinct(sessions)
    && forall t :: t in sessions ==> Linked(l, sessions, t)
  }

  lemma StartKeepsChains(l: Ledger, sessions: map<Digest, Session>, n: NewSession)
    requires ChainInv(l, sessions) && n.token !in sessions && n.generation == 1
    requires FreshId(sessions, n.id) && IsLower(n.id)
    ensures ChainInv(Start(l, n.token), sessions[n.token := Stored(n)])
  {
    hide Start, Successor, Partition, IdsDistinct, FreshId, Stored, SameOwner;
    var l', sessions' := Start(l, n.token), sessions[n.token := Stored(n)];
    StartKeepsPartition(l, n.token);
    StartPlace(l, n.token);
    AddingKeepsIdsDistinct(sessions, n);
    StoredIsNew(n);
    forall t | t in sessions'
      ensures Linked(l', sessions', t)
    {
      if t != n.token {
        assert Linked(l, sessions, t);
      }
    }
  }

  lemma StoredIsNew(n: NewSession)
    ensures Stored(n).generation == n.generation && Stored(n).revokedAt == None && Stored(n).replacedBy == None
  {
  }

  lemma AddingKeepsIdsDistinct(sessions: map<Digest, Session>, n: NewSession)
    requires IdsDistinct(sessions) && n.token !in sessions && FreshId(sessions, n.id) && IsLower(n.id)
    ensures IdsDistinct(sessions[n.token := Stored(n)])
  {
    LowerIsIdentityIff(n.id);
  }

  /** Ids given as they are stored are stored as they are given. */
  lemma StoredAsGiven(owner: Owner, n: NewSession)
    requires SameIds(owner, n.owner) && IsLower(n.id)
    ensures SameOwner(owner, Stored(n).owner) && Stored(n).id == n.id
  {
    LowerIsIdentityIff(n.id);
    LowerIsIdentityIff(n.owner.subjectId);
    LowerIsIdentityIff(n.owner.tenantId);
    LowerIsIdentityIff(n.owner.principalId);
  }

  lemma StartPlace(l: Ledger, t: Digest)
    ensures Start(l, t).place == l.place[t := (|l.chains|, 0)]
  {
  }

  lemma ExtendKeepsChains(l: Ledger, sessions: map<Digest, Session>, current: Digest, n: NewSession)
    requires ChainInv(l, sessions) && current in sessions && sessions[current].revokedAt == None
    requires n.token !in sessions && FreshId(sessions, n.id) && IsLower(n.id)
    requires SameIds(sessions[current].owner, n.owner) && n.generation == sessions[current].generation + 1
    ensures ChainInv(Extend(l, current, n.token), Replacing(sessions, current, n))
  {
    hide Extend, Successor, Partition, IdsDistinct, FreshId, Linked, Replacing;
    LinkedUnrevoked(l, sessions, current);
    ExtendKeepsPartition(l, current, n.token);
    var l', sessions' := Extend(l, current, n.token), Replacing(sessions, current, n);
    ReplacingKeepsIds(sessions, current, n);
    forall t | t in sessions'
      ensures Linked(l', sessions', t)
    {
      if t == n.token {
        ReplacementIsLinked(l, l', sessions, current, n);
      } else {
        ReplacingKeepsLinks(l, l', sessions, current, n, t);
      }
    }
  }

  lemma LinkedUnrevoked(l: Ledger, sessions: map<Digest, Session>, t: Digest)
    requires t in l.place && t in sessions && Linked(l, sessions, t) && sessions[t].revokedAt == None
    ensures Successor(l, t) == None && sessions[t].generation == l.place[t].1 + 1
  {
    hide Successor;
  }

  lemma ReplacingKeepsIds(sessions: map<Digest, Session>, current: Digest, n: NewSession)
    requires IdsDistinct(sessions) && current in sessions && n.token !in sessions
    requires FreshId(sessions, n.id) && IsLower(n.id)
    ensures IdsDistinct(Replacing(sessions, current, n))
    ensures Replacing(sessions, current, n).Keys == sessions.Keys + {n.token}
  {
    hide IdsDistinct, FreshId, Stored;
    AddingKeepsIdsDistinct(sessions, n);
    SameIdsStayDistinct(sessions[n.token := Stored(n)], Replacing(sessions, current, n));
  }

  /** Where each session stands and what follows it, after `n` has been put behind `current`. */
  ghost predicate Extends(l: Ledger, l': Ledger, current: Digest, t: Digest) {
    && current in l.place
    && l'.place == l.place[t := (l.place[current].0, l.place[current].1 + 1)]
    && Successor(l', current) == Some(t) && Successor(l', t) == None
    && forall u :: u in l.place && u != current ==> Successor(l', u) == Successor(l, u)
  }

  lemma ReplacementIsLinked(
    l: Ledger, l': Ledger, sessions: map<Digest, Session>, current: Digest, n: NewSession)
    requires current in sessions && n.token !in sessions && Extends(l, l', current, n.token)
    requires n.generation == l.place[current].1 + 2
    ensures Linked(l', Replacing(sessions, current, n), n.token)
  {
    hide Successor, Stored;
    StoredIsNew(n);
  }

  lemma ReplacingKeepsLinks(
    l: Ledger, l': Ledger, sessions: map<Digest, Session>, current: Digest, n: NewSession, t: Digest)
    requires current in sessions && n.token !in sessions && Extends(l, l', current, n.token)
    requires n.token !in l.place && t in l.place && t in sessions && Linked(l, sessions, t)
    requires SameIds(sessions[current].owner, n.owner) && IsLower(n.id)
    ensures Linked(l', Replacing(sessions, current, n), t)
  {
    hide Successor, Stored, SameIds;
    StoredAsGiven(sessions[current].owner, n);
  }

  lemma SameIdsStayDistinct(sessions: map<Digest, Session>, sessions': map<Digest, Session>)
    requires IdsDistinct(sessions) && sessions'.Keys == sessions.Keys
    requires forall t :: t in sessions ==> sessions'[t].id == sessions[t].id
    ensures IdsDistinct(sessions')
  {
  }

  lemma RevokeKeepsChains(l: Ledger, sessions: map<Digest, Session>, t: Digest, at: int)
    requires ChainInv(l, sessions) && t in sessions
    ensures ChainInv(l, sessions[t := sessions[t].(revokedAt := Some(at))])
  {
    var sessions' := sessions[t := sessions[t].(revokedAt := Some(at))];
    SameIdsStayDistinct(sessions, sessions');
    assert sessions'.Keys == sessions.Keys;
    hide Successor, Partition, IdsDistinct, Linked;
    forall u | u in sessions'
      ensures Linked(l, sessions', u)
    {
      RevokedStaysLinked(l, sessions, t, at, u);
    }
  }

  lemma RevokedStaysLinked(l: Ledger, sessions: map<Digest, Session>, t: Digest, at: int, u: Digest)
    requires t in sessions && u in sessions && u in l.place && Linked(l, sessions, u)
    ensures Linked(l, sessions[t := sessions[t].(revokedAt := Some(at))], u)
  {
    hide Successor;
  }

  /** An unrevoked session has not been replaced. */
  lemma UnrevokedIsLast(l: Ledger, sessions: map<Digest, Session>, t: Digest)
    requires ChainInv(l, sessions) && t in sessions && sessions[t].revokedAt == None
    ensures sessions[t].replacedBy == None
  {
    assert Linked(l, sessions, t);
  }

  /** In one chain only the last session can be unrevoked, and a position is a generation less one. */
  lemma OnlyTheLastIsUnrevoked(l: Ledger, sessions: map<Digest, Session>, i: nat, j: nat)
    requires ChainInv(l, sessions) && i < |l.chains| && j < |l.chains[i]|
    ensures var t := l.chains[i][j];
      && t in sessions
      && sessions[t].generation == j + 1
      && (j + 1 < |l.chains[i]| ==> sessions[t].revokedAt.Some?)
      && (sessions[t].replacedBy == None <==> j + 1 == |l.chains[i]|)
  {
    var t := l.chains[i][j];
    assert At(l, i, j, t);
    assert Linked(l, sessions, t);
  }

  /** A revoked session without a successor ends its chain: none of the chain's sessions is unrevoked. */
  lemma EndedChainIsDead(l: Ledger, sessions: map<Digest, Session>, t: Digest)
    requires ChainInv(l, sessions) && t in sessions
    requires sessions[t].revokedAt.Some? && sessions[t].replacedBy == None
    ensures l.place[t].0 < |l.chains|
    ensures forall j :: 0 <= j < |l.chains[l.place[t].0]| ==>
      l.chains[l.place[t].0][j] in sessions && sessions[l.chains[l.place[t].0][j]].revokedAt.Some?
  {
    var (i, k) := l.place[t];
    assert At(l, i, k, t) && Linked(l, sessions, t);
    forall j: nat | j < |l.chains[i]|
      ensures l.chains[i][j] in sessions && sessions[l.chains[i][j]].revokedAt.Some?
    {
      OnlyTheLastIsUnrevoked(l, sessions, i, j);
    }
  }
}
