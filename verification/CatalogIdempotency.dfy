/**
  Idempotency records of the catalog API, kept in memory and in SQL. The memory
  form looks at a record's expiry when it is claimed; the SQL form first sweeps
  every expired record of the caller's partition.
*/
module CatalogIdempotency {
  import opened Wrappers

  datatype Partition = Partition(tenant: string, principal: string, operation: string)

  datatype Key = Key(partition: Partition, keySha256: string)

  datatype Response = Response(status: nat, body: string, sha256: string, auditId: string)

  datatype State = Processing | Finished(response: Response)

  datatype Entry = Entry(requestSha256: string, expiresAt: int, state: State)

  type Store = map<Key, Entry>

  datatype Scope = Scope(key: Key, requestSha256: string, now: int, expiresAt: int)

  datatype Claim = New | Conflict | InProgress | Replay(response: Response)

  function Fresh(scope: Scope): Entry {
    Entry(scope.requestSha256, scope.expiresAt, Processing)
  }

  /** The answer to a claim that finds `entry`. */
  function Answer(entry: Entry, scope: Scope): Claim {
    if entry.requestSha256 != scope.requestSha256 then Conflict
    else if entry.state.Processing? then InProgress
    else Replay(entry.state.response)
  }

  function ExpiredKeys(store: Store, partition: Partition, now: int): set<Key> {
    set k | k in store && k.partition == partition && store[k].expiresAt <= now
  }

  /** The entry is being processed for this very request. */
  predicate Pending(store: Store, scope: Scope) {
    scope.key in store && store[scope.key].state.Processing? && store[scope.key].requestSha256 == scope.requestSha256
  }

  function MemoryClaim(store: Store, scope: Scope): (Store, Claim) {
    if scope.key !in store || store[scope.key].expiresAt <= scope.now then (store[scope.key := Fresh(scope)], New)
    else (store, Answer(store[scope.key], scope))
  }

  function SqlClaim(store: Store, scope: Scope): (Store, Claim) {
    var swept := store - ExpiredKeys(store, scope.key.partition, scope.now);
    if scope.key !in swept then (swept[scope.key := Fresh(scope)], New) else (swept, Answer(swept[scope.key], scope))
  }

  function Completed(store: Store, scope: Scope, response: Response): Store {
    if Pending(store, scope) then store[scope.key := store[scope.key].(state := Finished(response))] else store
  }

  function Released(store: Store, scope: Scope): Store {
    if Pending(store, scope) then store - {scope.key} else store
  }

  class InMemoryIdempotency {
    var entries: Store

    constructor ()
      ensures entries == map[]
    {
      entries := map[];
    }

    method ClaimIdempotency(scope: Scope) returns (claim: Claim)
      modifies this
      ensures (entries, claim) == MemoryClaim(old(entries), scope)
      ensures claim == New <==> scope.key !in old(entries) || old(entries)[scope.key].expiresAt <= scope.now
      ensures entries ==
        if claim == New then old(entries)[scope.key := Entry(scope.requestSha256, scope.expiresAt, Processing)]
        else old(entries)
    {
      if scope.key !in entries || entries[scope.key].expiresAt <= scope.now {
        entries := entries[scope.key := Fresh(scope)];
        return New;
      }
      var existing := entries[scope.key];
      if existing.requestSha256 != scope.requestSha256 {
        return Conflict;
      }
      if existing.state.Processing? {
        return InProgress;
      }
      claim := Replay(existing.state.response);
    }

    /** False where the source throws a completion mismatch. */
    method CompleteIdempotency(scope: Scope, response: Response) returns (ok: bool)
      modifies this
      ensures ok <==>
        && scope.key in old(entries) && old(entries)[scope.key].state.Processing?
        && old(entries)[scope.key].requestSha256 == scope.requestSha256
      ensures entries ==
        if ok then old(entries)[scope.key := old(entries)[scope.key].(state := Finished(response))] else old(entries)
      ensures ok == Pending(old(entries), scope) && entries == Completed(old(entries), scope, response)
    {
      if scope.key !in entries {
        return false;
      }
      var existing := entries[scope.key];
      if !existing.state.Processing? || existing.requestSha256 != scope.requestSha256 {
        return false;
      }
      entries := entries[scope.key := existing.(state := Finished(response))];
      ok := true;
    }

    method ReleaseIdempotency(scope: Scope)
      modifies this
      ensures entries == Released(old(entries), scope)
      ensures entries ==
        if scope.key in old(entries) && old(entries)[scope.key].state.Processing?
           && old(entries)[scope.key].requestSha256 == scope.requestSha256
        then old(entries) - {scope.key}
        else old(entries)
    {
      if scope.key in entries {
        var existing := entries[scope.key];
        if existing.state.Processing? && existing.requestSha256 == scope.requestSha256 {
          entries := entries - {scope.key};
        }
      }
    }

    method InvalidateCompletedIdempotency(scope: Scope)
      modifies this
      ensures entries == old(entries) - {scope.key}
    {
      entries := entries - {scope.key};
    }
  }

  class SqlIdempotency {
    var rows: Store

    constructor ()
      ensures rows == map[]
    {
      rows := map[];
    }

    method DeleteExpired(partition: Partition, now: int)
      modifies this
      ensures rows == old(rows) - ExpiredKeys(old(rows), partition, now)
      ensures forall k :: k in rows <==>
        k in old(rows) && (k.partition == partition ==> now < old(rows)[k].expiresAt)
      ensures forall k :: k in rows ==> rows[k] == old(rows)[k]
    {
      rows := rows - ExpiredKeys(rows, partition, now);
    }

    /** `INSERT ... ON CONFLICT DO NOTHING`, with its row count. */
    method InsertIfAbsent(scope: Scope) returns (count: nat)
      modifies this
      ensures count == if scope.key in old(rows) then 0 else 1
      ensures rows == if scope.key in old(rows) then old(rows) else old(rows)[scope.key := Fresh(scope)]
    {
      if scope.key in rows {
        return 0;
      }
      rows := rows[scope.key := Fresh(scope)];
      count := 1;
    }

    method ClaimIdempotency(scope: Scope) returns (claim: Claim)
      modifies this
      ensures (rows, claim) == SqlClaim(old(rows), scope)
      ensures claim == New <==> scope.key !in old(rows) || old(rows)[scope.key].expiresAt <= scope.now
      ensures claim == New ==>
        scope.key in rows && rows[scope.key] == Entry(scope.requestSha256, scope.expiresAt, Processing)
      ensures claim != New ==> scope.key in rows && rows[scope.key] == old(rows)[scope.key]
      ensures forall k :: k != scope.key ==>
        (k in rows <==> k in old(rows) && (k.partition == scope.key.partition ==> scope.now < old(rows)[k].expiresAt))
      ensures forall k :: k != scope.key && k in rows ==> rows[k] == old(rows)[k]
    {
      DeleteExpired(scope.key.partition, scope.now);
      var inserted := InsertIfAbsent(scope);
      if inserted == 1 {
        return New;
      }
      var row := rows[scope.key];
      if row.requestSha256 != scope.requestSha256 {
        return Conflict;
      }
      if row.state.Processing? {
        return InProgress;
      }
      claim := Replay(row.state.response);
    }

    /** The rows `WHERE` picks: of the scope, for its request, and processing. */
    function Matching(scope: Scope): set<Key>
      reads this
    {
      set k | k in rows && k == scope.key && rows[k].requestSha256 == scope.requestSha256 && rows[k].state.Processing?
    }

    method CompleteIdempotency(scope: Scope, response: Response) returns (ok: bool)
      modifies this
      ensures ok <==>
        && scope.key in old(rows) && old(rows)[scope.key].state.Processing?
        && old(rows)[scope.key].requestSha256 == scope.requestSha256
      ensures rows ==
        if ok then old(rows)[scope.key := old(rows)[scope.key].(state := Finished(response))] else old(rows)
      ensures ok == Pending(old(rows), scope) && rows == Completed(old(rows), scope, response)
    {
      var matched := Matching(scope);
      ok := scope.key in matched;
      if ok {
        rows := rows[scope.key := rows[scope.key].(state := Finished(response))];
      }
    }

    method ReleaseIdempotency(scope: Scope)
      modifies this
      ensures rows == Released(old(rows), scope)
      ensures rows ==
        if scope.key in old(rows) && old(rows)[scope.key].state.Processing?
           && old(rows)[scope.key].requestSha256 == scope.requestSha256
        then old(rows) - {scope.key}
        else old(rows)
    {
      rows := rows - Matching(scope);
    }

    method InvalidateCompletedIdempotency(scope: Scope)
      modifies this
      ensures rows == old(rows) - {scope.key}
    {
      rows := rows - {scope.key};
    }
  }

  // ---- runs -------------------------------------------------------------------------------------------------------

  datatype Op =
    | Claiming(scope: Scope)
    | Completing(scope: Scope, response: Response)
    | Releasing(scope: Scope)
    | Invalidating(scope: Scope)

  datatype Output = Claimed(claim: Claim) | CompletionOk | CompletionMismatch | Silent

  function MemoryStep(store: Store, op: Op): (Store, Output) {
    match op
    case Claiming(scope) => var (after, claim) := MemoryClaim(store, scope); (after, Claimed(claim))
    case Completing(scope, response) => (Completed(store, scope, response), CompletionOutput(Pending(store, scope)))
    case Releasing(scope) => (Released(store, scope), Silent)
    case Invalidating(scope) => (store - {scope.key}, Silent)
  }

  function SqlStep(store: Store, op: Op): (Store, Output) {
    match op
    case Claiming(scope) => var (after, claim) := SqlClaim(store, scope); (after, Claimed(claim))
    case Completing(scope, response) => (Completed(store, scope, response), CompletionOutput(Pending(store, scope)))
    case Releasing(scope) => (Released(store, scope), Silent)
    case Invalidating(scope) => (store - {scope.key}, Silent)
  }

  function CompletionOutput(ok: bool): Output {
    if ok then CompletionOk else CompletionMismatch
  }

  function MemoryRun(store: Store, ops: seq<Op>): seq<Output>
    decreases ops
  {
    if ops == [] then [] else [MemoryStep(store, ops[0]).1] + MemoryRun(MemoryStep(store, ops[0]).0, ops[1..])
  }

  function SqlRun(store: Store, ops: seq<Op>): seq<Output>
    decreases ops
  {
    if ops == [] then [] else [SqlStep(store, ops[0]).1] + SqlRun(SqlStep(store, ops[0]).0, ops[1..])
  }

  /** A claim is new exactly when its key is free: never claimed, removed, or expired by then. */
  lemma ClaimIsNewIff(store: Store, scope: Scope)
    ensures MemoryStep(store, Claiming(scope)).1 == Claimed(New)
       <==> scope.key !in store || store[scope.key].expiresAt <= scope.now
    ensures SqlStep(store, Claiming(scope)).1 == Claimed(New)
       <==> scope.key !in store || store[scope.key].expiresAt <= scope.now
  {
  }

  /** The answer to a claim that is not new. */
  lemma OtherAnswers(store: Store, scope: Scope)
    requires scope.key in store && scope.now < store[scope.key].expiresAt
    ensures var entry, memory, sql :=
        store[scope.key], MemoryStep(store, Claiming(scope)).1, SqlStep(store, Claiming(scope)).1;
      && memory == sql && memory.Claimed?
      && (memory.claim == Conflict <==> entry.requestSha256 != scope.requestSha256)
      && (memory.claim == InProgress <==> entry.requestSha256 == scope.requestSha256 && entry.state == Processing)
      && forall response :: memory.claim == Replay(response) <==>
           entry.requestSha256 == scope.requestSha256 && entry.state == Finished(response)
  {
  }

  /**
    A release of a record that is being processed for the same request frees its
    key in both stores: any later claim of it is new, whatever its time, and other
    keys keep their records. Any other release changes nothing.
  */
  lemma ReleaseFreesTheKey(store: Store, scope: Scope, later: Scope)
    ensures var held := scope.key in store && store[scope.key].state == Processing
        && store[scope.key].requestSha256 == scope.requestSha256;
      var memory, sql := MemoryStep(store, Releasing(scope)).0, SqlStep(store, Releasing(scope)).0;
      && memory == sql
      && (held && later.key == scope.key ==>
            && MemoryStep(memory, Claiming(later)).1 == Claimed(New)
            && SqlStep(sql, Claiming(later)).1 == Claimed(New))
      && (held ==> forall k :: k != scope.key ==>
            (k in memory <==> k in store) && (k in store ==> memory[k] == store[k]))
      && (!held ==> memory == store)
  {
    if scope.key in store {
      ClaimIsNewIff(MemoryStep(store, Releasing(scope)).0, later);
    }
  }

  /** An invalidation frees its key whatever its record. */
  lemma InvalidationFreesTheKey(store: Store, scope: Scope, later: Scope)
    ensures var memory, sql := MemoryStep(store, Invalidating(scope)).0, SqlStep(store, Invalidating(scope)).0;
      && memory == sql
      && (later.key == scope.key ==>
            && MemoryStep(memory, Claiming(later)).1 == Claimed(New)
            && SqlStep(sql, Claiming(later)).1 == Claimed(New))
      && forall k :: k != scope.key ==> (k in memory <==> k in store) && (k in store ==> memory[k] == store[k])
  {
    ClaimIsNewIff(MemoryStep(store, Invalidating(scope)).0, later);
  }

  /** Times do not go back, and a claim expires after it is made, as the table requires of a row. */
  predicate ClockOrdered(ops: seq<Op>, now: int)
    decreases ops
  {
    ops != [] ==>
      && now <= ops[0].scope.now
      && (ops[0].Claiming? ==> ops[0].scope.now < ops[0].scope.expiresAt)
      && ClockOrdered(ops[1..], ops[0].scope.now)
  }

  /** Every completion of the run comes before the expiry of the record it completes. */
  predicate CompletesInTime(store: Store, ops: seq<Op>)
    decreases ops
  {
    ops != [] ==>
      && (ops[0].Completing? && ops[0].scope.key in store ==> ops[0].scope.now < store[ops[0].scope.key].expiresAt)
      && CompletesInTime(MemoryStep(store, ops[0]).0, ops[1..])
  }

  /** The last claim of the record's partition came at or after its expiry. */
  predicate SweptBy(sweeps: map<Partition, int>, key: Key, entry: Entry) {
    key.partition in sweeps && entry.expiresAt <= sweeps[key.partition]
  }

  /**
    The SQL store is the memory store less the records that had expired by the
    last claim of their partition; `sweeps` holds the times of those claims.
  */
  predicate Simulates(sql: Store, memory: Store, sweeps: map<Partition, int>) {
    && (forall k :: k in sql ==> k in memory && sql[k] == memory[k] && !SweptBy(sweeps, k, memory[k]))
    && forall k :: k in memory && !SweptBy(sweeps, k, memory[k]) ==> k in sql
  }

  function SweepsAfter(sweeps: map<Partition, int>, op: Op): map<Partition, int> {
    if op.Claiming? then sweeps[op.scope.key.partition := op.scope.now] else sweeps
  }

  predicate SweepsBy(sweeps: map<Partition, int>, now: int) {
    forall p :: p in sweeps ==> sweeps[p] <= now
  }

  /** A completion of a pending record that a claim of its partition has met expired. */
  predicate CompletesSwept(memory: Store, sweeps: map<Partition, int>, op: Op) {
    op.Completing? && Pending(memory, op.scope) && SweptBy(sweeps, op.scope.key, memory[op.scope.key])
  }

  /** One step keeps the relation, and the two answers differ exactly on a completion of a swept record. */
  lemma StepsAgreeIff(sql: Store, memory: Store, sweeps: map<Partition, int>, now: int, op: Op)
    requires Simulates(sql, memory, sweeps) && SweepsBy(sweeps, now) && now <= op.scope.now
    requires op.Claiming? ==> op.scope.now < op.scope.expiresAt
    ensures Simulates(SqlStep(sql, op).0, MemoryStep(memory, op).0, SweepsAfter(sweeps, op))
    ensures SweepsBy(SweepsAfter(sweeps, op), op.scope.now)
    ensures SqlStep(sql, op).1 == MemoryStep(memory, op).1 <==> !CompletesSwept(memory, sweeps, op)
  {
    SweepsGoOn(sweeps, now, op);
    hide Simulates, SweepsBy, MemoryClaim, SqlClaim, Completed, Released, SweptBy, Pending;
    match op
    case Claiming(scope) => ClaimsAgree(sql, memory, sweeps, now, scope);
    case Completing(scope, response) => CompletionsAgreeIff(sql, memory, sweeps, scope, response);
    case Releasing(scope) => ReleasesAgree(sql, memory, sweeps, scope);
    case Invalidating(scope) => RemovalsAgree(sql, memory, sweeps, scope);
  }

  lemma SweepsGoOn(sweeps: map<Partition, int>, now: int, op: Op)
    requires SweepsBy(sweeps, now) && now <= op.scope.now
    ensures SweepsBy(SweepsAfter(sweeps, op), op.scope.now)
  {
  }

  lemma ClaimsAgree(sql: Store, memory: Store, sweeps: map<Partition, int>, now: int, scope: Scope)
    requires Simulates(sql, memory, sweeps) && SweepsBy(sweeps, now) && now <= scope.now < scope.expiresAt
    ensures SqlClaim(sql, scope).1 == MemoryClaim(memory, scope).1
    ensures Simulates(
      SqlClaim(sql, scope).0, MemoryClaim(memory, scope).0, sweeps[scope.key.partition := scope.now])
  {
    hide Answer;
  }

  lemma CompletionsAgreeIff(
    sql: Store, memory: Store, sweeps: map<Partition, int>, scope: Scope, response: Response)
    requires Simulates(sql, memory, sweeps)
    ensures Simulates(Completed(sql, scope, response), Completed(memory, scope, response), sweeps)
    ensures Pending(sql, scope) <==> Pending(memory, scope) && !SweptBy(sweeps, scope.key, memory[scope.key])
  {
  }

  lemma ReleasesAgree(sql: Store, memory: Store, sweeps: map<Partition, int>, scope: Scope)
    requires Simulates(sql, memory, sweeps)
    ensures Simulates(Released(sql, scope), Released(memory, scope), sweeps)
  {
  }

  lemma RemovalsAgree(sql: Store, memory: Store, sweeps: map<Partition, int>, scope: Scope)
    requires Simulates(sql, memory, sweeps)
    ensures Simulates(sql - {scope.key}, memory - {scope.key}, sweeps)
  {
  }

  /** Every completion of a pending record comes before any claim of its partition has met that record expired. */
  predicate BeforeTheSweep(memory: Store, sweeps: map<Partition, int>, ops: seq<Op>)
    decreases ops
  {
    ops != [] ==>
      && !CompletesSwept(memory, sweeps, ops[0])
      && BeforeTheSweep(MemoryStep(memory, ops[0]).0, SweepsAfter(sweeps, ops[0]), ops[1..])
  }

  /** The two stores answer a run alike exactly when no completion in it comes after such a claim. */
  lemma {:induction false} RunsAgreeIff(
    sql: Store, memory: Store, sweeps: map<Partition, int>, now: int, ops: seq<Op>)
    requires Simulates(sql, memory, sweeps) && SweepsBy(sweeps, now) && ClockOrdered(ops, now)
    ensures SqlRun(sql, ops) == MemoryRun(memory, ops) <==> BeforeTheSweep(memory, sweeps, ops)
    decreases ops
  {
    if ops != [] {
      var op, rest := ops[0], ops[1..];
      StepsAgreeIff(sql, memory, sweeps, now, op);
      hide SqlStep, MemoryStep, Simulates, SweepsBy, CompletesSwept;
      RunsAgreeIff(SqlStep(sql, op).0, MemoryStep(memory, op).0, SweepsAfter(sweeps, op), op.scope.now, rest);
      SameWhenPartsAre(SqlStep(sql, op).1, SqlRun(SqlStep(sql, op).0, rest),
                       MemoryStep(memory, op).1, MemoryRun(MemoryStep(memory, op).0, rest));
    }
  }

  lemma SameWhenPartsAre(a: Output, later: seq<Output>, b: Output, later': seq<Output>)
    ensures [a] + later == [b] + later' <==> a == b && later == later'
  {
    assert ([a] + later)[0] == a && ([a] + later)[1..] == later;
    assert ([b] + later')[0] == b && ([b] + later')[1..] == later';
  }

  lemma RunsFromEmptyAgreeIff(ops: seq<Op>, now: int)
    requires ClockOrdered(ops, now)
    ensures SqlRun(map[], ops) == MemoryRun(map[], ops) <==> BeforeTheSweep(map[], map[], ops)
  {
    RunsAgreeIff(map[], map[], map[], now, ops);
  }

  /** Completions before expiry, whatever is claimed meanwhile, come before any such claim. */
  lemma {:induction false} InTimeIsBeforeTheSweep(
    memory: Store, sweeps: map<Partition, int>, now: int, ops: seq<Op>)
    requires SweepsBy(sweeps, now) && ClockOrdered(ops, now) && CompletesInTime(memory, ops)
    ensures BeforeTheSweep(memory, sweeps, ops)
    decreases ops
  {
    if ops != [] {
      InTimeIsBeforeTheSweep(MemoryStep(memory, ops[0]).0, SweepsAfter(sweeps, ops[0]), ops[0].scope.now, ops[1..]);
    }
  }

  /** The two stores answer every run alike when completions come before expiry. */
  lemma RunsAgree(sql: Store, memory: Store, sweeps: map<Partition, int>, now: int, ops: seq<Op>)
    requires Simulates(sql, memory, sweeps) && SweepsBy(sweeps, now)
    requires ClockOrdered(ops, now) && CompletesInTime(memory, ops)
    ensures SqlRun(sql, ops) == MemoryRun(memory, ops)
  {
    hide Simulates, CompletesInTime, BeforeTheSweep, SqlRun, MemoryRun;
    InTimeIsBeforeTheSweep(memory, sweeps, now, ops);
    RunsAgreeIff(sql, memory, sweeps, now, ops);
  }

  lemma RunsAgreeFromEmpty(ops: seq<Op>, now: int)
    requires ClockOrdered(ops, now) && CompletesInTime(map[], ops)
    ensures SqlRun(map[], ops) == MemoryRun(map[], ops)
  {
    RunsAgree(map[], map[], map[], now, ops);
  }

  /** A claim, then its completion at `late`. */
  function LoneRun(first: Scope, late: int, response: Response): seq<Op> {
    [Claiming(first), Completing(first.(now := late), response)]
  }

  /** Lateness alone does not part the stores: with no claim between there was no sweep. */
  lemma LoneCompletionsAgree(first: Scope, late: int, response: Response)
    requires first.now < first.expiresAt && first.now <= late
    ensures SqlRun(map[], LoneRun(first, late, response)) == MemoryRun(map[], LoneRun(first, late, response))
  {
    var ops := LoneRun(first, late, response);
    assert ops[1..] == [ops[1]] && ops[1..][1..] == [];
    assert ClockOrdered(ops[1..][1..], late) && ClockOrdered(ops[1..], first.now) && ClockOrdered(ops, first.now);
    var one := SweepsAfter(map[], ops[0]);
    var memory := MemoryStep(map[], ops[0]).0;
    assert BeforeTheSweep(MemoryStep(memory, ops[1]).0, one, ops[1..][1..]) && BeforeTheSweep(memory, one, ops[1..]);
    RunsFromEmptyAgreeIff(ops, first.now);
  }

  /** A claim, a claim of another key at `late`, then the completion of the first. */
  function LateRun(first: Scope, other: Key, late: int, response: Response): seq<Op> {
    [Claiming(first), Claiming(Scope(other, "", late, late + 1)), Completing(first.(now := late), response)]
  }

  /**
    An instance with a sweep: completing one's claim at `late`, another key of the
    partition having just been claimed, is the same on both stores if and only if
    `late` is before the claim's own expiry.
  */
  lemma LateCompletionsDivergeIff(first: Scope, other: Key, late: int, response: Response)
    requires first.now < first.expiresAt && first.now <= late
    requires other != first.key && other.partition == first.key.partition
    ensures ClockOrdered(LateRun(first, other, late, response), first.now)
    ensures var ops := LateRun(first, other, late, response);
      SqlRun(map[], ops) == MemoryRun(map[], ops) <==> late < first.expiresAt
  {
    var ops := LateRun(first, other, late, response);
    var one, two := ops[1..], ops[2..];
    assert one == [ops[1], ops[2]] && one[1..] == two == [ops[2]] && two[1..] == [];
    assert ClockOrdered(two[1..], late) && ClockOrdered(two, late) && ClockOrdered(one, first.now);
    var m1, s1 := MemoryStep(map[], ops[0]).0, SweepsAfter(map[], ops[0]);
    var m2, s2 := MemoryStep(m1, ops[1]).0, SweepsAfter(s1, ops[1]);
    assert BeforeTheSweep(m2, s2, two) <==> !CompletesSwept(m2, s2, ops[2]);
    assert BeforeTheSweep(m1, s1, one) <==> BeforeTheSweep(m2, s2, two);
    assert BeforeTheSweep(map[], map[], ops) <==> BeforeTheSweep(m1, s1, one);
    hide SqlRun, MemoryRun;
    RunsFromEmptyAgreeIff(ops, first.now);
  }

  // ---- what a claim guarantees ------------------------------------------------------------------------------------

  /** Before the expiry `until`, nobody releases this request's claim of the key or invalidates it. */
  predicate Undisturbed(ops: seq<Op>, key: Key, requestSha256: string, until: int) {
    forall i :: 0 <= i < |ops| ==>
      && ops[i].scope.now < until
      && (ops[i].scope.key == key ==>
            && !ops[i].Invalidating?
            && (ops[i].Releasing? ==> ops[i].scope.requestSha256 != requestSha256))
  }

  predicate SucceedsAt(ops: seq<Op>, outputs: seq<Output>, key: Key, i: nat)
    requires |outputs| == |ops| && i < |ops|
  {
    ops[i].Completing? && ops[i].scope.key == key && outputs[i] == CompletionOk
  }

  predicate ClaimsAt(ops: seq<Op>, key: Key, i: nat)
    requires i < |ops|
  {
    ops[i].Claiming? && ops[i].scope.key == key
  }

  /** The key was finished from the start (`state`) or a completion of it succeeded before position `i`. */
  ghost predicate FinishedBefore(ops: seq<Op>, outputs: seq<Output>, key: Key, state: State, i: nat)
    requires |outputs| == |ops| && i <= |ops|
  {
    state.Finished? || exists j :: 0 <= j < i && SucceedsAt(ops, outputs, key, j)
  }

  /**
    The claim of `key` at position `i` is not new; it conflicts if it is for
    another request; else it is a replay exactly when the key is finished by then,
    and gives the response of the completion that came earlier (or that `state`
    holds).
  */
  ghost predicate ClaimIsGuarded(
    ops: seq<Op>, outputs: seq<Output>, key: Key, requestSha256: string, state: State, i: nat)
    requires |outputs| == |ops| && i < |ops|
  {
    && outputs[i].Claimed? && outputs[i].claim != New
    && (ops[i].scope.requestSha256 != requestSha256 <==> outputs[i].claim == Conflict)
    && (ops[i].scope.requestSha256 == requestSha256 ==>
          (outputs[i].claim.Replay? <==> FinishedBefore(ops, outputs, key, state, i)))
    && (outputs[i].claim.Replay? ==>
          || state == Finished(outputs[i].claim.response)
          || exists j :: 0 <= j < i && SucceedsAt(ops, outputs, key, j) && ops[j].response == outputs[i].claim.response)
  }

  ghost predicate ClaimsAreGuarded(ops: seq<Op>, outputs: seq<Output>, key: Key, requestSha256: string, state: State)
    requires |outputs| == |ops|
  {
    forall i :: 0 <= i < |ops| && ClaimsAt(ops, key, i) ==> ClaimIsGuarded(ops, outputs, key, requestSha256, state, i)
  }

  /** At most one completion of `key` succeeds, and none where `state` is finished already. */
  ghost predicate CompletesOnce(ops: seq<Op>, outputs: seq<Output>, key: Key, state: State)
    requires |outputs| == |ops|
  {
    && (state.Finished? ==> forall i :: 0 <= i < |ops| ==> !SucceedsAt(ops, outputs, key, i))
    && forall i, j :: 0 <= i < j < |ops| && SucceedsAt(ops, outputs, key, i) ==> !SucceedsAt(ops, outputs, key, j)
  }

  lemma {:induction false} RunLength(store: Store, ops: seq<Op>)
    ensures |MemoryRun(store, ops)| == |ops| && |SqlRun(store, ops)| == |ops|
    decreases ops
  {
    if ops != [] {
      RunLength(MemoryStep(store, ops[0]).0, ops[1..]);
      RunLength(SqlStep(store, ops[0]).0, ops[1..]);
    }
  }

  /** The step is a completion of `key` that goes through. */
  predicate Succeeds(op: Op, output: Output, key: Key) {
    op.Completing? && op.scope.key == key && output == CompletionOk
  }

  /** The key is held for a request until `until`. */
  predicate Held(store: Store, key: Key, requestSha256: string, until: int) {
    key in store && store[key].requestSha256 == requestSha256 && store[key].expiresAt == until
  }

  /** One step leaves a held key held, finished if this step completed it, and answers a claim from its entry. */
  predicate KeepsHold(store: Store, op: Op, after: Store, output: Output, key: Key, requestSha256: string, until: int)
    requires Held(store, key, requestSha256, until)
  {
    && Held(after, key, requestSha256, until)
    && (if Succeeds(op, output, key) then store[key].state == Processing && after[key].state == Finished(op.response)
        else after[key].state == store[key].state)
    && (op.Claiming? && op.scope.key == key ==> output == Claimed(Answer(store[key], op.scope)))
  }

  lemma HeldStep(store: Store, op: Op, key: Key, requestSha256: string, until: int)
    requires Held(store, key, requestSha256, until) && Undisturbed([op], key, requestSha256, until)
    ensures KeepsHold(store, op, MemoryStep(store, op).0, MemoryStep(store, op).1, key, requestSha256, until)
    ensures KeepsHold(store, op, SqlStep(store, op).0, SqlStep(store, op).1, key, requestSha256, until)
  {
    assert [op][0] == op;
  }

  lemma {:induction false} HeldRun(store: Store, ops: seq<Op>, key: Key, requestSha256: string, until: int)
    requires Held(store, key, requestSha256, until) && Undisturbed(ops, key, requestSha256, until)
    ensures |MemoryRun(store, ops)| == |ops|
    ensures ClaimsAreGuarded(ops, MemoryRun(store, ops), key, requestSha256, store[key].state)
    ensures CompletesOnce(ops, MemoryRun(store, ops), key, store[key].state)
    decreases ops
  {
    RunLength(store, ops);
    if ops != [] {
      var op, rest := ops[0], ops[1..];
      var (after, output) := MemoryStep(store, op);
      RunLength(after, rest);
      assert Undisturbed([op], key, requestSha256, until) && Undisturbed(rest, key, requestSha256, until);
      hide MemoryStep, ClaimsAreGuarded, CompletesOnce;
      HeldStep(store, op, key, requestSha256, until);
      HeldRun(after, rest, key, requestSha256, until);
      Prepend(store, op, after, output, rest, MemoryRun(after, rest), key, requestSha256, until);
      assert ops == [op] + rest && MemoryRun(store, ops) == [output] + MemoryRun(after, rest);
    }
  }

  lemma {:induction false} SqlHeldRun(store: Store, ops: seq<Op>, key: Key, requestSha256: string, until: int)
    requires Held(store, key, requestSha256, until) && Undisturbed(ops, key, requestSha256, until)
    ensures |SqlRun(store, ops)| == |ops|
    ensures ClaimsAreGuarded(ops, SqlRun(store, ops), key, requestSha256, store[key].state)
    ensures CompletesOnce(ops, SqlRun(store, ops), key, store[key].state)
    decreases ops
  {
    RunLength(store, ops);
    if ops != [] {
      var op, rest := ops[0], ops[1..];
      var (after, output) := SqlStep(store, op);
      RunLength(after, rest);
      assert Undisturbed([op], key, requestSha256, until) && Undisturbed(rest, key, requestSha256, until);
      hide SqlStep, ClaimsAreGuarded, CompletesOnce;
      HeldStep(store, op, key, requestSha256, until);
      SqlHeldRun(after, rest, key, requestSha256, until);
      Prepend(store, op, after, output, rest, SqlRun(after, rest), key, requestSha256, until);
      assert ops == [op] + rest && SqlRun(store, ops) == [output] + SqlRun(after, rest);
    }
  }

  /** A step that keeps the hold, before a run that is guarded. */
  lemma Prepend(
    store: Store, op: Op, after: Store, output: Output, rest: seq<Op>, later: seq<Output>, key: Key,
    requestSha256: string, until: int)
    requires Held(store, key, requestSha256, until) && KeepsHold(store, op, after, output, key, requestSha256, until)
    requires |later| == |rest| && ClaimsAreGuarded(rest, later, key, requestSha256, after[key].state)
    requires CompletesOnce(rest, later, key, after[key].state)
    ensures ClaimsAreGuarded([op] + rest, [output] + later, key, requestSha256, store[key].state)
    ensures CompletesOnce([op] + rest, [output] + later, key, store[key].state)
  {
    hide ClaimsAreGuarded, CompletesOnce;
    PrependCompletion(op, output, rest, later, key, store[key].state, after[key].state);
    PrependClaim(op, output, rest, later, key, store[key], after[key].state);
  }

  lemma PrependCompletion(
    op: Op, output: Output, rest: seq<Op>, later: seq<Output>, key: Key, state: State, next: State)
    requires |later| == |rest| && CompletesOnce(rest, later, key, next)
    requires if Succeeds(op, output, key) then state == Processing && next.Finished? else next == state
    ensures CompletesOnce([op] + rest, [output] + later, key, state)
  {
    var ops, outputs := [op] + rest, [output] + later;
    forall i: nat | 0 < i < |ops|
      ensures SucceedsAt(ops, outputs, key, i) == SucceedsAt(rest, later, key, i - 1)
    {
    }
    assert SucceedsAt(ops, outputs, key, 0) == Succeeds(op, output, key);
  }

  lemma PrependClaim(
    op: Op, output: Output, rest: seq<Op>, later: seq<Output>, key: Key, held: Entry, next: State)
    requires |later| == |rest| && ClaimsAreGuarded(rest, later, key, held.requestSha256, next)
    requires if Succeeds(op, output, key) then held.state == Processing && next == Finished(op.response)
             else next == held.state
    requires op.Claiming? && op.scope.key == key ==> output == Claimed(Answer(held, op.scope))
    ensures ClaimsAreGuarded([op] + rest, [output] + later, key, held.requestSha256, held.state)
  {
    var ops, outputs := [op] + rest, [output] + later;
    forall i: nat | i < |ops| && ClaimsAt(ops, key, i)
      ensures ClaimIsGuarded(ops, outputs, key, held.requestSha256, held.state, i)
    {
      if i > 0 {
        assert ClaimsAt(rest, key, i - 1);
        assert ClaimIsGuarded(rest, later, key, held.requestSha256, next, i - 1);
        LaterClaim(op, output, rest, later, key, held, next, i);
      }
    }
  }

  lemma LaterClaim(
    op: Op, output: Output, rest: seq<Op>, later: seq<Output>, key: Key, held: Entry, next: State, i: nat)
    requires |later| == |rest| && 0 < i <= |rest| && ClaimIsGuarded(rest, later, key, held.requestSha256, next, i - 1)
    requires if Succeeds(op, output, key) then held.state == Processing && next == Finished(op.response)
             else next == held.state
    ensures ClaimIsGuarded([op] + rest, [output] + later, key, held.requestSha256, held.state, i)
  {
    var ops, outputs := [op] + rest, [output] + later;
    assert SucceedsAt(ops, outputs, key, 0) == Succeeds(op, output, key);
    forall j: nat | 0 < j < |ops|
      ensures SucceedsAt(ops, outputs, key, j) == SucceedsAt(rest, later, key, j - 1)
    {
    }
    assert FinishedBefore(ops, outputs, key, held.state, i) <==> FinishedBefore(rest, later, key, next, i - 1) by {
      if j :| 0 <= j < i - 1 && SucceedsAt(rest, later, key, j) {
        assert SucceedsAt(ops, outputs, key, j + 1);
      }
    }
    if outputs[i].claim.Replay? && held.state != Finished(outputs[i].claim.response) {
      if next == Finished(outputs[i].claim.response) {
        assert SucceedsAt(ops, outputs, key, 0) && ops[0].response == outputs[i].claim.response;
      } else {
        var j :| 0 <= j < i - 1 && SucceedsAt(rest, later, key, j) && rest[j].response == later[i - 1].claim.response;
        assert SucceedsAt(ops, outputs, key, j + 1) && ops[j + 1].response == outputs[i].claim.response;
      }
    }
  }

  /**
    From a new claim to its expiry, while it is neither released nor invalidated:
    no claim of the key is new again, a claim conflicts exactly when it is for
    another request, at most one completion succeeds, and from that completion on
    (and never before) a claim of the same request is a replay of its response.
  */
  lemma NewClaimIsExclusive(store: Store, scope: Scope, ops: seq<Op>)
    requires MemoryClaim(store, scope).1 == New
    requires Undisturbed(ops, scope.key, scope.requestSha256, scope.expiresAt)
    ensures var outputs := MemoryRun(MemoryClaim(store, scope).0, ops);
      && |outputs| == |ops|
      && ClaimsAreGuarded(ops, outputs, scope.key, scope.requestSha256, Processing)
      && CompletesOnce(ops, outputs, scope.key, Processing)
  {
    assert scope.key !in store || store[scope.key].expiresAt <= scope.now;
    hide ClaimsAreGuarded, CompletesOnce, Undisturbed;
    HeldRun(MemoryClaim(store, scope).0, ops, scope.key, scope.requestSha256, scope.expiresAt);
  }

  /** The SQL store gives the same guarantee, whatever becomes of other keys: a sweep leaves what has not expired. */
  lemma SqlNewClaimIsExclusive(store: Store, scope: Scope, ops: seq<Op>)
    requires SqlClaim(store, scope).1 == New
    requires Undisturbed(ops, scope.key, scope.requestSha256, scope.expiresAt)
    ensures var outputs := SqlRun(SqlClaim(store, scope).0, ops);
      && |outputs| == |ops|
      && ClaimsAreGuarded(ops, outputs, scope.key, scope.requestSha256, Processing)
      && CompletesOnce(ops, outputs, scope.key, Processing)
  {
    hide ClaimsAreGuarded, CompletesOnce, Undisturbed;
    assert SqlClaim(store, scope).0[scope.key] == Fresh(scope);
    SqlHeldRun(SqlClaim(store, scope).0, ops, scope.key, scope.requestSha256, scope.expiresAt);
  }
}
