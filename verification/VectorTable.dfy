/**
  The table of stored vectors, with the three statements the tenant repository
  sends to it. A row's remaining columns are one comparable value.
*/
module VectorTable {
  import opened Wrappers
  import opened Identifiers

  type Values = string

  datatype Key = Key(tenant: Uuid, chunkId: string)

  datatype Row = Row(version: Option<Uuid>, job: Option<Uuid>, contract: int, values: Values)

  type Table = map<Key, Row>

  /** One job's rewrite of one document version of one tenant; the caller may name the version in any case. */
  datatype Generation = Generation(tenant: Uuid, named: string, job: Uuid) {
    function Version(): Uuid { Rendered(named) }
  }

  datatype Prepared = Prepared(chunkId: string, values: Values)

  /** What a lookup returns of a stored row. */
  datatype Existing = Existing(chunkId: string, version: Option<Uuid>, contract: int)

  function NewRow(g: Generation, p: Prepared): Row {
    Row(Some(g.Version()), Some(g.job), 1, p.values)
  }

  function KeyOf(g: Generation, p: Prepared): Key {
    Key(g.tenant, p.chunkId)
  }

  predicate Distinct(batch: seq<Prepared>) {
    forall i, j :: 0 <= i < j < |batch| ==> batch[i].chunkId != batch[j].chunkId
  }

  function IdsOf(batch: seq<Prepared>): set<string> {
    set p | p in batch :: p.chunkId
  }

  /** The row is bound to the version under the current contract. */
  predicate InVersion(g: Generation, row: Row) {
    row.version == Some(g.Version()) && row.contract == 1
  }

  predicate OfVersion(table: Table, g: Generation, k: Key) {
    k in table && k.tenant == g.tenant && InVersion(g, table[k])
  }

  /** The conditional upsert writes (inserts or changes) the row of `p`. */
  predicate Writes(table: Table, g: Generation, p: Prepared) {
    KeyOf(g, p) in table ==>
      var row := table[KeyOf(g, p)];
      InVersion(g, row) && (row.job != Some(g.job) || row.values != p.values)
  }

  /** The stored row of `p` is bound to another version or contract. */
  predicate Conflicts(table: Table, g: Generation, p: Prepared) {
    KeyOf(g, p) in table && !InVersion(g, table[KeyOf(g, p)])
  }

  /** The row is bound to the version under the very name the caller gave it. */
  predicate AsNamed(g: Generation, version: Option<Uuid>, contract: int) {
    version.Some? && version.value == g.named && contract == 1
  }

  /** The stored row of `p` does not carry the version as the caller named it. */
  predicate Refuses(table: Table, g: Generation, p: Prepared) {
    KeyOf(g, p) in table && !AsNamed(g, table[KeyOf(g, p)].version, table[KeyOf(g, p)].contract)
  }

  predicate AnyRefused(table: Table, g: Generation, batch: seq<Prepared>) {
    exists p :: p in batch && Refuses(table, g, p)
  }

  /** A name in lower case is compared as the version itself; under any other name every stored row is refused. */
  lemma RefusesIff(table: Table, g: Generation, p: Prepared)
    ensures Refuses(table, g, p) <==> KeyOf(g, p) in table && (IsLower(g.named) ==> Conflicts(table, g, p))
  {
    LowerIsIdentityIff(g.named);
  }

  /** Records that are not refused meet no row of another version. */
  lemma NoneRefusedNoConflict(table: Table, g: Generation, batch: seq<Prepared>)
    ensures AnyRefused(table, g, batch) <==>
      AnyConflict(table, g, batch) || (!IsLower(g.named) && exists p :: p in batch && KeyOf(g, p) in table)
  {
    forall p | p in batch
      ensures Refuses(table, g, p) <==> KeyOf(g, p) in table && (IsLower(g.named) ==> Conflicts(table, g, p))
    {
      RefusesIff(table, g, p);
    }
  }

  predicate AnyConflict(table: Table, g: Generation, batch: seq<Prepared>) {
    exists p :: p in batch && Conflicts(table, g, p)
  }

  /** The ids `RETURNING` reports: those whose row is written. */
  function WrittenIds(table: Table, g: Generation, batch: seq<Prepared>): set<string> {
    set p | p in batch && Writes(table, g, p) :: p.chunkId
  }

  lemma WrittenIdsSnoc(table: Table, g: Generation, init: seq<Prepared>, last: Prepared)
    ensures WrittenIds(table, g, init + [last])
         == WrittenIds(table, g, init) + if Writes(table, g, last) then {last.chunkId} else {}
  {
    assert forall p :: p in init + [last] <==> p in init || p == last;
  }

  function UpsertOne(table: Table, g: Generation, p: Prepared): Table {
    if Writes(table, g, p) then table[KeyOf(g, p) := NewRow(g, p)] else table
  }

  function Upserted(table: Table, g: Generation, batch: seq<Prepared>): Table {
    if batch == [] then table
    else UpsertOne(Upserted(table, g, batch[..|batch| - 1]), g, batch[|batch| - 1])
  }

  /** A row the stale delete removes. */
  predicate Stale(table: Table, g: Generation, k: Key) {
    OfVersion(table, g, k) && table[k].job != Some(g.job)
  }

  function StaleKeys(table: Table, g: Generation): set<Key> {
    set k | k in table && Stale(table, g, k)
  }

  function WithoutStale(table: Table, g: Generation): Table {
    table - StaleKeys(table, g)
  }

  /** What the table holds once other transactions commit `theirs`; the locked rows are ours. */
  function Overlay(table: Table, locked: set<Key>, theirs: Table): Table {
    (theirs - locked) + (table - (table.Keys - locked))
  }

  /** Upserts act on each row by itself: distinct ids never meet. */
  lemma {:induction false} UpsertedAt(table: Table, g: Generation, batch: seq<Prepared>)
    requires Distinct(batch)
    ensures forall i :: 0 <= i < |batch| ==> var p := batch[i];
      && KeyOf(g, p) in Upserted(table, g, batch)
      && Upserted(table, g, batch)[KeyOf(g, p)] == if Writes(table, g, p) then NewRow(g, p) else table[KeyOf(g, p)]
    ensures forall k: Key :: k.tenant != g.tenant || k.chunkId !in IdsOf(batch) ==>
      && (k in Upserted(table, g, batch) <==> k in table)
      && (k in table ==> Upserted(table, g, batch)[k] == table[k])
  {
    if batch != [] {
      var init, last := batch[..|batch| - 1], batch[|batch| - 1];
      UpsertedAt(table, g, init);
      assert last.chunkId !in IdsOf(init);
      var before := Upserted(table, g, init);
      assert Writes(before, g, last) == Writes(table, g, last);
      forall i | 0 <= i < |batch|
        ensures var p := batch[i];
          && KeyOf(g, p) in Upserted(table, g, batch)
          && Upserted(table, g, batch)[KeyOf(g, p)] == if Writes(table, g, p) then NewRow(g, p) else table[KeyOf(g, p)]
      {
        if i < |init| {
          assert batch[i] == init[i];
        }
      }
      forall k: Key | k.tenant != g.tenant || k.chunkId !in IdsOf(batch)
        ensures k in Upserted(table, g, batch) <==> k in table
        ensures k in table ==> Upserted(table, g, batch)[k] == table[k]
      {
        assert last.chunkId in IdsOf(batch);
        assert k.chunkId in IdsOf(init) ==> k.chunkId in IdsOf(batch);
      }
    }
  }

  lemma {:induction false} UpsertedAppend(table: Table, g: Generation, left: seq<Prepared>, right: seq<Prepared>)
    ensures Upserted(table, g, left + right) == Upserted(Upserted(table, g, left), g, right)
    decreases right
  {
    if right == [] {
      assert left + right == left;
    } else {
      var init := right[..|right| - 1];
      assert (left + right)[..|left + right| - 1] == left + init;
      UpsertedAppend(table, g, left, init);
    }
  }

  lemma NothingUpserted(table: Table, g: Generation)
    ensures Upserted(table, g, []) == table && WrittenIds(table, g, []) == {}
  {
  }

  /** One row more: it is judged as it would be against the table before the statement. */
  lemma UpsertStep(table: Table, g: Generation, batch: seq<Prepared>, n: nat)
    requires Distinct(batch) && n < |batch|
    ensures var before := Upserted(table, g, batch[..n]);
      && Upserted(table, g, batch[..n + 1])
         == (if Writes(before, g, batch[n]) then before[KeyOf(g, batch[n]) := NewRow(g, batch[n])] else before)
      && WrittenIds(table, g, batch[..n + 1])
         == WrittenIds(table, g, batch[..n]) + (if Writes(before, g, batch[n]) then {batch[n].chunkId} else {})
      && batch[n].chunkId !in WrittenIds(table, g, batch[..n])
  {
    UpsertedAt(table, g, batch[..n]);
    assert batch[n].chunkId !in IdsOf(batch[..n]);
    assert batch[..n + 1] == batch[..n] + [batch[n]];
    WrittenIdsSnoc(table, g, batch[..n], batch[n]);
  }

  class Vectors {
    var rows: Table

    constructor (rows: Table)
      ensures this.rows == rows
    {
      this.rows := rows;
    }

    /** `SELECT ... WHERE chunk_id = ANY(ids) FOR UPDATE`: each stored row once, in no promised order. */
    method LookupForUpdate(tenant: Uuid, ids: seq<string>) returns (found: seq<Existing>)
      ensures forall e :: e in found ==>
        && e.chunkId in ids
        && Key(tenant, e.chunkId) in rows
        && e == Existing(e.chunkId, rows[Key(tenant, e.chunkId)].version, rows[Key(tenant, e.chunkId)].contract)
      ensures forall id :: id in ids && Key(tenant, id) in rows ==> exists e :: e in found && e.chunkId == id
      ensures forall i, j :: 0 <= i < j < |found| ==> found[i].chunkId != found[j].chunkId
    {
      found := [];
      var seen: set<string> := {};
      for n := 0 to |ids|
        invariant forall e :: e in found ==>
          && e.chunkId in ids
          && Key(tenant, e.chunkId) in rows
          && e == Existing(e.chunkId, rows[Key(tenant, e.chunkId)].version, rows[Key(tenant, e.chunkId)].contract)
        invariant forall i :: 0 <= i < |found| ==> found[i].chunkId in seen
        invariant forall id :: id in seen ==> exists e :: e in found && e.chunkId == id
        invariant forall i :: 0 <= i < n && Key(tenant, ids[i]) in rows ==> ids[i] in seen
        invariant forall i, j :: 0 <= i < j < |found| ==> found[i].chunkId != found[j].chunkId
      {
        var key := Key(tenant, ids[n]);
        if key in rows && ids[n] !in seen {
          var existing := Existing(ids[n], rows[key].version, rows[key].contract);
          ghost var before := found;
          found := found + [existing];
          assert existing in found && forall e :: e in before ==> e in found;
          seen := seen + {ids[n]};
        }
      }
    }

    /** `INSERT ... ON CONFLICT DO UPDATE ... WHERE ... RETURNING chunk_id`. */
    method BatchUpsert(g: Generation, batch: seq<Prepared>) returns (written: seq<string>)
      requires Distinct(batch)
      modifies this
      ensures rows == Upserted(old(rows), g, batch)
      ensures forall id :: id in written <==> id in WrittenIds(old(rows), g, batch)
      ensures forall i, j :: 0 <= i < j < |written| ==> written[i] != written[j]
    {
      hide Upserted, WrittenIds, Writes;
      written := [];
      NothingUpserted(rows, g);
      for n := 0 to |batch|
        invariant rows == Upserted(old(rows), g, batch[..n])
        invariant forall id :: id in written <==> id in WrittenIds(old(rows), g, batch[..n])
        invariant forall i, j :: 0 <= i < j < |written| ==> written[i] != written[j]
      {
        UpsertStep(old(rows), g, batch, n);
        if Writes(rows, g, batch[n]) {
          rows := rows[KeyOf(g, batch[n]) := NewRow(g, batch[n])];
          written := written + [batch[n].chunkId];
        }
      }
      assert batch[..|batch|] == batch;
    }

    /** `DELETE ... WHERE ... ingestion_job_id IS DISTINCT FROM job`; the count is the statement's row count. */
    method DeleteStale(g: Generation) returns (count: nat)
      modifies this
      ensures rows == WithoutStale(old(rows), g)
      ensures count == |StaleKeys(old(rows), g)|
    {
      var stale := StaleKeys(rows, g);
      rows := rows - stale;
      count := |stale|;
    }

    /** Other transactions commit; the rows this transaction locked or wrote are out of their reach. */
    method CommitOthers(locked: set<Key>, theirs: Table)
      modifies this
      ensures forall k :: k in locked ==>
        && (k in rows <==> k in old(rows))
        && (k in rows ==> rows[k] == old(rows)[k])
      ensures forall k :: k !in locked ==> (k in rows <==> k in theirs) && (k in rows ==> rows[k] == theirs[k])
    {
      rows := Overlay(rows, locked, theirs);
    }
  }
}
