/**
  The replacement of one document version's vectors: records are checked, then
  written in batches (lookup, upsert, classification), then stale rows go. Other
  transactions may commit between the statements, except to rows locked here.
*/
module TenantVectorRepository {
  import opened Wrappers
  import opened Identifiers
  import opened VectorTable

  const MAX_CHUNKS_PER_DOCUMENT: nat := 5000
  const VECTOR_WRITE_BATCH_SIZE: nat := 64

  datatype DocumentIdentity = DocumentIdentity(documentKey: string, documentTitle: string, documentVersion: string)

  datatype Engine = Engine(provider: string, model: string, dimension: nat)

  /** `columns` is what the field-by-field shape check makes of the record. */
  datatype Record = Record(
    chunkId: string, source: DocumentIdentity, engine: Engine, embedded: bool, failed: bool,
    columns: Result<Values, string>)

  datatype Error =
    | ScopeInvalid
    | DocumentIdentityInvalid
    | RecordCountInvalid
    | RecordScopeMismatch
    | DuplicateChunk
    | ShapeInvalid(code: string)
    | ChunkIdentityConflict

  datatype Counts = Counts(inserted: nat, updated: nat, unaltered: nat)

  datatype ReplaceResult = ReplaceResult(counts: Counts, deleted: nat)

  function Sum(c: Counts): nat { c.inserted + c.updated + c.unaltered }

  function Bump(c: Counts, existing: bool, written: bool): Counts {
    if written then
      if existing then c.(updated := c.updated + 1) else c.(inserted := c.inserted + 1)
    else c.(unaltered := c.unaltered + 1)
  }

  /** The counters after `batch`, each record judged against the one table `table`. */
  function Totals(c: Counts, table: Table, g: Generation, batch: seq<Prepared>): Counts {
    if batch == [] then c
    else
      var last := batch[|batch| - 1];
      Bump(Totals(c, table, g, batch[..|batch| - 1]), KeyOf(g, last) in table, Writes(table, g, last))
  }

  function Classified(c: Counts, existing: set<string>, written: set<string>, batch: seq<Prepared>): Counts {
    if batch == [] then c
    else
      var id := batch[|batch| - 1].chunkId;
      Bump(Classified(c, existing, written, batch[..|batch| - 1]), id in existing, id in written)
  }

  /** The prepared ids that had no row. */
  function NewIds(before: Table, g: Generation, ps: seq<Prepared>): set<string> {
    set p | p in ps && KeyOf(g, p) !in before :: p.chunkId
  }

  /** The prepared ids whose row is another afterwards. */
  function ChangedIds(before: Table, after: Table, g: Generation, ps: seq<Prepared>): set<string> {
    set p | p in ps && KeyOf(g, p) in before && !SameAt(before, after, g, p) :: p.chunkId
  }

  /** The prepared ids whose row is the same afterwards. */
  function SameIds(before: Table, after: Table, g: Generation, ps: seq<Prepared>): set<string> {
    set p | p in ps && KeyOf(g, p) in before && SameAt(before, after, g, p) :: p.chunkId
  }

  /** What became of the prepared rows between two states of the table. */
  function Changes(before: Table, after: Table, g: Generation, ps: seq<Prepared>): Counts {
    Counts(|NewIds(before, g, ps)|, |ChangedIds(before, after, g, ps)|, |SameIds(before, after, g, ps)|)
  }

  /** The whole replacement as one change of the table, with no batches in it. */
  function Replaced(table: Table, g: Generation, ps: seq<Prepared>): Table {
    WithoutStale(Upserted(table, g, ps), g)
  }

  function Outcome(table: Table, g: Generation, ps: seq<Prepared>): Result<ReplaceResult, Error> {
    if AnyRefused(table, g, ps) then Err(ChunkIdentityConflict)
    else Ok(ReplaceResult(Totals(Counts(0, 0, 0), table, g, ps), |StaleKeys(Upserted(table, g, ps), g)|))
  }

  /** The ids and the document identity have the form they must have. */
  predicate Admissible(identity: DocumentIdentity, version: string, job: string) {
    CanonicalUuid(version) && CanonicalUuid(job) && WellFormed(identity)
  }

  predicate WellFormed(identity: DocumentIdentity) {
    && SafeDocumentKey(identity.documentKey)
    && PlainText(identity.documentTitle, 1000)
    && PlainText(identity.documentVersion, 256)
  }

  /** Why the record at `i` is refused, if it is. */
  function Fault(records: seq<Record>, i: nat, identity: DocumentIdentity, engine: Engine): Option<Error>
    requires i < |records|
  {
    var r := records[i];
    if !r.embedded || r.failed || r.source != identity || r.engine != engine then Some(RecordScopeMismatch)
    else if exists j :: 0 <= j < i && records[j].chunkId == r.chunkId then Some(DuplicateChunk)
    else if r.columns.Err? then Some(ShapeInvalid(r.columns.error))
    else None
  }

  predicate Sound(records: seq<Record>, identity: DocumentIdentity, engine: Engine) {
    && 1 <= |records| <= MAX_CHUNKS_PER_DOCUMENT
    && forall i: nat :: i < |records| ==> Fault(records, i, identity, engine) == None
  }

  /** The error refused records are reported with: that of their number, or of the first refused one. */
  predicate FirstFault(records: seq<Record>, identity: DocumentIdentity, engine: Engine, error: Error) {
    if !(1 <= |records| <= MAX_CHUNKS_PER_DOCUMENT) then error == RecordCountInvalid
    else
      exists i: nat :: i < |records| && Fault(records, i, identity, engine) == Some(error)
                 && forall j: nat :: j < i ==> Fault(records, j, identity, engine) == None
  }

  /** The prepared rows of records none of which is refused. */
  predicate PreparedFrom(ps: seq<Prepared>, records: seq<Record>) {
    && |ps| == |records|
    && forall i :: 0 <= i < |ps| ==> records[i].columns == Ok(ps[i].values) && ps[i].chunkId == records[i].chunkId
  }

  /** Every row of the version, restricted to the current contract. */
  function VersionRows(table: Table, g: Generation): Table {
    map k | k in table && OfVersion(table, g, k) :: table[k]
  }

  /** The keys of the prepared rows. */
  function KeysOf(g: Generation, ps: seq<Prepared>): set<Key> {
    set p | p in ps :: KeyOf(g, p)
  }

  /** The table holds exactly the prepared row at each prepared key. */
  predicate Holds(table: Table, g: Generation, ps: seq<Prepared>) {
    forall p :: p in ps ==> KeyOf(g, p) in table && table[KeyOf(g, p)] == NewRow(g, p)
  }

  class Repository {
    const vectors: Vectors
    const tenant: Uuid
    const engine: Engine

    constructor (vectors: Vectors, tenant: Uuid, engine: Engine)
      ensures this.vectors == vectors && this.tenant == tenant && this.engine == engine
    {
      this.vectors := vectors;
      this.tenant := tenant;
      this.engine := engine;
    }

    /** The checks before any statement; the first refused record decides the error. */
    method Prepare(records: seq<Record>, identity: DocumentIdentity) returns (r: Result<seq<Prepared>, Error>)
      ensures r.Ok? <==> Sound(records, identity, engine)
      ensures r.Ok? ==> PreparedFrom(r.value, records) && Distinct(r.value)
      ensures r.Err? ==>
        FirstFault(records, identity, engine, r.error)
    {
      if |records| < 1 || |records| > MAX_CHUNKS_PER_DOCUMENT {
        return Err(RecordCountInvalid);
      }
      var chunkIds: set<string> := {};
      var prepared: seq<Prepared> := [];
      for n := 0 to |records|
        invariant forall i: nat :: i < n ==> Fault(records, i, identity, engine) == None
        invariant forall i :: 0 <= i < n ==> records[i].chunkId in chunkIds
        invariant forall id :: id in chunkIds ==> exists i :: 0 <= i < n && records[i].chunkId == id
        invariant PreparedFrom(prepared, records[..n])
      {
        var record := records[n];
        if !record.embedded || record.failed || record.source != identity || record.engine != engine {
          assert Fault(records, n, identity, engine) == Some(RecordScopeMismatch);
          return Err(RecordScopeMismatch);
        }
        if record.chunkId in chunkIds {
          assert Fault(records, n, identity, engine) == Some(DuplicateChunk);
          return Err(DuplicateChunk);
        }
        chunkIds := chunkIds + {record.chunkId};
        if record.columns.Err? {
          assert Fault(records, n, identity, engine) == Some(ShapeInvalid(record.columns.error));
          return Err(ShapeInvalid(record.columns.error));
        }
        prepared := prepared + [Prepared(record.chunkId, record.columns.value)];
      }
      assert records[..|records|] == records;
      forall i, j | 0 <= i < j < |prepared|
        ensures prepared[i].chunkId != prepared[j].chunkId
      {
        assert Fault(records, j, identity, engine) == None;
      }
      r := Ok(prepared);
    }

    /** The scan of the looked-up rows: stops at the first one bound elsewhere. */
    method CheckExisting(g: Generation, found: seq<Existing>) returns (bound: bool, ids: set<string>)
      ensures bound <==> forall e :: e in found ==> AsNamed(g, e.version, e.contract)
      ensures bound ==> forall id :: id in ids <==> exists e :: e in found && e.chunkId == id
    {
      ids := {};
      for n := 0 to |found|
        invariant forall i :: 0 <= i < n ==> AsNamed(g, found[i].version, found[i].contract)
        invariant ids == set e | e in found[..n] :: e.chunkId
      {
        if !AsNamed(g, found[n].version, found[n].contract) {
          return false, ids;
        }
        ids := ids + {found[n].chunkId};
        assert found[..n + 1] == found[..n] + [found[n]];
      }
      assert found[..|found|] == found;
      bound := true;
    }

    /** The counters of one batch; an id neither stored nor written is a concurrent conflict. */
    method Classify(counts: Counts, existing: set<string>, written: set<string>, batch: seq<Prepared>)
      returns (r: Result<Counts, Error>)
      ensures r.Ok? <==> forall p :: p in batch ==> p.chunkId in existing || p.chunkId in written
      ensures r.Ok? ==> r.value == Classified(counts, existing, written, batch) && Sum(r.value) == Sum(counts) + |batch|
      ensures r.Ok? && Distinct(batch) ==> Counted(counts, r.value, existing, written, IdsOf(batch))
      ensures r.Err? ==> r.error == ChunkIdentityConflict
    {
      hide Counted, Classified, Distinct, IdsOf;
      NothingClassified(counts, existing, written);
      var total := counts;
      for n := 0 to |batch|
        invariant forall i :: 0 <= i < n ==> batch[i].chunkId in existing || batch[i].chunkId in written
        invariant total == Classified(counts, existing, written, batch[..n])
        invariant Sum(total) == Sum(counts) + n
      {
        var id := batch[n].chunkId;
        ClassifyOne(counts, existing, written, batch, n);
        if id in written {
          if id in existing {
            total := total.(updated := total.updated + 1);
          } else {
            total := total.(inserted := total.inserted + 1);
          }
        } else if id in existing {
          total := total.(unaltered := total.unaltered + 1);
        } else {
          return Err(ChunkIdentityConflict);
        }
      }
      assert batch[..|batch|] == batch;
      if Distinct(batch) {
        ClassifiedCounts(counts, existing, written, batch);
      }
      r := Ok(total);
    }

    /** The lookup of a batch's rows, locking them, and what they say. */
    method LookUp(g: Generation, batch: seq<Prepared>) returns (bound: bool, ids: set<string>)
      ensures bound <==> !AnyRefused(vectors.rows, g, batch)
      ensures bound ==> forall p :: p in batch ==> (p.chunkId in ids <==> KeyOf(g, p) in vectors.rows)
      ensures bound ==> forall id :: id in ids ==>
        Key(g.tenant, id) in vectors.rows && InVersion(g, vectors.rows[Key(g.tenant, id)])
    {
      hide AnyRefused;
      var asked := seq(|batch|, i requires 0 <= i < |batch| => batch[i].chunkId);
      var found := vectors.LookupForUpdate(g.tenant, asked);
      bound, ids := CheckExisting(g, found);
      BoundIffNoneRefused(vectors.rows, g, batch, asked, found);
      LowerIsIdentityIff(g.named);
    }

    /** One batch. `theirs` is what other transactions commit between the lookup and the upsert. */
    method WriteBatch(g: Generation, batch: seq<Prepared>, counts: Counts, locked: set<Key>, theirs: Option<Table>)
      returns (r: Result<Counts, Error>)
      requires Distinct(batch) && locked !! KeysOf(g, batch)
      modifies vectors
      ensures r.Ok? ==> Holds(vectors.rows, g, batch) && Sum(r.value) == Sum(counts) + |batch|
      ensures forall k :: k in locked ==>
        && (k in vectors.rows <==> k in old(vectors.rows))
        && (k in vectors.rows ==> vectors.rows[k] == old(vectors.rows)[k])
      ensures r.Err? ==> r.error == ChunkIdentityConflict
      ensures theirs == None ==>
        && (r.Err? <==> AnyRefused(old(vectors.rows), g, batch))
        && (r.Ok? ==>
              && vectors.rows == Upserted(old(vectors.rows), g, batch)
              && r.value == Totals(counts, old(vectors.rows), g, batch))
    {
      hide Upserted, Totals, Classified, Writes, WrittenIds, AnyRefused, Counted;
      var bound, existing := LookUp(g, batch);
      if !bound {
        return Err(ChunkIdentityConflict);
      }
      var mine := locked + set id | id in existing :: Key(g.tenant, id);
      if theirs.Some? {
        vectors.CommitOthers(mine, theirs.value);
      }
      ghost var before := vectors.rows;
      var written := vectors.BatchUpsert(g, batch);
      var writtenIds := set id | id in written;
      assert writtenIds == WrittenIds(before, g, batch);
      r := Classify(counts, existing, writtenIds, batch);
      UpsertedWhenWritten(before, g, batch);
      if r.Ok? {
        forall p | p in batch
          ensures KeyOf(g, p) in vectors.rows && vectors.rows[KeyOf(g, p)] == NewRow(g, p)
        {
          if p.chunkId !in writtenIds {
            assert KeyOf(g, p) in mine && InVersion(g, before[KeyOf(g, p)]);
          }
        }
      }
      LockedAreKept(before, g, batch, locked);
      if theirs == None {
        AbsentAreWritten(before, g, batch);
        ClassifiedIsTotals(counts, before, g, batch, existing, writtenIds, batch);
      }
    }

    /** The batches, `batchSize` records at a time; `others[n]` is committed by others during the n-th. */
    method WriteBatches(g: Generation, prepared: seq<Prepared>, batchSize: nat, others: seq<Table>)
      returns (r: Result<Counts, Error>, batches: nat)
      requires Distinct(prepared) && 1 <= batchSize
      modifies vectors
      ensures r.Ok? ==> Holds(vectors.rows, g, prepared) && Sum(r.value) == |prepared|
      ensures r.Err? ==> r.error == ChunkIdentityConflict
      ensures others == [] ==>
        && (r.Err? <==> AnyRefused(old(vectors.rows), g, prepared))
        && (r.Ok? ==>
              && vectors.rows == Upserted(old(vectors.rows), g, prepared)
              && r.value == Totals(Counts(0, 0, 0), old(vectors.rows), g, prepared))
    {
      var counts := Counts(0, 0, 0);
      var start := 0;
      batches := 0;
      ghost var initial := vectors.rows;
      assert prepared[..0] == [];
      while start < |prepared|
        invariant 0 <= start <= |prepared|
        invariant Holds(vectors.rows, g, prepared[..start]) && Sum(counts) == start
        invariant others == [] ==> QuietProgress(initial, vectors.rows, g, prepared[..start], counts)
        decreases |prepared| - start
      {
        var end := if start + batchSize < |prepared| then start + batchSize else |prepared|;
        var done, batch := prepared[..start], prepared[start..end];
        assert prepared[..end] == done + batch;
        DisjointParts(g, prepared, start, end);
        ghost var before := vectors.rows;
        var written := WriteBatch(
          g, batch, counts, KeysOf(g, done), if batches < |others| then Some(others[batches]) else None);
        if others == [] {
          QuietStep(initial, before, g, prepared, start, end, counts);
        }
        if written.Err? {
          return written, batches;
        }
        HoldsAppend(before, vectors.rows, g, done, batch);
        counts := written.value;
        batches := batches + 1;
        start := end;
      }
      assert prepared[..start] == prepared;
      r := Ok(counts);
    }

    /** The whole call. Any error leaves the transaction to be rolled back by its owner. */
    method ReplaceDocumentVersion(
      records: seq<Record>, identity: DocumentIdentity, version: string, job: string, others: seq<Table>)
      returns (r: Result<ReplaceResult, Error>, ghost ps: seq<Prepared>)
      modifies vectors
      ensures !(CanonicalUuid(version) && CanonicalUuid(job)) ==> r == Err(ScopeInvalid)
      ensures CanonicalUuid(version) && CanonicalUuid(job) && !WellFormed(identity) ==> r == Err(DocumentIdentityInvalid)
      ensures !Admissible(identity, version, job) || !Sound(records, identity, engine) ==>
        r.Err? && vectors.rows == old(vectors.rows)
      ensures Admissible(identity, version, job) && !Sound(records, identity, engine) ==>
        FirstFault(records, identity, engine, r.error)
      ensures Admissible(identity, version, job) && Sound(records, identity, engine) ==>
        PreparedFrom(ps, records) && Distinct(ps)
      ensures r.Ok? ==>
        && Sound(records, identity, engine)
        && Sum(r.value.counts) == |records|
        && Holds(vectors.rows, Generation(tenant, version, Rendered(job)), ps)
        && StaleKeys(vectors.rows, Generation(tenant, version, Rendered(job))) == {}
      ensures Admissible(identity, version, job) && Sound(records, identity, engine) && others == [] ==>
        && r == Outcome(old(vectors.rows), Generation(tenant, version, Rendered(job)), ps)
        && (r.Ok? ==>
              && vectors.rows == Replaced(old(vectors.rows), Generation(tenant, version, Rendered(job)), ps)
              && r.value.counts == Changes(old(vectors.rows), vectors.rows, Generation(tenant, version, Rendered(job)), ps))
    {
      ps := [];
      if !CanonicalUuid(version) || !CanonicalUuid(job) {
        return Err(ScopeInvalid), [];
      }
      if !WellFormed(identity) {
        return Err(DocumentIdentityInvalid), [];
      }
      var prepared := Prepare(records, identity);
      if prepared.Err? {
        return Err(prepared.error), [];
      }
      ps := prepared.value;
      var g := Generation(tenant, version, Rendered(job));
      var written, batches := WriteBatches(g, prepared.value, VECTOR_WRITE_BATCH_SIZE, others);
      if written.Err? {
        return Err(written.error), ps;
      }
      if batches < |others| {
        vectors.CommitOthers(set p | p in prepared.value :: KeyOf(g, p), others[batches]);
        assert Holds(vectors.rows, g, ps) by {
          assert forall p :: p in ps ==> KeyOf(g, p) in KeysOf(g, ps);
        }
      }
      assert forall p :: p in ps ==> !Stale(vectors.rows, g, KeyOf(g, p));
      ghost var full := vectors.rows;
      var deleted := vectors.DeleteStale(g);
      r := Ok(ReplaceResult(written.value, deleted));
      if others == [] {
        TotalsAreChanges(old(vectors.rows), g, ps);
        DeletingKeepsChanges(old(vectors.rows), full, vectors.rows, g, ps);
      }
    }
  }

  lemma BoundIffNoneRefused(table: Table, g: Generation, batch: seq<Prepared>, ids: seq<string>, found: seq<Existing>)
    requires |ids| == |batch| && forall i :: 0 <= i < |batch| ==> ids[i] == batch[i].chunkId
    requires forall e :: e in found ==>
      && e.chunkId in ids
      && Key(g.tenant, e.chunkId) in table
      && e == Existing(e.chunkId, table[Key(g.tenant, e.chunkId)].version, table[Key(g.tenant, e.chunkId)].contract)
    requires forall id :: id in ids && Key(g.tenant, id) in table ==> exists e :: e in found && e.chunkId == id
    ensures (forall e :: e in found ==> AsNamed(g, e.version, e.contract)) <==> !AnyRefused(table, g, batch)
    ensures forall p :: p in batch ==> (KeyOf(g, p) in table <==> exists e :: e in found && e.chunkId == p.chunkId)
  {
    forall p | p in batch
      ensures KeyOf(g, p) in table <==> exists e :: e in found && e.chunkId == p.chunkId
      ensures Refuses(table, g, p) ==> exists e :: e in found && !AsNamed(g, e.version, e.contract)
    {
      assert p.chunkId in ids;
    }
    forall e | e in found && !AsNamed(g, e.version, e.contract)
      ensures AnyRefused(table, g, batch)
    {
      var i :| 0 <= i < |ids| && ids[i] == e.chunkId;
      assert Refuses(table, g, batch[i]);
    }
  }

  /** After the upsert a row it wrote, or found bound to the version, is the prepared one. */
  lemma UpsertedWhenWritten(table: Table, g: Generation, batch: seq<Prepared>)
    requires Distinct(batch)
    ensures forall p :: p in batch ==> KeyOf(g, p) in Upserted(table, g, batch)
    ensures forall p :: p in batch ==>
      p.chunkId in WrittenIds(table, g, batch) || (KeyOf(g, p) in table && InVersion(g, table[KeyOf(g, p)])) ==>
        Upserted(table, g, batch)[KeyOf(g, p)] == NewRow(g, p)
  {
    UpsertedAt(table, g, batch);
    hide Upserted, WrittenIds;
    forall p | p in batch
      ensures p.chunkId in WrittenIds(table, g, batch) <==> Writes(table, g, p)
    {
      WrittenIffWrites(table, g, batch, p);
    }
  }

  lemma AbsentAreWritten(table: Table, g: Generation, batch: seq<Prepared>)
    ensures forall p :: p in batch && KeyOf(g, p) !in table ==> p.chunkId in WrittenIds(table, g, batch)
  {
    assert forall p :: p in batch && KeyOf(g, p) !in table ==> Writes(table, g, p);
  }

  lemma LockedAreKept(table: Table, g: Generation, batch: seq<Prepared>, locked: set<Key>)
    requires Distinct(batch) && locked !! KeysOf(g, batch)
    ensures forall k :: k in locked ==>
      && (k in Upserted(table, g, batch) <==> k in table)
      && (k in table ==> Upserted(table, g, batch)[k] == table[k])
  {
    UpsertedAt(table, g, batch);
    forall k | k in locked
      ensures k.tenant != g.tenant || k.chunkId !in IdsOf(batch)
    {
      assert k.tenant == g.tenant && k.chunkId in IdsOf(batch) ==> k in KeysOf(g, batch);
    }
  }

  lemma WrittenIffWrites(table: Table, g: Generation, batch: seq<Prepared>, p: Prepared)
    requires Distinct(batch) && p in batch
    ensures p.chunkId in WrittenIds(table, g, batch) <==> Writes(table, g, p)
  {
    if p.chunkId in WrittenIds(table, g, batch) {
      var q :| q in batch && Writes(table, g, q) && q.chunkId == p.chunkId;
      assert q == p;
    }
  }

  lemma {:induction false} ClassifiedIsTotals(
    c: Counts, table: Table, g: Generation, batch: seq<Prepared>, existing: set<string>, written: set<string>,
    part: seq<Prepared>)
    requires Distinct(batch) && written == WrittenIds(table, g, batch)
    requires forall p :: p in batch ==> (p.chunkId in existing <==> KeyOf(g, p) in table)
    requires forall p :: p in part ==> p in batch
    ensures Classified(c, existing, written, part) == Totals(c, table, g, part)
  {
    if part != [] {
      ClassifiedIsTotals(c, table, g, batch, existing, written, part[..|part| - 1]);
      WrittenIffWrites(table, g, batch, part[|part| - 1]);
    }
  }

  /** From `c` to `r` the ids count as inserted if written and new, updated if written and stored, else as unchanged. */
  predicate Counted(c: Counts, r: Counts, existing: set<string>, written: set<string>, ids: set<string>) {
    && r.inserted == c.inserted + |ids * (written - existing)|
    && r.updated == c.updated + |ids * (written * existing)|
    && r.unaltered == c.unaltered + |ids - written|
  }

  lemma NothingClassified(c: Counts, existing: set<string>, written: set<string>)
    ensures Classified(c, existing, written, []) == c
  {
  }

  lemma ClassifyOne(c: Counts, existing: set<string>, written: set<string>, batch: seq<Prepared>, n: nat)
    requires n < |batch|
    ensures Classified(c, existing, written, batch[..n + 1])
         == Bump(Classified(c, existing, written, batch[..n]), batch[n].chunkId in existing, batch[n].chunkId in written)
  {
    assert batch[..n + 1][..n] == batch[..n];
  }

  lemma {:induction false} ClassifiedCounts(c: Counts, existing: set<string>, written: set<string>, batch: seq<Prepared>)
    requires Distinct(batch)
    ensures Counted(c, Classified(c, existing, written, batch), existing, written, IdsOf(batch))
  {
    if batch == [] {
      NoIds(existing, written);
    } else {
      hide Distinct, IdsOf, Counted, Bump;
      var front, id := batch[..|batch| - 1], batch[|batch| - 1].chunkId;
      ClassifiedCounts(c, existing, written, front);
      LastId(batch);
      CountedStep(c, Classified(c, existing, written, front), existing, written, IdsOf(front), id);
    }
  }

  lemma CountedStep(c: Counts, r: Counts, existing: set<string>, written: set<string>, ids: set<string>, id: string)
    requires Counted(c, r, existing, written, ids) && id !in ids
    ensures Counted(c, Bump(r, id in existing, id in written), existing, written, ids + {id})
  {
    OneMoreWithin(ids, id, written - existing);
    OneMoreWithin(ids, id, written * existing);
    OneMoreOutside(ids, id, written);
  }

  lemma NoIds(existing: set<string>, written: set<string>)
    ensures IdsOf([]) * (written - existing) == {} && IdsOf([]) * (written * existing) == {}
    ensures IdsOf([]) - written == {}
  {
  }

  lemma OneMoreWithin(ids: set<string>, id: string, within: set<string>)
    requires id !in ids
    ensures |(ids + {id}) * within| == |ids * within| + if id in within then 1 else 0
  {
    assert (ids + {id}) * within == if id in within then ids * within + {id} else ids * within;
  }

  lemma OneMoreOutside(ids: set<string>, id: string, within: set<string>)
    requires id !in ids
    ensures |(ids + {id}) - within| == |ids - within| + if id in within then 0 else 1
  {
    assert (ids + {id}) - within == if id in within then ids - within else ids - within + {id};
  }

  lemma LastId(batch: seq<Prepared>)
    requires batch != [] && Distinct(batch)
    ensures var front, id := batch[..|batch| - 1], batch[|batch| - 1].chunkId;
      Distinct(front) && id !in IdsOf(front) && IdsOf(batch) == IdsOf(front) + {id}
  {
    var front, last := batch[..|batch| - 1], batch[|batch| - 1];
    assert batch == front + [last];
    assert forall p :: p in batch <==> p in front || p == last;
  }

  /** The counters of a pass say what became of the rows. */
  lemma TotalsAreChanges(table: Table, g: Generation, ps: seq<Prepared>)
    requires Distinct(ps)
    ensures Totals(Counts(0, 0, 0), table, g, ps) == Changes(table, Upserted(table, g, ps), g, ps)
  {
    var existing := set p | p in ps && KeyOf(g, p) in table :: p.chunkId;
    var written := WrittenIds(table, g, ps);
    StoredIds(table, g, ps, existing);
    WrittenRowsChange(table, g, ps);
    hide Upserted, Totals, Classified, WrittenIds, SameAt, Distinct, IdsOf, NewIds, ChangedIds, SameIds;
    ClassifiedIsTotals(Counts(0, 0, 0), table, g, ps, existing, written, ps);
    ClassifiedCounts(Counts(0, 0, 0), existing, written, ps);
    IdSets(table, Upserted(table, g, ps), g, ps, existing, written);
  }

  lemma StoredIds(table: Table, g: Generation, ps: seq<Prepared>, existing: set<string>)
    requires existing == set p | p in ps && KeyOf(g, p) in table :: p.chunkId
    ensures forall p :: p in ps ==> (p.chunkId in existing <==> KeyOf(g, p) in table)
  {
  }

  lemma WrittenRowsChange(table: Table, g: Generation, ps: seq<Prepared>)
    requires Distinct(ps)
    ensures forall p :: p in ps ==>
      (p.chunkId in WrittenIds(table, g, ps)
       <==> KeyOf(g, p) !in table || !SameAt(table, Upserted(table, g, ps), g, p))
  {
    UpsertedAt(table, g, ps);
    hide Upserted, WrittenIds;
    forall p | p in ps
      ensures p.chunkId in WrittenIds(table, g, ps)
         <==> KeyOf(g, p) !in table || !SameAt(table, Upserted(table, g, ps), g, p)
    {
      WrittenIffWrites(table, g, ps, p);
    }
  }

  lemma IdSets(
    before: Table, after: Table, g: Generation, ps: seq<Prepared>, existing: set<string>, written: set<string>)
    requires forall p :: p in ps ==> (p.chunkId in existing <==> KeyOf(g, p) in before)
    requires forall p :: p in ps ==> (p.chunkId in written <==> KeyOf(g, p) !in before || !SameAt(before, after, g, p))
    ensures NewIds(before, g, ps) == IdsOf(ps) * (written - existing)
    ensures ChangedIds(before, after, g, ps) == IdsOf(ps) * (written * existing)
    ensures SameIds(before, after, g, ps) == IdsOf(ps) - written
  {
    hide SameAt;
  }

  /** The stale delete does not touch prepared rows. */
  lemma DeletingKeepsChanges(before: Table, full: Table, after: Table, g: Generation, ps: seq<Prepared>)
    requires Holds(full, g, ps) && after == WithoutStale(full, g)
    ensures Changes(before, after, g, ps) == Changes(before, full, g, ps)
  {
    forall p | p in ps
      ensures SameAt(before, after, g, p) <==> SameAt(before, full, g, p)
    {
      assert !Stale(full, g, KeyOf(g, p));
    }
    hide SameAt;
    assert ChangedIds(before, after, g, ps) == ChangedIds(before, full, g, ps);
    assert SameIds(before, after, g, ps) == SameIds(before, full, g, ps);
  }

  /** A record meets the scope of the call and the shape of a row. */
  predicate Meets(r: Record, identity: DocumentIdentity, engine: Engine) {
    && r.embedded && !r.failed
    && r.source.documentKey == identity.documentKey
    && r.source.documentTitle == identity.documentTitle
    && r.source.documentVersion == identity.documentVersion
    && r.engine.provider == engine.provider && r.engine.model == engine.model && r.engine.dimension == engine.dimension
  }

  /** Records pass exactly when they are 1 to 5000, each meets the scope and shape, and no id comes twice. */
  lemma SoundIff(records: seq<Record>, identity: DocumentIdentity, engine: Engine)
    ensures Sound(records, identity, engine) <==>
      && 1 <= |records| <= 5000
      && (forall i :: 0 <= i < |records| ==> Meets(records[i], identity, engine) && records[i].columns.Ok?)
      && forall i, j :: 0 <= i < j < |records| ==> records[i].chunkId != records[j].chunkId
  {
    forall i: nat | i < |records|
      ensures Fault(records, i, identity, engine) == None <==>
        && Meets(records[i], identity, engine) && records[i].columns.Ok?
        && forall j :: 0 <= j < i ==> records[j].chunkId != records[i].chunkId
    {
    }
  }

  /** Which fault a record has: scope before duplicate before shape. */
  lemma FaultIs(records: seq<Record>, i: nat, identity: DocumentIdentity, engine: Engine)
    requires i < |records|
    ensures Fault(records, i, identity, engine) == Some(RecordScopeMismatch) <==> !Meets(records[i], identity, engine)
    ensures Fault(records, i, identity, engine) == Some(DuplicateChunk) <==>
      Meets(records[i], identity, engine) && exists j :: 0 <= j < i && records[j].chunkId == records[i].chunkId
  {
  }

  lemma DisjointParts(g: Generation, prepared: seq<Prepared>, start: nat, end: nat)
    requires Distinct(prepared) && start <= end <= |prepared|
    ensures Distinct(prepared[start..end]) && Distinct(prepared[..start])
    ensures KeysOf(g, prepared[..start]) !! KeysOf(g, prepared[start..end])
    ensures IdsOf(prepared[..start]) !! IdsOf(prepared[start..end])
  {
  }

  /** A later batch is judged the same against the table before the first batch. */
  lemma BatchAgainstInitial(table: Table, g: Generation, c: Counts, done: seq<Prepared>, batch: seq<Prepared>)
    requires Distinct(done) && IdsOf(done) !! IdsOf(batch)
    ensures AnyRefused(Upserted(table, g, done), g, batch) == AnyRefused(table, g, batch)
    ensures Totals(c, Upserted(table, g, done), g, batch) == Totals(c, table, g, batch)
  {
    UpsertedAt(table, g, done);
    forall p | p in batch
      ensures SameAt(Upserted(table, g, done), table, g, p)
    {
      assert p.chunkId in IdsOf(batch);
    }
    TotalsDependOnTheirRows(c, Upserted(table, g, done), table, g, batch);
  }

  /** Undisturbed, the table and counters after a part are what one pass over it gives. */
  predicate QuietProgress(initial: Table, rows: Table, g: Generation, done: seq<Prepared>, counts: Counts) {
    && !AnyRefused(initial, g, done)
    && rows == Upserted(initial, g, done)
    && counts == Totals(Counts(0, 0, 0), initial, g, done)
  }

  lemma QuietStep(
    initial: Table, rows: Table, g: Generation, prepared: seq<Prepared>, start: nat, end: nat, counts: Counts)
    requires Distinct(prepared) && start <= end <= |prepared|
    requires QuietProgress(initial, rows, g, prepared[..start], counts)
    ensures AnyRefused(rows, g, prepared[start..end]) ==> AnyRefused(initial, g, prepared)
    ensures !AnyRefused(rows, g, prepared[start..end]) ==>
      QuietProgress(
        initial, Upserted(rows, g, prepared[start..end]), g, prepared[..end], Totals(counts, rows, g, prepared[start..end]))
  {
    var done, batch := prepared[..start], prepared[start..end];
    assert prepared[..end] == done + batch;
    DisjointParts(g, prepared, start, end);
    BatchAgainstInitial(initial, g, counts, done, batch);
    UpsertedAppend(initial, g, done, batch);
    TotalsAppend(Counts(0, 0, 0), initial, g, done, batch);
    if AnyRefused(rows, g, batch) {
      var p :| p in batch && Refuses(initial, g, p);
      assert p in prepared;
    }
  }

  lemma HoldsAppend(before: Table, after: Table, g: Generation, done: seq<Prepared>, batch: seq<Prepared>)
    requires Holds(before, g, done) && Holds(after, g, batch)
    requires forall k :: k in KeysOf(g, done) ==>
      && (k in after <==> k in before)
      && (k in after ==> after[k] == before[k])
    ensures Holds(after, g, done + batch)
  {
    forall p | p in done + batch
      ensures KeyOf(g, p) in after && after[KeyOf(g, p)] == NewRow(g, p)
    {
      if p !in batch {
        assert KeyOf(g, p) in KeysOf(g, done);
      }
    }
  }

  predicate SameAt(left: Table, right: Table, g: Generation, p: Prepared) {
    && (KeyOf(g, p) in left <==> KeyOf(g, p) in right)
    && (KeyOf(g, p) in left ==> left[KeyOf(g, p)] == right[KeyOf(g, p)])
  }

  lemma {:induction false} TotalsDependOnTheirRows(
    c: Counts, left: Table, right: Table, g: Generation, batch: seq<Prepared>)
    requires forall p :: p in batch ==> SameAt(left, right, g, p)
    ensures Totals(c, left, g, batch) == Totals(c, right, g, batch)
    decreases batch
  {
    if batch != [] {
      TotalsDependOnTheirRows(c, left, right, g, batch[..|batch| - 1]);
      assert SameAt(left, right, g, batch[|batch| - 1]);
    }
  }

  lemma {:induction false} TotalsAppend(
    c: Counts, table: Table, g: Generation, left: seq<Prepared>, right: seq<Prepared>)
    ensures Totals(c, table, g, left + right) == Totals(Totals(c, table, g, left), table, g, right)
    decreases right
  {
    if right == [] {
      assert left + right == left;
    } else {
      var init := right[..|right| - 1];
      assert (left + right)[..|left + right| - 1] == left + init;
      TotalsAppend(c, table, g, left, init);
    }
  }
}
