/** From plan to stored rows: what the indexer prepares, the tenant repository accepts and keeps. */
module PlannedReplacement {
  import opened Wrappers
  import opened Identifiers
  import Text
  import Normalize
  import opened ChunkIdentity
  import opened ChunkPlanner
  import ChunkCoverage
  import EmbeddingStore
  import opened Indexer
  import opened VectorTable
  import Tenant = TenantVectorRepository
  import GenerationReplacement

  /** What becomes of a record in the field-by-field shape check. */
  type Shape = EmbeddingStore.Record -> Result<Values, string>

  /** An embedded record as the tenant repository sees it. */
  function Leased(record: EmbeddingStore.Record, shape: Shape): Tenant.Record {
    var source := record.chunk.source;
    Tenant.Record(
      record.chunk.chunkId, Tenant.DocumentIdentity(source.documentKey, source.documentTitle, source.documentVersion),
      Tenant.Engine(record.provider, record.model, record.dimension), true, false, shape(record))
  }

  function AllLeased(records: seq<EmbeddingStore.Record>, shape: Shape): seq<Tenant.Record> {
    seq(|records|, i requires 0 <= i < |records| => Leased(records[i], shape))
  }

  /** The records of a document whose preparation succeeds. */
  function RecordsOf(
    hash: string -> string, document: Document, input: PlanInput, provider: Provider, options: IndexOptions,
    indexedAt: string): (records: seq<EmbeddingStore.Record>)
    requires Succeeds(hash, document, input, provider, options)
  {
    var plan := FullPlan(hash, document, input, options.planner);
    VectorsPerText(provider, TextsOf(plan), options.batchSize, 0);
    MakeRecords(provider, plan, BatchVectors(provider, TextsOf(plan), options.batchSize, 0).value, indexedAt)
  }

  /** Validation refuses a plan only over a citation label: no planned text is blank. */
  lemma {:induction false} OnlyLabelsAreRefused(
    hash: string -> string, document: Document, input: PlanInput, o: Options)
    requires ValidOptions(o)
    ensures var plan := FullPlan(hash, document, input, o);
      AllValid(plan) <==> forall i :: 0 <= i < |plan| ==> TextOrEmpty(plan[i].source.citationLabel) != ""
  {
    ChunkCoverage.PlannedChunksAreGood(hash, document, input, o);
    hide FullPlan, Text.Trim, Normalize.Normalized;
    var plan := FullPlan(hash, document, input, o);
    assert forall i :: 0 <= i < |plan| ==> (ValidChunk(plan[i]) <==> TextOrEmpty(plan[i].source.citationLabel) != "");
  }

  /** The document and the engine the records of a plan are checked against. */
  function IdentityOf(document: Document, input: PlanInput): Tenant.DocumentIdentity {
    Tenant.DocumentIdentity(input.documentKey, document.title, input.documentVersion)
  }

  function EngineOf(provider: Provider): Tenant.Engine {
    Tenant.Engine(provider.name, provider.model, provider.dimensions)
  }

  /**
    Prepared records are never refused as duplicates or as out of scope: the
    repository accepts them exactly when the document has something in it and
    each record passes the shape check.
  */
  lemma PreparedAreAcceptedIff(
    hash: string -> string, document: Document, input: PlanInput, provider: Provider, options: IndexOptions,
    indexedAt: string, shape: Shape)
    requires CollisionFree(hash) && Succeeds(hash, document, input, provider, options)
    ensures var records := RecordsOf(hash, document, input, provider, options, indexedAt);
      Tenant.Sound(AllLeased(records, shape), IdentityOf(document, input), EngineOf(provider)) <==>
        && (exists i :: 0 <= i < |document.sections| && Normalize.Normalized(document.sections[i].text) != "")
        && forall i :: 0 <= i < |records| ==> shape(records[i]).Ok?
    ensures var leased := AllLeased(RecordsOf(hash, document, input, provider, options, indexedAt), shape);
      forall i: nat :: i < |leased| ==>
        var fault := Tenant.Fault(leased, i, IdentityOf(document, input), EngineOf(provider));
        fault == None || fault.value.ShapeInvalid?
  {
    hide FullPlan, BatchVectors, AllValid, Text.Trim, Normalize.Normalized, RecordsOf, Tenant.Fault;
    ChunkCoverage.PlannedChunksAreGood(hash, document, input, options.planner);
    RecordsFollowThePlan(hash, document, input, provider, options, indexedAt);
    var records := RecordsOf(hash, document, input, provider, options, indexedAt);
    forall i: nat | i < |records|
      ensures Tenant.Fault(AllLeased(records, shape), i, IdentityOf(document, input), EngineOf(provider))
           == if shape(records[i]).Ok? then None else Some(Tenant.ShapeInvalid(shape(records[i]).error))
    {
      PreparedFault(hash, document, input, provider, options, indexedAt, shape, i);
    }
  }

  /** The only fault of a prepared record is one of its shape. */
  lemma PreparedFault(
    hash: string -> string, document: Document, input: PlanInput, provider: Provider, options: IndexOptions,
    indexedAt: string, shape: Shape, i: nat)
    requires CollisionFree(hash) && Succeeds(hash, document, input, provider, options)
    requires i < |RecordsOf(hash, document, input, provider, options, indexedAt)|
    ensures var records := RecordsOf(hash, document, input, provider, options, indexedAt);
      Tenant.Fault(AllLeased(records, shape), i, IdentityOf(document, input), EngineOf(provider))
      == if shape(records[i]).Ok? then None else Some(Tenant.ShapeInvalid(shape(records[i]).error))
  {
    hide FullPlan, BatchVectors, AllValid, Text.Trim, Normalize.Normalized, RecordsOf;
    ChunkCoverage.PlannedChunksAreGood(hash, document, input, options.planner);
    PlanIsNumberedAndDistinct(hash, document, input, options.planner);
    RecordsFollowThePlan(hash, document, input, provider, options, indexedAt);
    hide Succeeds, CollisionFree;
    var leased := AllLeased(RecordsOf(hash, document, input, provider, options, indexedAt), shape);
    assert forall j :: 0 <= j < i ==> leased[j].chunkId != leased[i].chunkId;
  }

  lemma RecordsFollowThePlan(
    hash: string -> string, document: Document, input: PlanInput, provider: Provider, options: IndexOptions,
    indexedAt: string)
    requires Succeeds(hash, document, input, provider, options)
    ensures var records := RecordsOf(hash, document, input, provider, options, indexedAt);
      var plan := FullPlan(hash, document, input, options.planner);
      && |records| == |plan|
      && forall i :: 0 <= i < |records| ==>
           && records[i].chunk == plan[i] && records[i].provider == provider.name
           && records[i].model == provider.model && records[i].dimension == provider.dimensions
  {
    hide FullPlan, BatchVectors, AllValid;
  }

  function PlanKeys(tenant: Uuid, plan: seq<Chunk>): set<Key> {
    set chunk | chunk in plan :: Key(tenant, chunk.chunkId)
  }

  /**
    Once such records have replaced a version under a job that left nothing
    else behind, the version's rows are the plan: its chunk ids and no others, each
    row bound to the version and job with what the shape check made of its record.
  */
  lemma StoredVersionIsThePlan(
    hash: string -> string, document: Document, input: PlanInput, provider: Provider, options: IndexOptions,
    indexedAt: string, shape: Shape, table: Table, g: Generation, ps: seq<Prepared>)
    requires Succeeds(hash, document, input, provider, options)
    requires Tenant.PreparedFrom(ps, AllLeased(RecordsOf(hash, document, input, provider, options, indexedAt), shape))
    requires Distinct(ps) && !AnyConflict(table, g, ps) && GenerationReplacement.NoLeftovers(table, g, ps)
    ensures Tenant.VersionRows(Tenant.Replaced(table, g, ps), g).Keys
         == PlanKeys(g.tenant, FullPlan(hash, document, input, options.planner))
    ensures var plan := FullPlan(hash, document, input, options.planner);
      var records := RecordsOf(hash, document, input, provider, options, indexedAt);
      var rows := Tenant.VersionRows(Tenant.Replaced(table, g, ps), g);
      forall i :: 0 <= i < |plan| ==>
        && i < |records| && shape(records[i]).Ok?
        && Key(g.tenant, plan[i].chunkId) in rows
        && rows[Key(g.tenant, plan[i].chunkId)] == Row(Some(g.Version()), Some(g.job), 1, shape(records[i]).value)
  {
    hide RecordsOf, FullPlan, BatchVectors, AllValid, Tenant.Replaced, GenerationReplacement.NoLeftovers, AnyConflict;
    RecordsFollowThePlan(hash, document, input, provider, options, indexedAt);
    GenerationReplacement.ReplacementIsExactIff(table, g, ps);
    assert GenerationReplacement.PreparedRows(g, ps).Keys == Tenant.KeysOf(g, ps);
    var plan := FullPlan(hash, document, input, options.planner);
    SameIdsSameKeys(g, ps, plan);
    forall i | 0 <= i < |plan|
      ensures Key(g.tenant, plan[i].chunkId) in GenerationReplacement.PreparedRows(g, ps)
      ensures GenerationReplacement.PreparedRows(g, ps)[Key(g.tenant, plan[i].chunkId)] == NewRow(g, ps[i])
    {
      GenerationReplacement.PreparedRowsAt(g, ps, ps[i]);
    }
  }

  lemma SameIdsSameKeys(g: Generation, ps: seq<Prepared>, plan: seq<Chunk>)
    requires |ps| == |plan| && forall i :: 0 <= i < |ps| ==> ps[i].chunkId == plan[i].chunkId
    ensures Tenant.KeysOf(g, ps) == PlanKeys(g.tenant, plan)
  {
    forall k
      ensures k in Tenant.KeysOf(g, ps) <==> k in PlanKeys(g.tenant, plan)
    {
      if k in Tenant.KeysOf(g, ps) {
        var i :| 0 <= i < |ps| && KeyOf(g, ps[i]) == k;
        assert plan[i] in plan;
      }
      if k in PlanKeys(g.tenant, plan) {
        var i :| 0 <= i < |plan| && Key(g.tenant, plan[i].chunkId) == k;
        assert ps[i] in ps;
      }
    }
  }
}
