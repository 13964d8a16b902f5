/** Embedding a planned document in batches, and storing the result. */
module Indexer {
  import opened Wrappers
  import Text
  import opened ChunkIdentity
  import opened ChunkPlanner
  import ChunkPacking
  import opened EmbeddingStore

  const MAX_CHUNKS_PER_DOCUMENT: nat := 5000
  const MAX_EMBEDDING_BATCH_SIZE: nat := 64

  datatype Failure =
    | PlanFailed(error: PlanError)
    | ResourcePolicy
    | ChunkLimitExceeded
    | InvalidChunkText
    | MissingCitationLabel
    | VectorCountMismatch
    | DimensionMismatch
    | ProviderFailed(message: string)
    | StoreFailed(message: string)

  /** A provider; its answer may depend on how many calls came before. */
  datatype Provider = Provider(
    name: string, model: string, dimensions: nat, embed: (nat, seq<string>) -> Result<seq<Vector>, string>)

  datatype IndexOptions = IndexOptions(planner: Options, maxChunks: int, batchSize: int)

  datatype PreparedEmbeddings = PreparedEmbeddings(
    plannedCount: nat, records: seq<Record>, failedCount: nat, failures: seq<Failure>)

  datatype IndexResult = IndexResult(
    plannedCount: nat, embedded: nat, inserted: nat, updated: nat, unaltered: nat, failedCount: nat,
    failures: seq<Failure>)

  function TextsOf(chunks: seq<Chunk>): (texts: seq<string>)
    ensures |texts| == |chunks|
  {
    seq(|chunks|, i requires 0 <= i < |chunks| => chunks[i].text)
  }

  predicate GoodOptions(options: IndexOptions) {
    && 1 <= options.maxChunks <= MAX_CHUNKS_PER_DOCUMENT
    && 1 <= options.batchSize <= MAX_EMBEDDING_BATCH_SIZE
    && ValidOptions(options.planner)
  }

  /** A chunk that passes validation. */
  predicate ValidChunk(chunk: Chunk) {
    Text.Trim(chunk.text) != "" && TextOrEmpty(chunk.source.citationLabel) != ""
  }

  predicate Refused(chunk: Chunk, failure: Failure) {
    !ValidChunk(chunk) && failure == if Text.Trim(chunk.text) == "" then InvalidChunkText else MissingCitationLabel
  }

  predicate AllValid(chunks: seq<Chunk>) {
    forall i :: 0 <= i < |chunks| ==> ValidChunk(chunks[i])
  }

  /** What one call comes to: the vectors, if there is one for each text and all have the provider's dimension. */
  function Reply(provider: Provider, call: nat, texts: seq<string>): Result<seq<Vector>, Failure> {
    var answer := provider.embed(call, texts);
    if answer.Err? then Err(ProviderFailed(answer.error))
    else if |answer.value| != |texts| then Err(VectorCountMismatch)
    else if exists i :: 0 <= i < |answer.value| && |answer.value[i]| != provider.dimensions then Err(DimensionMismatch)
    else Ok(answer.value)
  }

  /** The vectors of the texts, asked for in batches, or the failure of the first batch that fails. */
  function BatchVectors(provider: Provider, texts: seq<string>, batchSize: nat, call: nat)
    : Result<seq<Vector>, Failure>
    requires 1 <= batchSize
    decreases |texts|
  {
    if texts == [] then Ok([])
    else
      Joined(Reply(provider, call, Take(texts, batchSize)),
             BatchVectors(provider, Drop(texts, batchSize), batchSize, call + 1))
  }

  function Joined(reply: Result<seq<Vector>, Failure>, later: Result<seq<Vector>, Failure>)
    : Result<seq<Vector>, Failure>
  {
    if reply.Err? || later.Err? then (if reply.Err? then reply else later) else Ok(reply.value + later.value)
  }

  function Drop<T>(s: seq<T>, n: nat): seq<T> {
    if n < |s| then s[n..] else []
  }

  function MakeRecord(provider: Provider, chunk: Chunk, vector: Vector, indexedAt: string): Record {
    Record(chunk, vector, provider.model, provider.name, provider.dimensions, indexedAt)
  }

  function MakeRecords(provider: Provider, chunks: seq<Chunk>, vectors: seq<Vector>, indexedAt: string): seq<Record>
    requires |chunks| == |vectors|
  {
    seq(|chunks|, i requires 0 <= i < |chunks| => MakeRecord(provider, chunks[i], vectors[i], indexedAt))
  }

  /** Record `i` holds chunk `i` with vector `i`, the provider's names and the time of indexing. */
  predicate Paired(
    records: seq<Record>, chunks: seq<Chunk>, vectors: seq<Vector>, provider: Provider, indexedAt: string)
  {
    && |records| == |chunks| == |vectors|
    && forall i :: 0 <= i < |records| ==>
         && records[i].chunk == chunks[i]
         && records[i].embedding == vectors[i]
         && records[i].model == provider.model
         && records[i].provider == provider.name
         && records[i].dimension == provider.dimensions
         && records[i].indexedAt == indexedAt
  }

  lemma MadeArePaired(provider: Provider, chunks: seq<Chunk>, vectors: seq<Vector>, indexedAt: string)
    requires |chunks| == |vectors|
    ensures Paired(MakeRecords(provider, chunks, vectors, indexedAt), chunks, vectors, provider, indexedAt)
  {
  }

  lemma {:induction false} VectorsPerText(provider: Provider, texts: seq<string>, batchSize: nat, call: nat)
    requires 1 <= batchSize
    ensures var v := BatchVectors(provider, texts, batchSize, call); v.Ok? ==> |v.value| == |texts|
    decreases |texts|
  {
    if texts != [] {
      VectorsPerText(provider, Drop(texts, batchSize), batchSize, call + 1);
    }
  }

  method ValidateChunks(chunks: seq<Chunk>) returns (failure: Option<Failure>)
    ensures failure == None <==> AllValid(chunks)
    ensures failure.Some? ==> FirstRefused(chunks, failure.value)
  {
    for n := 0 to |chunks|
      invariant AllValid(chunks[..n])
    {
      if Text.Trim(chunks[n].text) == "" {
        return Some(InvalidChunkText);
      }
      if TextOrEmpty(chunks[n].source.citationLabel) == "" {
        return Some(MissingCitationLabel);
      }
    }
    assert chunks[..|chunks|] == chunks;
    failure := None;
  }

  /** One batch, and then the rest. */
  lemma NextBatch(provider: Provider, texts: seq<string>, batchSize: nat, call: nat, start: nat)
    requires 1 <= batchSize && start < |texts|
    ensures BatchVectors(provider, Drop(texts, start), batchSize, call)
         == Joined(Reply(provider, call, BatchFrom(texts, batchSize, start)),
                   BatchVectors(provider, Drop(texts, start + batchSize), batchSize, call + 1))
  {
    hide Reply, Joined;
    assert Drop(texts, start) != [] && Drop(Drop(texts, start), batchSize) == Drop(texts, start + batchSize);
  }

  /** Where the batch `n` starts, counting from none. */
  function BatchStart(batchSize: nat, n: nat): nat { n * batchSize }

  lemma FirstStart(batchSize: nat)
    ensures BatchStart(batchSize, 0) == 0
  {
  }

  lemma NextStart(batchSize: nat, n: nat)
    ensures BatchStart(batchSize, n + 1) == BatchStart(batchSize, n) + batchSize
  {
  }

  function BatchFrom(texts: seq<string>, batchSize: nat, start: nat): seq<string> {
    Take(Drop(texts, start), batchSize)
  }

  lemma NoBatches(provider: Provider, texts: seq<string>, batchSize: nat, start: nat, call: nat)
    requires 1 <= batchSize && |texts| <= start
    ensures BatchVectors(provider, Drop(texts, start), batchSize, call) == Ok([])
  {
  }

  lemma JoinedPrefix(vectors: seq<Vector>, reply: Result<seq<Vector>, Failure>, later: Result<seq<Vector>, Failure>)
    ensures reply.Ok? ==> Joined(Ok(vectors), Joined(reply, later)) == Joined(Ok(vectors + reply.value), later)
    ensures reply.Err? ==> Joined(Ok(vectors), Joined(reply, later)) == reply
  {
    if reply.Ok? && later.Ok? {
      assert vectors + (reply.value + later.value) == (vectors + reply.value) + later.value;
    }
  }

  /** The answer to one batch, checked. */
  method AskOnce(provider: Provider, call: nat, batch: seq<string>) returns (r: Result<seq<Vector>, Failure>)
    ensures r == Reply(provider, call, batch)
    ensures var answer := provider.embed(call, batch);
      && (r.Ok? <==>
            && answer.Ok? && |answer.value| == |batch|
            && forall i :: 0 <= i < |batch| ==> |answer.value[i]| == provider.dimensions)
      && (r.Ok? ==> r == Ok(answer.value))
      && (answer.Err? ==> r == Err(ProviderFailed(answer.error)))
      && (answer.Ok? && |answer.value| != |batch| ==> r == Err(VectorCountMismatch))
  {
    var answer := provider.embed(call, batch);
    if answer.Err? {
      return Err(ProviderFailed(answer.error));
    }
    if |answer.value| != |batch| {
      return Err(VectorCountMismatch);
    }
    for i := 0 to |answer.value|
      invariant forall k :: 0 <= k < i ==> |answer.value[k]| == provider.dimensions
    {
      if |answer.value[i]| != provider.dimensions {
        return Err(DimensionMismatch);
      }
    }
    r := Ok(answer.value);
  }

  /**
    The batches in order, up to the first that fails; `asked` holds those that
    were sent to the provider.
  */
  method EmbedBatches(provider: Provider, texts: seq<string>, batchSize: nat)
    returns (r: Result<seq<Vector>, Failure>, ghost asked: seq<seq<string>>)
    requires 1 <= batchSize
    ensures r == BatchVectors(provider, texts, batchSize, 0)
    ensures forall n :: 0 <= n < |asked| ==> asked[n] == BatchFrom(texts, batchSize, BatchStart(batchSize, n))
    ensures forall n :: 0 <= n < |asked| - 1 ==> Reply(provider, n, asked[n]).Ok?
    ensures if r.Ok? then
              && |texts| <= BatchStart(batchSize, |asked|)
              && (asked != [] ==> BatchStart(batchSize, |asked| - 1) < |texts|)
            else asked != [] && Reply(provider, |asked| - 1, asked[|asked| - 1]) == Err(r.error)
  {
    hide BatchVectors, Reply, Joined, BatchStart, BatchFrom, Drop;
    var vectors: seq<Vector> := [];
    var start, call: nat := 0, 0;
    asked := [];
    FirstStart(batchSize);
    DropNothing(texts);
    NothingJoined(BatchVectors(provider, texts, batchSize, 0));
    while start < |texts|
      invariant start == BatchStart(batchSize, call) && call == |asked|
      invariant call > 0 ==> BatchStart(batchSize, call - 1) < |texts|
      invariant forall n :: 0 <= n < call ==> asked[n] == BatchFrom(texts, batchSize, BatchStart(batchSize, n))
      invariant forall n :: 0 <= n < call ==> Reply(provider, n, asked[n]).Ok?
      invariant BatchVectors(provider, texts, batchSize, 0)
             == Joined(Ok(vectors), BatchVectors(provider, Drop(texts, start), batchSize, call))
      decreases |texts| - start
    {
      var batch := BatchFrom(texts, batchSize, start);
      NextBatch(provider, texts, batchSize, call, start);
      var reply := AskOnce(provider, call, batch);
      asked := asked + [batch];
      JoinedPrefix(vectors, reply, BatchVectors(provider, Drop(texts, start + batchSize), batchSize, call + 1));
      if reply.Err? {
        return reply, asked;
      }
      vectors := vectors + reply.value;
      NextStart(batchSize, call);
      start := start + batchSize;
      call := call + 1;
    }
    NoBatches(provider, texts, batchSize, start, call);
    OnlyPrefix(vectors);
    r := Ok(vectors);
  }

  lemma DropNothing(texts: seq<string>)
    ensures Drop(texts, 0) == texts
  {
  }

  lemma NothingJoined(r: Result<seq<Vector>, Failure>)
    ensures Joined(Ok([]), r) == r
  {
    assert r.Ok? ==> [] + r.value == r.value;
  }

  lemma OnlyPrefix(vectors: seq<Vector>)
    ensures Joined(Ok(vectors), Ok([])) == Ok(vectors)
  {
    assert vectors + [] == vectors;
  }

  /** All checks passed and every batch was answered in full. */
  predicate Succeeds(
    hash: string -> string, document: Document, input: PlanInput, provider: Provider, options: IndexOptions)
  {
    && GoodOptions(options)
    && var plan := FullPlan(hash, document, input, options.planner);
    && |plan| <= options.maxChunks
    && AllValid(plan)
    && BatchVectors(provider, TextsOf(plan), options.batchSize, 0).Ok?
  }

  /** The first check that fails, and how many chunks had been planned by then. */
  ghost predicate FailsWith(
    hash: string -> string, document: Document, input: PlanInput, provider: Provider, options: IndexOptions,
    plannedCount: nat, failure: Failure)
  {
    if !(1 <= options.maxChunks <= MAX_CHUNKS_PER_DOCUMENT && 1 <= options.batchSize <= MAX_EMBEDDING_BATCH_SIZE) then
      plannedCount == 0 && failure == ResourcePolicy
    else if !ValidOptions(options.planner) then plannedCount == 0 && failure == PlanFailed(PlannerPolicyInvalid)
    else
      var plan := FullPlan(hash, document, input, options.planner);
      if options.maxChunks < |plan| then plannedCount == options.maxChunks + 1 && failure == ChunkLimitExceeded
      else
        && plannedCount == |plan|
        && if !AllValid(plan) then FirstRefused(plan, failure)
           else BatchVectors(provider, TextsOf(plan), options.batchSize, 0) == Err(failure)
  }

  /** The first chunk that does not pass is refused for this. */
  ghost predicate FirstRefused(chunks: seq<Chunk>, failure: Failure) {
    exists i :: 0 <= i < |chunks| && AllValid(chunks[..i]) && Refused(chunks[i], failure)
  }

  method PrepareDocumentEmbeddings(
    hash: string -> string, document: Document, input: PlanInput, provider: Provider, options: IndexOptions,
    indexedAt: string)
    returns (r: PreparedEmbeddings)
    ensures r.failures == [] <==> Succeeds(hash, document, input, provider, options)
    ensures r.failures == [] ==>
      var plan := FullPlan(hash, document, input, options.planner);
      var vectors := BatchVectors(provider, TextsOf(plan), options.batchSize, 0).value;
      && r.plannedCount == |plan| == |vectors|
      && r.failedCount == 0
      && r.records == MakeRecords(provider, plan, vectors, indexedAt)
      && Paired(r.records, plan, vectors, provider, indexedAt)
    ensures r.failures != [] ==>
      && r.records == [] && r.failedCount == r.plannedCount && |r.failures| == 1
      && FailsWith(hash, document, input, provider, options, r.plannedCount, r.failures[0])
  {
    hide FullPlan, BatchVectors, ValidChunk, AllValid, FirstRefused, Paired, MakeRecords, TextsOf;
    if !(1 <= options.maxChunks <= MAX_CHUNKS_PER_DOCUMENT && 1 <= options.batchSize <= MAX_EMBEDDING_BATCH_SIZE) {
      return PreparedEmbeddings(0, [], 0, [ResourcePolicy]);
    }
    var planned := PlanChunks(hash, document, input, options.planner, options.maxChunks);
    if planned.Err? {
      return PreparedEmbeddings(0, [], 0, [PlanFailed(planned.error)]);
    }
    var chunks := planned.value;
    if |chunks| > options.maxChunks {
      return PreparedEmbeddings(|chunks|, [], |chunks|, [ChunkLimitExceeded]);
    }
    var invalid := ValidateChunks(chunks);
    if invalid.Some? {
      return PreparedEmbeddings(|chunks|, [], |chunks|, [invalid.value]);
    }
    var vectors, _ := EmbedBatches(provider, TextsOf(chunks), options.batchSize);
    if vectors.Err? {
      return PreparedEmbeddings(|chunks|, [], |chunks|, [vectors.error]);
    }
    VectorsPerText(provider, TextsOf(chunks), options.batchSize, 0);
    MadeArePaired(provider, chunks, vectors.value, indexedAt);
    r := PreparedEmbeddings(|chunks|, MakeRecords(provider, chunks, vectors.value, indexedAt), 0, []);
  }

  datatype Tally = Tally(inserted: nat, updated: nat, unaltered: nat)

  function Count(tally: Tally, outcome: WriteResult): Tally {
    match outcome
    case Inserted => tally.(inserted := tally.inserted + 1)
    case Updated => tally.(updated := tally.updated + 1)
    case Unaltered => tally.(unaltered := tally.unaltered + 1)
  }

  function WriteAll(store: Records, records: seq<Record>): Records {
    if records == [] then store
    else Written(WriteAll(store, records[..|records| - 1]), records[|records| - 1])
  }

  function Tallied(store: Records, records: seq<Record>): Tally {
    if records == [] then Tally(0, 0, 0)
    else
      var before := records[..|records| - 1];
      Count(Tallied(store, before), WriteOutcome(WriteAll(store, before), records[|records| - 1]))
  }

  lemma NothingWritten(store: Records)
    ensures WriteAll(store, []) == store && Tallied(store, []) == Tally(0, 0, 0)
  {
  }

  lemma OneMoreWritten(store: Records, records: seq<Record>, n: nat)
    requires n < |records|
    ensures var before := WriteAll(store, records[..n]);
      && WriteAll(store, records[..n + 1]) == Written(before, records[n])
      && Tallied(store, records[..n + 1]) == Count(Tallied(store, records[..n]), WriteOutcome(before, records[n]))
  {
    hide Written, WriteOutcome;
    var part := records[..n + 1];
    assert part[..|part| - 1] == records[..n] && part[|part| - 1] == records[n];
  }

  /** How many of `count` records are written when the store fails at write `outage.value.0`, if at any. */
  function WrittenBefore(outage: Option<(nat, string)>, count: nat): nat {
    if outage.Some? && outage.value.0 < count then outage.value.0 else count
  }

  /** `outage` is the write at which the store fails, and its message; the in-memory store has none. */
  method IndexDocument(
    hash: string -> string, document: Document, input: PlanInput, provider: Provider,
    repository: InMemoryEmbeddingRepository, options: IndexOptions, indexedAt: string, outage: Option<(nat, string)>)
    returns (r: IndexResult, ghost records: seq<Record>)
    modifies repository
    ensures r.embedded == r.inserted + r.updated + r.unaltered
    ensures Succeeds(hash, document, input, provider, options) ==>
      var plan := FullPlan(hash, document, input, options.planner);
      var vectors := BatchVectors(provider, TextsOf(plan), options.batchSize, 0).value;
      var written := WrittenBefore(outage, |plan|);
      && |vectors| == |plan|
      && records == MakeRecords(provider, plan, vectors, indexedAt)
      && Paired(records, plan, vectors, provider, indexedAt)
      && r.plannedCount == |plan| && r.embedded == written
      && repository.records == WriteAll(old(repository.records), records[..written])
      && Tally(r.inserted, r.updated, r.unaltered) == Tallied(old(repository.records), records[..written])
      && (if written < |plan| then r.failedCount == |plan| && r.failures == [StoreFailed(outage.value.1)]
          else r.failedCount == 0 && r.failures == [])
    ensures !Succeeds(hash, document, input, provider, options) ==>
      && r.embedded == 0 && repository.records == old(repository.records) && |r.failures| == 1
      && r.failedCount == r.plannedCount
      && FailsWith(hash, document, input, provider, options, r.plannedCount, r.failures[0])
  {
    hide FullPlan, BatchVectors, AllValid, WriteAll, Tallied, Written, WriteOutcome;
    var prepared := PrepareDocumentEmbeddings(hash, document, input, provider, options, indexedAt);
    records := prepared.records;
    if prepared.failures != [] {
      return IndexResult(prepared.plannedCount, 0, 0, 0, 0, prepared.failedCount, prepared.failures), records;
    }
    var tally, embedded := Tally(0, 0, 0), 0;
    var failedCount, failures := prepared.failedCount, prepared.failures;
    NothingWritten(repository.records);
    while embedded < |prepared.records|
      invariant embedded <= WrittenBefore(outage, |prepared.records|)
      invariant repository.records == WriteAll(old(repository.records), prepared.records[..embedded])
      invariant tally == Tallied(old(repository.records), prepared.records[..embedded])
      invariant tally.inserted + tally.updated + tally.unaltered == embedded
      invariant failedCount == 0 && failures == []
    {
      if outage.Some? && outage.value.0 == embedded {
        failedCount := prepared.plannedCount;
        failures := failures + [StoreFailed(outage.value.1)];
        break;
      }
      OneMoreWritten(old(repository.records), prepared.records, embedded);
      var outcome := repository.Upsert(prepared.records[embedded]);
      embedded := embedded + 1;
      tally := Count(tally, outcome);
    }
    r := IndexResult(
      prepared.plannedCount, embedded, tally.inserted, tally.updated, tally.unaltered, failedCount, failures);
  }

  // ---- batching ---------------------------------------------------------------------------------------------------

  /** The provider embeds each text by itself, and never fails. */
  ghost predicate Pointwise(provider: Provider, f: string -> Vector) {
    && (forall text :: |f(text)| == provider.dimensions)
    && forall call, texts :: provider.embed(call, texts) == Ok(Each(f, texts))
  }

  function Each(f: string -> Vector, texts: seq<string>): seq<Vector> {
    seq(|texts|, i requires 0 <= i < |texts| => f(texts[i]))
  }

  /** Batching a pointwise provider is one big call: each text keeps its own vector. */
  lemma {:induction false} BatchingIsOneCall(
    provider: Provider, f: string -> Vector, texts: seq<string>, batchSize: nat, call: nat)
    requires Pointwise(provider, f) && 1 <= batchSize
    ensures BatchVectors(provider, texts, batchSize, call) == Ok(Each(f, texts))
    decreases |texts|
  {
    hide Pointwise, Each, Reply, BatchVectors;
    assert Drop(texts, 0) == texts;
    if texts == [] {
      NoBatches(provider, texts, batchSize, 0, call);
      EachOfNothing(f);
    } else {
      var batch, rest := BatchFrom(texts, batchSize, 0), Drop(texts, batchSize);
      assert texts == batch + rest;
      NextBatch(provider, texts, batchSize, call, 0);
      PointwiseAnswers(provider, f, call, batch);
      BatchingIsOneCall(provider, f, rest, batchSize, call + 1);
      EachAppend(f, batch, rest);
    }
  }

  /** Each record of a document embedded by a pointwise provider has the vector of its own chunk's text. */
  lemma {:induction false} RecordsHaveTheirOwnVectors(
    hash: string -> string, document: Document, input: PlanInput, provider: Provider, f: string -> Vector,
    options: IndexOptions, indexedAt: string)
    requires Pointwise(provider, f) && Succeeds(hash, document, input, provider, options)
    ensures var plan := FullPlan(hash, document, input, options.planner);
      var vectors := BatchVectors(provider, TextsOf(plan), options.batchSize, 0).value;
      && |vectors| == |plan|
      && var records := MakeRecords(provider, plan, vectors, indexedAt);
         forall i :: 0 <= i < |plan| ==>
           records[i].chunk == plan[i] && records[i].embedding == f(plan[i].text) && records[i].indexedAt == indexedAt
  {
    hide FullPlan, BatchVectors, AllValid, Pointwise;
    BatchingIsOneCall(
      provider, f, TextsOf(FullPlan(hash, document, input, options.planner)), options.batchSize, 0);
  }

  lemma EachOfNothing(f: string -> Vector)
    ensures Each(f, []) == []
  {
  }

  lemma PointwiseAnswers(provider: Provider, f: string -> Vector, call: nat, texts: seq<string>)
    requires Pointwise(provider, f)
    ensures Reply(provider, call, texts) == Ok(Each(f, texts))
  {
    assert provider.embed(call, texts) == Ok(Each(f, texts));
  }

  lemma EachAppend(f: string -> Vector, a: seq<string>, b: seq<string>)
    ensures Each(f, a + b) == Each(f, a) + Each(f, b)
  {
  }

  // ---- indexing twice ---------------------------------------------------------------------------------------------

  predicate DistinctIds(records: seq<Record>) {
    forall i, j :: 0 <= i < j < |records| ==> records[i].chunk.chunkId != records[j].chunk.chunkId
  }

  /** The second batch of records says the same as the first, perhaps at another time. */
  predicate SameRecords(records: seq<Record>, again: seq<Record>) {
    |records| == |again| && forall i :: 0 <= i < |records| ==> SameContent(records[i], again[i])
  }

  // ---- what the tally counts --------------------------------------------------------------------------------------

  function RecordIds(records: seq<Record>): set<string> {
    set i | 0 <= i < |records| :: records[i].chunk.chunkId
  }

  /** What a record is to a store: new to it, the same as what it has under the id, or other than that. */
  predicate Is(store: Records, record: Record, kind: WriteResult) {
    var id := record.chunk.chunkId;
    match kind
    case Inserted => id !in store
    case Unaltered => id in store && SameContent(store[id], record)
    case Updated => id in store && !SameContent(store[id], record)
  }

  function IdsThatAre(store: Records, records: seq<Record>, kind: WriteResult): set<string> {
    set i | 0 <= i < |records| && Is(store, records[i], kind) :: records[i].chunk.chunkId
  }

  lemma LastRecord(records: seq<Record>)
    requires records != [] && DistinctIds(records)
    ensures var before, last := records[..|records| - 1], records[|records| - 1];
      && DistinctIds(before) && last.chunk.chunkId !in RecordIds(before)
      && RecordIds(records) == RecordIds(before) + {last.chunk.chunkId}
  {
    var before := records[..|records| - 1];
    assert forall i :: 0 <= i < |before| ==> before[i] == records[i];
  }

  lemma LastKind(store: Records, records: seq<Record>, kind: WriteResult)
    requires records != [] && DistinctIds(records)
    ensures |IdsThatAre(store, records, kind)|
         == |IdsThatAre(store, records[..|records| - 1], kind)|
            + if Is(store, records[|records| - 1], kind) then 1 else 0
  {
    hide Is, IdsThatAre, DistinctIds, RecordIds;
    LastRecord(records);
    LastOfKind(store, records, kind);
    KindsAreRecords(store, records[..|records| - 1], kind);
  }

  lemma LastOfKind(store: Records, records: seq<Record>, kind: WriteResult)
    requires records != []
    ensures IdsThatAre(store, records, kind)
         == IdsThatAre(store, records[..|records| - 1], kind)
            + if Is(store, records[|records| - 1], kind) then {records[|records| - 1].chunk.chunkId} else {}
  {
    hide Is, IdsThatAre;
    var before, last := records[..|records| - 1], records[|records| - 1];
    forall id
      ensures id in IdsThatAre(store, records, kind)
         <==> id in IdsThatAre(store, before, kind) || (Is(store, last, kind) && id == last.chunk.chunkId)
    {
      OfKindIff(store, records, kind, id);
      OfKindIff(store, before, kind, id);
      if i :| 0 <= i < |before| && OfKindAt(store, before, kind, id, i) {
        assert OfKindAt(store, records, kind, id, i);
      }
      if i :| 0 <= i < |records| && OfKindAt(store, records, kind, id, i) {
        assert i < |before| ==> OfKindAt(store, before, kind, id, i);
      }
      assert Is(store, last, kind) && id == last.chunk.chunkId ==> OfKindAt(store, records, kind, id, |records| - 1);
    }
  }

  predicate OfKindAt(store: Records, records: seq<Record>, kind: WriteResult, id: string, i: int)
    requires 0 <= i < |records|
  {
    Is(store, records[i], kind) && records[i].chunk.chunkId == id
  }

  lemma OfKindIff(store: Records, records: seq<Record>, kind: WriteResult, id: string)
    ensures id in IdsThatAre(store, records, kind)
       <==> exists i :: 0 <= i < |records| && OfKindAt(store, records, kind, id, i)
  {
    hide Is;
    if id in IdsThatAre(store, records, kind) {
      var i :| 0 <= i < |records| && Is(store, records[i], kind) && records[i].chunk.chunkId == id;
      assert OfKindAt(store, records, kind, id, i);
    }
  }

  lemma KindsAreRecords(store: Records, records: seq<Record>, kind: WriteResult)
    ensures IdsThatAre(store, records, kind) <= RecordIds(records)
  {
    hide Is;
  }

  /** Records with ids of their own: a new or other one is stored as it is, the same leaves what is there. */
  predicate StoredAt(store: Records, after: Records, record: Record) {
    var id := record.chunk.chunkId;
    id in after && after[id] == if id in store && SameContent(store[id], record) then store[id] else record
  }

  lemma {:induction false} WritesAreStored(store: Records, records: seq<Record>)
    requires DistinctIds(records)
    ensures forall id :: id !in RecordIds(records) ==>
      && (id in WriteAll(store, records) <==> id in store)
      && (id in store ==> WriteAll(store, records)[id] == store[id])
    ensures forall i :: 0 <= i < |records| ==> StoredAt(store, WriteAll(store, records), records[i])
  {
    if records != [] {
      hide DistinctIds, StoredAt, Written;
      var before, last := records[..|records| - 1], records[|records| - 1];
      LastRecord(records);
      WritesAreStored(store, before);
      var written := WriteAll(store, before);
      OneMoreWrite(store, written, last);
      forall i | 0 <= i < |records|
        ensures StoredAt(store, WriteAll(store, records), records[i])
      {
        if i < |before| {
          assert before[i] == records[i] && before[i].chunk.chunkId in RecordIds(before);
          StaysStored(store, written, WriteAll(store, records), records[i]);
        }
      }
    }
  }

  lemma OneMoreWrite(store: Records, written: Records, record: Record)
    requires var id := record.chunk.chunkId; (id in written <==> id in store) && (id in store ==> written[id] == store[id])
    ensures StoredAt(store, Written(written, record), record)
    ensures forall id :: id != record.chunk.chunkId ==>
      && (id in Written(written, record) <==> id in written)
      && (id in written ==> Written(written, record)[id] == written[id])
  {
    hide SameContent;
  }

  lemma StaysStored(store: Records, written: Records, after: Records, record: Record)
    requires StoredAt(store, written, record)
    requires var id := record.chunk.chunkId; id in after && (id in written ==> after[id] == written[id])
    ensures StoredAt(store, after, record)
  {
    hide SameContent;
  }

  /** The tally counts the records that were new, other and the same, each judged against the store before all. */
  lemma {:induction false} TallyCounts(store: Records, records: seq<Record>)
    requires DistinctIds(records)
    ensures Tallied(store, records)
         == Tally(|IdsThatAre(store, records, Inserted)|, |IdsThatAre(store, records, Updated)|,
                  |IdsThatAre(store, records, Unaltered)|)
  {
    if records == [] {
      NothingIs(store, Inserted);
      NothingIs(store, Updated);
      NothingIs(store, Unaltered);
    } else {
      hide SameContent, WriteAll, IdsThatAre, DistinctIds, RecordIds;
      var before, last := records[..|records| - 1], records[|records| - 1];
      LastRecord(records);
      TallyCounts(store, before);
      WritesAreStored(store, before);
      LastKind(store, records, Inserted);
      LastKind(store, records, Updated);
      LastKind(store, records, Unaltered);
    }
  }

  lemma NothingIs(store: Records, kind: WriteResult)
    ensures IdsThatAre(store, [], kind) == {}
  {
  }

  lemma {:induction false} WrittenAreStored(store: Records, records: seq<Record>)
    requires DistinctIds(records)
    ensures forall i :: 0 <= i < |records| ==>
      && records[i].chunk.chunkId in WriteAll(store, records)
      && SameContent(WriteAll(store, records)[records[i].chunk.chunkId], records[i])
  {
    hide SameContent;
    if records != [] {
      var before, last := records[..|records| - 1], records[|records| - 1];
      WrittenAreStored(store, before);
      SameAsItself(last);
      forall i | 0 <= i < |records|
        ensures records[i].chunk.chunkId in WriteAll(store, records)
        ensures SameContent(WriteAll(store, records)[records[i].chunk.chunkId], records[i])
      {
        if i < |before| {
          assert before[i] == records[i];
        }
      }
    }
  }

  lemma SameAsItself(record: Record)
    ensures SameContent(record, record)
  {
  }

  lemma {:induction false} StoredAreUnaltered(store: Records, records: seq<Record>)
    requires forall i :: 0 <= i < |records| ==>
      && records[i].chunk.chunkId in store
      && SameContent(store[records[i].chunk.chunkId], records[i])
    ensures WriteAll(store, records) == store && Tallied(store, records) == Tally(0, 0, |records|)
    decreases |records|
  {
    hide SameContent;
    if records != [] {
      var before, last := records[..|records| - 1], records[|records| - 1];
      StoredAreUnaltered(store, before);
      assert records[|records| - 1].chunk.chunkId in store;
    }
  }

  /** Storing the same records a second time reports every one unaltered and changes nothing. */
  lemma StoringTwiceIsANoOp(store: Records, records: seq<Record>, again: seq<Record>)
    requires DistinctIds(records) && SameRecords(records, again)
    ensures var after := WriteAll(store, records);
      WriteAll(after, again) == after && Tallied(after, again) == Tally(0, 0, |again|)
  {
    WrittenAreStored(store, records);
    var after := WriteAll(store, records);
    hide WriteAll;
    forall i | 0 <= i < |again|
      ensures again[i].chunk.chunkId in after && SameContent(after[again[i].chunk.chunkId], again[i])
    {
      assert SameContent(records[i], again[i]) && SameContent(after[records[i].chunk.chunkId], records[i]);
    }
    StoredAreUnaltered(after, again);
  }

  lemma SameAtAnyTime(
    provider: Provider, plan: seq<Chunk>, vectors: seq<Vector>, firstTime: string, secondTime: string)
    requires |vectors| == |plan| && forall i, j :: 0 <= i < j < |plan| ==> plan[i].chunkId != plan[j].chunkId
    ensures var first, second :=
        MakeRecords(provider, plan, vectors, firstTime), MakeRecords(provider, plan, vectors, secondTime);
      |second| == |plan| && DistinctIds(first) && SameRecords(first, second)
  {
  }

  /** Indexing one document again, at any later time, finds every chunk unaltered. */
  lemma {:induction false} ReindexingIsANoOp(
    hash: string -> string, document: Document, input: PlanInput, provider: Provider, f: string -> Vector,
    options: IndexOptions, store: Records, firstTime: string, secondTime: string)
    requires CollisionFree(hash) && Pointwise(provider, f)
    requires Succeeds(hash, document, input, provider, options)
    ensures var plan := FullPlan(hash, document, input, options.planner);
      var vectors := Each(f, TextsOf(plan));
      var first := MakeRecords(provider, plan, vectors, firstTime);
      var second := MakeRecords(provider, plan, vectors, secondTime);
      && BatchVectors(provider, TextsOf(plan), options.batchSize, 0) == Ok(vectors)
      && DistinctIds(first)
      && WriteAll(WriteAll(store, first), second) == WriteAll(store, first)
      && Tallied(WriteAll(store, first), second) == Tally(0, 0, |plan|)
  {
    hide FullPlan, BatchVectors, AllValid, Pointwise, CollisionFree, MakeRecords, DistinctIds, SameRecords, WriteAll,
      Tallied;
    PlanIsNumberedAndDistinct(hash, document, input, options.planner);
    var plan := FullPlan(hash, document, input, options.planner);
    BatchingIsOneCall(provider, f, TextsOf(plan), options.batchSize, 0);
    var vectors := Each(f, TextsOf(plan));
    SameAtAnyTime(provider, plan, vectors, firstTime, secondTime);
    var first := MakeRecords(provider, plan, vectors, firstTime);
    var second := MakeRecords(provider, plan, vectors, secondTime);
    StoringTwiceIsANoOp(store, first, second);
  }
}
