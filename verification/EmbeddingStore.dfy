/** The in-memory store of embedded chunks. */
module EmbeddingStore {
  import opened Wrappers
  import opened ChunkPlanner

  type Vector = seq<real>

  datatype Record = Record(
    chunk: Chunk, embedding: Vector, model: string, provider: string, dimension: nat, indexedAt: string)

  type Records = map<string, Record>

  datatype WriteResult = Inserted | Updated | Unaltered

  predicate SameChunkIdentity(left: Chunk, right: Chunk) {
    left.chunkId == right.chunkId && left.contentSha256 == right.contentSha256
  }

  /** What the store compares; the time of indexing, for one, is not part of it. */
  predicate SameContent(left: Record, right: Record) {
    && SameChunkIdentity(left.chunk, right.chunk)
    && left.model == right.model
    && left.provider == right.provider
    && left.dimension == right.dimension
    && left.embedding == right.embedding
  }

  function WriteOutcome(records: Records, record: Record): WriteResult {
    if record.chunk.chunkId !in records then Inserted
    else if SameContent(records[record.chunk.chunkId], record) then Unaltered
    else Updated
  }

  function Written(records: Records, record: Record): Records {
    if WriteOutcome(records, record) == Unaltered then records else records[record.chunk.chunkId := record]
  }

  class InMemoryEmbeddingRepository {
    var records: Records

    constructor ()
      ensures records == map[]
    {
      records := map[];
    }

    method Upsert(record: Record) returns (r: WriteResult)
      modifies this
      ensures r == WriteOutcome(old(records), record) && records == Written(old(records), record)
      ensures r == Inserted <==> record.chunk.chunkId !in old(records)
      ensures r == Unaltered <==>
        && record.chunk.chunkId in old(records)
        && var existing := old(records)[record.chunk.chunkId];
           && existing.chunk.chunkId == record.chunk.chunkId
           && existing.chunk.contentSha256 == record.chunk.contentSha256
           && existing.model == record.model && existing.provider == record.provider
           && existing.dimension == record.dimension && existing.embedding == record.embedding
      ensures records == if r == Unaltered then old(records) else old(records)[record.chunk.chunkId := record]
    {
      if record.chunk.chunkId !in records {
        records := records[record.chunk.chunkId := record];
        return Inserted;
      }
      if SameContent(records[record.chunk.chunkId], record) {
        return Unaltered;
      }
      records := records[record.chunk.chunkId := record];
      r := Updated;
    }
  }
}
