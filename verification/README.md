# Verified model of the stateful core

This project models, in Dafny, the parts of the repository that keep state over
many calls or do arithmetic that has to come out right, and proves what they
guarantee on every input, every run and every interleaving. `dafny verify
dfyconfig.toml` checks all of it.

## What is modelled

**Vector generations** (`VectorTable`, `TenantVectorRepository`,
`GenerationReplacement`, `PlannedReplacement`). The table of stored vectors is a
map from tenant and chunk id to a row, owned by a class with the three SQL
statements as methods. The repository class rewrites one document version in
batches: records are checked, each batch is looked up under a lock, upserted and
classified, and stale rows are deleted at the end. Other transactions may commit
anything to unlocked rows between the statements. Without such interference the
whole call equals one unbatched change of the table, for any batch size; the
lemmas then say what that change is.

**Human sign-in** (`HumanSessionRepository`, `HumanSessionChains`,
`HumanSessionProtocol`, `HumanSessionSafety`, `HumanSessionTheorems`,
`HumanSessionGrounds`). The in-memory store is a class whose methods are tied to functions on its whole
state. The handlers are a transition system over those same functions: any
number of callbacks, bootstraps, rotations and logouts interleave at every
await, any of them may break off, any audit or compensation may fail, and the
clock moves forward at will. Four invariants (single use, custody of unsent sessions,
rotation chains, and what each request stands on) carry the theorems.

**Catalog** (`CatalogPaging` with `CatalogPages`, `CatalogIdempotency`,
`CatalogRateLimit`). Each has an in-memory and a SQL form. The forms are related
by simulations that say exactly when they answer alike.

**From text to stored embeddings** (`Text`, `Normalize`, `ChunkPlanner`,
`ChunkPacking`, `ChunkCoverage`, `PlanContents`, `ChunkIdentity`, `DocumentBlur`,
`EmbeddingStore`, `Indexer`).
Text is normalised, packed greedily, cut into overlapping windows, numbered,
identified, embedded in batches and stored. The loops are methods proved equal
to recursive functions, and the lemmas are about those functions.

**Two small loops** (`FeedbackRateLimiter`, `TokenCount`), the second with the
query splitter that feeds it (`QueryTokens`). `Identifiers` and `Wrappers` hold
what the modules share.

## What the proofs found

- The occurrence counter is exact on every text precisely for tokens that do not
  overlap themselves after a character that is not a word character. Tokens of
  word characters only never do. The splitter also gives tokens with hyphens, and
  with letters of two code units, whose halves the counter does not take for word
  characters; such a token is counted exactly if and only if none of its rests
  after one of these is also its beginning. "a-a" is a token of its own, stands
  twice in "a-a-a" and is counted once; so does the phrase "a a" in "a a a".
- The two idempotency stores part exactly when a record is completed after a
  claim of its partition came at or past that record's expiry: the SQL sweep has
  removed it, the in-memory store still completes it. Lateness alone does not part
  them; a completion after its own expiry with no claim between is answered alike.
- For a limit of 0, or of 1,000,000 and more, the capped SQL counter decides
  differently from the in-memory counter. Everywhere else they agree on every run.
- The SQL lists keep microseconds in their rows but cut the time of a cursor to
  milliseconds (`src/catalog/repository.ts:30-32`, `src/api/v1/catalogHandler.ts:401`).
  Reading page after page gives the whole list if and only if of any two keys in one
  millisecond the earlier lies on its start and has the lower id. Two rows of one
  statement whose common time is off the millisecond break it: with limit 1 the
  second is never read. Times the API itself sets are whole milliseconds; rows
  with the column's default time (`db/migrations/014_catalog_api.sql:37`) need not
  be. Nothing is ever read twice.
- Chunk ids are distinct within a document whatever its fields hold. A chunk of
  another document, whatever else it holds, can share a chunk's id exactly when a
  `|` stands in the chunk's document key, version, section path, section type or
  citation label, or bars in its article number let the pages slide into it. Keys
  without bars are read back from an id, so the keys the tenant repository accepts
  (`src/embeddings/tenantPgVectorRepository.ts:42`) are; versions need not be. It
  accepts both version `b` with path `c|d` and version `b|c` with path `d` of one
  key, and their chunks share every id.
- Repeating a replacement reports every record unchanged if and only if the caller
  names the version in lower case. The id check also passes upper-case digits
  (`src/security/tenant.ts:5`), but the lookup compares the caller's spelling with
  what the database returns (line 445), so the same call fails the second time.
- After a failed success audit the chain is dead if and only if the compensating
  revocation went through; a run in which both fail and a live session stays behind
  is given.
- A replacement leaves exactly the prepared records if and only if no row of the
  version outside them already carried the job's id. A second call under one job
  leaves such rows unless every id of the first comes again in it.
- The feedback limiter can admit `2 * maxRequests - 1` calls within one window
  length, and never more. A limit below one behaves as one.

## Assumptions

- Hashes are functions without collisions. Random tokens are not guessed: a token
  of the store is presented only after it was sent. Session ids are drawn fresh
  in lower case, audit ids are drawn fresh. Apart from the version id of a
  replacement, the UUIDs a caller compares or keys by are in lower case.
- Clock readings are integers that do not go back (the session protocol reads the
  clock where the request makes its first repository call). Arithmetic is exact;
  request times are not before the epoch.
- `localeCompare` and `<` agree on the timestamps and ids of paging keys, so keys
  are compared in one total order, and no two items share a key. The in-memory
  lists hold times in whole milliseconds, so their cursors lose nothing.
- The idempotency table is keyed by the four columns the queries filter on.
- Each repository call is atomic. This includes the in-memory `rotateSession`,
  which awaits between its check and its revocation
  (`src/humanSession/repository.ts:225`); the Postgres form is one statement.
- A `char` is one code unit, and white space is what `trim` strips. What counts
  as a word character is a parameter; the counter's own test, which looks at single
  code units, says what is word-bounded.

## Model

| member | source | states |
|---|---|---|
| VectorTable.Vectors.LookupForUpdate | src/embeddings/tenantPgVectorRepository.ts:67-73 | returns each stored row of the asked ids once, in no promised order, and nothing else |
| VectorTable.Vectors.BatchUpsert | src/embeddings/tenantPgVectorRepository.ts:75-168 | inserts absent rows, rewrites those of the same version that differ, leaves the rest, and returns the ids written, each once |
| VectorTable.Vectors.DeleteStale | src/embeddings/tenantPgVectorRepository.ts:170-176 | removes exactly the version's contract-1 rows of other jobs and returns their number |
| VectorTable.Vectors.CommitOthers | src/embeddings/tenantPgVectorRepository.ts:475-487 | a concurrent commit: a locked key keeps its row, every other key has what the others committed |
| VectorTable.UpsertedAt | src/embeddings/tenantPgVectorRepository.ts:116-165 | each row of an upsert is decided by itself against the table before it; all other rows stay |
| VectorTable.UpsertedAppend | src/embeddings/tenantPgVectorRepository.ts:424-459 | upserting two batches one after the other is upserting them as one |
| VectorTable.NoneRefusedNoConflict | src/embeddings/tenantPgVectorRepository.ts:444-452 | a lookup refuses a batch iff a stored row of it is of another version or contract, or the caller's name for the version is not in lower case and any row of it is stored |
| TenantVectorRepository.Repository.Prepare | src/embeddings/tenantPgVectorRepository.ts:383-422 | succeeds iff count, scope, distinctness and shape hold of every record; a bad count is always reported as such, otherwise the first refused record gives the error |
| TenantVectorRepository.Repository.CheckExisting | src/embeddings/tenantPgVectorRepository.ts:432-454 | accepts iff every looked-up row carries the version as the caller named it and contract 1; then gives the set of stored ids |
| TenantVectorRepository.Repository.LookUp | src/embeddings/tenantPgVectorRepository.ts:426-454 | a batch passes iff no stored row of it is refused; the ids returned are those already stored |
| TenantVectorRepository.Repository.Classify | src/embeddings/tenantPgVectorRepository.ts:475-487 | fails iff some id is neither stored nor written; the counters grow by the numbers of different ids that were not stored, stored and written, and stored and not written |
| TenantVectorRepository.Repository.WriteBatch | src/embeddings/tenantPgVectorRepository.ts:424-488 | under any interference: success means the batch is stored as prepared, locked rows are kept; without it: the exact table and counters |
| TenantVectorRepository.Repository.WriteBatches | src/embeddings/tenantPgVectorRepository.ts:424-488 | for every batch size of one or more: the table and counters of one unbatched pass, and under interference every prepared row stored and all records counted |
| TenantVectorRepository.Repository.ReplaceDocumentVersion | src/embeddings/tenantPgVectorRepository.ts:355-498 | the whole call: bad ids, then a bad document identity, then the count or the first refused record is reported, and nothing changes; success stores every prepared row, leaves no stale row, and inserted + updated + unchanged is the number of records; undisturbed, it equals one unbatched change, and the three counters are the numbers of prepared ids without a row before, with another row after, and with the same row |
| TenantVectorRepository.BatchAgainstInitial | src/embeddings/tenantPgVectorRepository.ts:424-488 | a later batch meets the same conflicts and counts as it would against the table before the first batch |
| TenantVectorRepository.UpsertedWhenWritten | src/embeddings/tenantPgVectorRepository.ts:116-166 | a row the upsert reports, or leaves because it is equal, is the prepared row afterwards |
| TenantVectorRepository.TotalsAreChanges | src/embeddings/tenantPgVectorRepository.ts:475-487 | the counters of a pass are the numbers of ids whose row was absent, differs afterwards, and is the same afterwards |
| TenantVectorRepository.SoundIff | src/embeddings/tenantPgVectorRepository.ts:383-422 | records pass iff there are 1 to 5000, each is of the document and engine of the call and has a valid shape, and no id comes twice |
| TenantVectorRepository.FaultIs | src/embeddings/tenantPgVectorRepository.ts:399-419 | a record out of scope is refused for that; one in scope whose id came before is a duplicate |
| GenerationReplacement.ReplacedAt | src/embeddings/tenantPgVectorRepository.ts:424-498 | the table after a replacement, row by row: prepared rows as prepared, stale rows gone, all others as before |
| GenerationReplacement.ReplacementIsExactIff | src/embeddings/tenantPgVectorRepository.ts:424-498 | the version's rows are exactly the prepared records iff no other row of the version carried the job's id; a fresh job satisfies this |
| GenerationReplacement.OthersAreUntouched | src/embeddings/tenantPgVectorRepository.ts:142-143 | rows of other tenants, versions and contracts stay as they are |
| GenerationReplacement.InsertedAreNew | src/embeddings/tenantPgVectorRepository.ts:475-479 | the inserted counter is the number of rows the upserts added |
| GenerationReplacement.RowsAreAccountedFor | src/embeddings/tenantPgVectorRepository.ts:475-497 | rows after plus deleted equals rows before plus inserted |
| GenerationReplacement.ReplacedIsSettled | src/embeddings/tenantPgVectorRepository.ts:142-165 | after a replacement the same upserts and delete change nothing, and every record counts as unchanged |
| GenerationReplacement.RepeatingIsANoOpIff | src/embeddings/tenantPgVectorRepository.ts:444-452 | the same call again leaves the table alone; it reports every record unchanged and none deleted iff the version is named in lower case, and a conflict otherwise |
| GenerationReplacement.SecondCallIsExactIff | src/embeddings/tenantPgVectorRepository.ts:170-176 | a second call under the same job is exact iff every id of the first comes again in it and nothing else was left over before |
| GenerationReplacement.LastGenerationWins | src/embeddings/tenantPgVectorRepository.ts:424-498 | a replacement after another one, under a fresh job, leaves the table it would have left without the first |
| PlannedReplacement.OnlyLabelsAreRefused | src/embeddings/validation.ts:4-21 | validation of a plan fails iff some chunk has no citation label; no planned text is blank |
| PlannedReplacement.PreparedAreAcceptedIff | src/embeddings/tenantPgVectorRepository.ts:399-422 | records prepared for one document are never refused as duplicates or out of scope; they are accepted iff the document is not blank and every record passes the shape check |
| PlannedReplacement.StoredVersionIsThePlan | src/embeddings/tenantPgVectorRepository.ts:355-498 | after such a replacement the version's stored ids are the plan's chunk ids and no others, each row bound to version and job with its own record's columns |
| HumanSessionRepository.InMemoryHumanSessionRepository.constructor | src/humanSession/repository.ts:71-82 | a store with the seeded memberships in order and nothing else |
| HumanSessionRepository.InMemoryHumanSessionRepository.AddMembership | src/humanSession/repository.ts:84-106 | the first check that fails, changing nothing; else the membership, ids in lower case and each role once, appended to those of its identity |
| Identifiers.CanonicalUuidIff | src/security/tenant.ts:5 | an id is canonical iff it is groups of 8, 4, 4, 4 and 12 hexadecimal digits of either case, joined by hyphens |
| HumanSessionRepository.InMemoryHumanSessionRepository.CreateLoginTransaction | src/humanSession/repository.ts:108-127 | the first check that fails (digests, provider, duplicate state), changing nothing; else an unconsumed transaction is stored and its id returned |
| HumanSessionRepository.InMemoryHumanSessionRepository.ConsumeLoginTransaction | src/humanSession/repository.ts:129-152 | succeeds iff binding and provider match, not consumed and not expired; then marks it consumed and nothing else |
| HumanSessionRepository.InMemoryHumanSessionRepository.ClaimAuthorizationCode | src/humanSession/repository.ts:154-165 | refuses a malformed provider or digest; else claims a code iff it was never claimed |
| HumanSessionRepository.InMemoryHumanSessionRepository.ResolveHumanMembership | src/humanSession/repository.ts:167-177 | the membership of an identity iff it has exactly one |
| HumanSessionRepository.InMemoryHumanSessionRepository.CreateSession | src/humanSession/repository.ts:179-194 | refuses malformed digests, then a token already there, and changes nothing; else stores a live session, its ids in lower case |
| HumanSessionRepository.InMemoryHumanSessionRepository.AuthenticateSession | src/humanSession/repository.ts:196-210 | the stored session iff it is there, unrevoked, and the time is before its expiry |
| HumanSessionRepository.InMemoryHumanSessionRepository.RotateSession | src/humanSession/repository.ts:212-229 | rotates iff the old session is there, unrevoked, before its expiry, of the same three ids to the letter and one generation older, and the new digests are well formed and its token unused; then the new session is stored, the old one revoked and linked to it, and every other session as before |
| HumanSessionRepository.InMemoryHumanSessionRepository.RevokeSession | src/humanSession/repository.ts:231-246 | revokes iff stored and unrevoked, and changes nothing else |
| HumanSessionRepository.InMemoryHumanSessionRepository.RecordAudit | src/humanSession/repository.ts:248-250 | appends one audit and changes nothing else |
| HumanSessionChains.StartKeepsChains | src/humanSession/repository.ts:179-194 | creating a session with a fresh id starts a new chain and keeps all others |
| HumanSessionChains.ExtendKeepsChains | src/humanSession/repository.ts:212-229 | a rotation appends to the chain of the session it replaces |
| HumanSessionChains.RevokeKeepsChains | src/humanSession/repository.ts:231-246 | a revocation leaves the chains as they are |
| HumanSessionChains.OnlyTheLastIsUnrevoked | src/humanSession/repository.ts:212-229 | generation is position, and a session has no successor iff it is the last |
| HumanSessionChains.EndedChainIsDead | src/humanSession/repository.ts:212-246 | a revoked session without a successor leaves its whole chain revoked |
| HumanSessionSafety.SingleUseStep | src/humanSession/handler.ts:588-611 | every step of every request keeps states and codes single-use |
| HumanSessionSafety.CustodyStep | src/humanSession/handler.ts:656-714 | every step keeps each unsent live session in the custody of one request, and sent sessions audited |
| HumanSessionSafety.ChainedStep | src/humanSession/handler.ts:567-902 | every step keeps the sessions in disjoint, linked chains |
| HumanSessionTheorems.RunKeepsInv | src/humanSession/handler.ts:484-902 | the invariants hold after every run |
| HumanSessionTheorems.SessionsFormChains | src/humanSession/handler.ts:717-866 | in every reachable state: a generation is a position, only the last of a chain can be unrevoked, and each other session names its successor of the same owner |
| HumanSessionTheorems.SessionsHaveOnePlace | src/humanSession/handler.ts:717-866 | every stored session stands at exactly one place of one chain |
| HumanSessionTheorems.ChainsHaveTheirOwnStateAndCode | src/humanSession/handler.ts:588-611 | every chain comes from a consumed login state and a code claimed under it, and no two chains from one state or one code, as section 4.1.2 of RFC 6749 asks of codes |
| HumanSessionTheorems.ChainsCodesStates | src/humanSession/handler.ts:588-675 | chains are at most as many as claimed codes, and those at most as many as consumed states |
| HumanSessionTheorems.SentSessionsAreAudited | src/humanSession/handler.ts:676-714 | a token sent in a response has a success audit with its session id |
| HumanSessionTheorems.LogoutEndsTheChain | src/humanSession/handler.ts:883-901 | a logout that revoked leaves no unrevoked session in the chain, whether or not its audit was written |
| HumanSessionTheorems.FailedAuditEndsTheChainIff | src/humanSession/handler.ts:688-700 | after a failed success audit the chain is dead iff the compensating revocation went through |
| HumanSessionTheorems.UncompensatedIsReachable | src/humanSession/handler.ts:688-700 | a run of one callback in which the audit and the revocation both fail and the chain keeps a live session |
| HumanSessionTheorems.UnsentSessionsAreInFlight | src/humanSession/handler.ts:751-796 | an unrevoked session never sent belongs to a request under way, broken off or uncompensated |
| HumanSessionTheorems.StepRevivesNone | src/humanSession/handler.ts:484-902 | no step brings a revoked session back or gives a stored one more time |
| HumanSessionTheorems.DeadTokensStayDead | src/humanSession/handler.ts:384-418 | a token that existed and no longer authenticates never does again |
| HumanSessionGrounds.GroundedStep | src/humanSession/handler.ts:484-902 | every step keeps each request on its ground: members own sessions, authenticated snapshots were live, audits match what was done, logins are consumed in time |
| HumanSessionGrounds.SessionsBelongToMembers | src/humanSession/handler.ts:638-675 | in every reachable state each session, however often rotated, has the ids of an identity with exactly one membership |
| HumanSessionGrounds.SentSessionsHaveTheirAudit | src/humanSession/handler.ts:676-714 | the audit of a sent session names its tenant, principal and id, as a login for generation 1 and as a rotation for all others |
| HumanSessionGrounds.LogoutsHaveTheirAudit | src/humanSession/handler.ts:883-901 | a logout that reports success has left the logout audit of its session |
| HumanSessionGrounds.FailedChecksEndTheRequest | src/humanSession/handler.ts:588-655 | a check that fails before a session is touched ends the request; nothing is stored but one denial audit if it was the proof |
| HumanSessionGrounds.ConsumedIff | src/humanSession/repository.ts:129-152 | a callback goes on iff its state is stored for its browser and provider, unconsumed and before its expiry |
| HumanSessionGrounds.LoginsAreConsumedInTime | src/humanSession/repository.ts:129-152 | over every run a login state is only ever consumed before it expires |
| HumanSessionGrounds.AuthenticatedNeedsLive | src/humanSession/handler.ts:384-418 | a request goes on only with a token whose stored session is unrevoked and before its expiry |
| HumanSessionGrounds.AuthenticatesIff | src/humanSession/repository.ts:196-210 | a stored token authenticates iff its session is unrevoked and the time is before its expiry |
| HumanSessionGrounds.SessionsExpire | src/humanSession/repository.ts:196-210 | a session whose time is up never authenticates again, whatever happens later |
| HumanSessionGrounds.NewSessionsLiveUntil | src/humanSession/repository.ts:179-210 | a new session authenticates at exactly the times before its expiry |
| CatalogPaging.SortIsDescending | src/catalog/repository.ts:40-58 | sorting gives the same items in strictly descending key order |
| CatalogPaging.SqlPageIsPageIn | src/catalog/repository.ts:599-615 | fetching limit + 1 rows and slicing gives the page of the list, its cursor cut to milliseconds |
| CatalogPaging.SqlPageIsPageOfIff | src/catalog/repository.ts:599-615 | its items are those of the in-memory page; it is that page iff there is no next cursor or the last key lies on a whole millisecond |
| CatalogPaging.SqlIsHarmlessIff | src/catalog/repository.ts:30-32 | cutting a key passes over no other key of a table iff of any two keys in one millisecond the earlier lies on its start and has the lower id |
| CatalogPaging.PageFacts | src/catalog/repository.ts:48-66 | a page is descending and after the cursor, and what it leaves out lies after the next cursor |
| CatalogPages.PageIsTheNewest | src/catalog/repository.ts:48-66 | a page is the newest items the cursor leaves, newest first by time and id, as many as the limit allows, with a next cursor iff it leaves any |
| CatalogPaging.CutIsTheMillisecond | src/catalog/repository.ts:30-32 | the time of a SQL cursor is the start of the millisecond its key lies in, with the same id |
| CatalogPaging.WalkIsDescending | src/catalog/repository.ts:44-66 | in either form, pages read while items are inserted are one strictly descending sequence |
| CatalogPaging.WalkMissesNothing | src/catalog/repository.ts:44-66 | a complete reading with limit of one or more emits every item present at its start, in memory always, in SQL while cuts pass over nothing |
| CatalogPaging.PagingIsExact | src/catalog/repository.ts:44-66 | a complete reading of this kind emits each such item exactly once |
| CatalogPaging.NextIsTheRest | src/catalog/repository.ts:44-66 | after a page exactly the rest of the list lies before its last key, shorter by the limit |
| CatalogPaging.NextShrinks | src/catalog/repository.ts:599-615 | in either form what lies after the next cursor strictly shrinks |
| CatalogPaging.PagesAreTheSortedList | src/catalog/repository.ts:48-66 | without inserts, and where cuts pass over nothing, the pages put together are the sorted filtered list |
| CatalogPaging.ReadingIsExactIff | src/catalog/repository.ts:599-615 | the pages of an unchanging table are the sorted list for every limit, and for limit 1, iff cuts pass over nothing |
| CatalogPaging.CutSkipsARow | src/catalog/repository.ts:611-614 | two rows with one time off the millisecond: with limit 1 the second is never read |
| CatalogIdempotency.InMemoryIdempotency.ClaimIdempotency | src/catalog/repository.ts:115-134 | the answer and new store of a claim, an expired record being replaced |
| CatalogIdempotency.InMemoryIdempotency.CompleteIdempotency | src/catalog/repository.ts:136-153 | completes iff the record is processing for the same request |
| CatalogIdempotency.InMemoryIdempotency.ReleaseIdempotency | src/catalog/repository.ts:155-159 | removes the record of the key iff it is processing the same request, and nothing else |
| CatalogIdempotency.InMemoryIdempotency.InvalidateCompletedIdempotency | src/catalog/repository.ts:161-163 | removes the record of the key |
| CatalogIdempotency.SqlIdempotency.DeleteExpired | src/catalog/repository.ts:473-477 | removes exactly the expired records of tenant, principal and operation |
| CatalogIdempotency.SqlIdempotency.InsertIfAbsent | src/catalog/repository.ts:478-488 | inserts iff the key is absent |
| CatalogIdempotency.SqlIdempotency.ClaimIdempotency | src/catalog/repository.ts:472-506 | the answer and new store of sweep, insert and lookup |
| CatalogIdempotency.SqlIdempotency.CompleteIdempotency | src/catalog/repository.ts:508-522 | completes iff a processing row of the same request is there |
| CatalogIdempotency.SqlIdempotency.ReleaseIdempotency | src/catalog/repository.ts:524-531 | removes the row of the key iff it is processing the same request, and nothing else |
| CatalogIdempotency.SqlIdempotency.InvalidateCompletedIdempotency | src/catalog/repository.ts:533-539 | removes the row of the key |
| CatalogIdempotency.ClaimIsNewIff | src/catalog/repository.ts:115-125 | in both stores a claim is new iff its key was never claimed, was removed, or has expired |
| CatalogIdempotency.OtherAnswers | src/catalog/repository.ts:125-134 | any other claim: conflict iff for another request, in progress iff processing, else a replay of the stored response, in both stores |
| CatalogIdempotency.ReleaseFreesTheKey | src/catalog/repository.ts:155-159 | a release of a record processing the same request makes any later claim of its key new in both stores and keeps all other keys; any other release changes nothing |
| CatalogIdempotency.InvalidationFreesTheKey | src/catalog/repository.ts:161-163 | after an invalidation any claim of the key is new, and all other keys are kept |
| CatalogIdempotency.StepsAgreeIff | src/catalog/repository.ts:472-539 | one step keeps the SQL store equal to the memory store less what had expired by the last claim of its partition; the answers differ iff the step completes such a record |
| CatalogIdempotency.RunsAgreeIff | src/catalog/repository.ts:472-539 | the two stores answer a run alike iff no completion of a pending record comes after a claim of its partition that met the record expired |
| CatalogIdempotency.LoneCompletionsAgree | src/catalog/repository.ts:136-153 | a completion after its own expiry is answered alike when no claim came between |
| CatalogIdempotency.RunsAgree | src/catalog/repository.ts:115-163 | in particular, every run whose completions come before expiry is answered alike |
| CatalogIdempotency.RunsAgreeFromEmpty | src/catalog/repository.ts:115-163 | the same from two empty stores |
| CatalogIdempotency.LateCompletionsDivergeIff | src/catalog/repository.ts:473-477 | an instance with a sweep: a completion right after a claim of another key is answered alike iff it comes before its claim's expiry |
| CatalogIdempotency.HeldRun | src/catalog/repository.ts:115-163 | over any undisturbed run a held key guards its claims, which are replays from its completion on and not before, and completes once |
| CatalogIdempotency.SqlHeldRun | src/catalog/repository.ts:472-539 | the same of the SQL store |
| CatalogIdempotency.NewClaimIsExclusive | src/catalog/repository.ts:115-159 | from a new claim to its expiry, release or invalidation: no second new claim, conflict iff another request, at most one completion, and a claim of the same request is a replay of the one stored response iff that completion came before it |
| CatalogIdempotency.SqlNewClaimIsExclusive | src/catalog/repository.ts:472-539 | the same for the SQL store from any store and on any run, whatever becomes of other keys |
| CatalogRateLimit.InMemoryRateLimits.ConsumeRateLimit | src/catalog/repository.ts:100-113 | counts the window's request and decides by the true count |
| CatalogRateLimit.SqlRateLimits.ConsumeRateLimit | src/catalog/repository.ts:436-470 | upserts the window's capped row and decides by it |
| CatalogRateLimit.WindowsAgree | src/catalog/repository.ts:105-106 | two requests share a bucket iff they share a window start |
| CatalogRateLimit.BucketIsQuotient | src/catalog/repository.ts:105 | the window number is the quotient of the time by the window length, and the request lies between the start of its window and the next |
| CatalogRateLimit.DelaysAgree | src/catalog/repository.ts:452-454 | remainder and ceiling give the same delay, from one second to a window; waiting it out lands in the first second of the next window |
| CatalogRateLimit.RowFacts | src/catalog/repository.ts:445-450 | the stored row is the capped count and the audit id of the first request over the limit |
| CatalogRateLimit.OneAuditPerWindow | src/catalog/repository.ts:447-456 | exactly the first request over the limit asks for an audit |
| CatalogRateLimit.DecisionsAgreeIff | src/catalog/repository.ts:436-470 | the two forms decide alike on every window iff the limit is negative, or at least 1 and below 1,000,000 |
| CatalogRateLimit.RunsDecideAlike | src/catalog/repository.ts:100-113 | over any run of any callers and windows under such limits, allow, delay and audit are the same at every request |
| CatalogRateLimit.RunsDecideAlikeFromEmpty | src/catalog/repository.ts:436-470 | the same from two empty stores |
| CatalogRateLimit.AllowedIffUnderLimit | src/catalog/repository.ts:100-113 | over any run a request is allowed iff fewer than its limit came before it from its caller in its window, and audited iff exactly as many did |
| CatalogRateLimit.SqlAllowedIffUnderLimit | src/catalog/repository.ts:436-470 | the same of the SQL form, under the limits for which the two agree |
| CatalogRateLimit.AuditIdsAgreeIff | src/catalog/repository.ts:447-468 | the answers name no audit up to the limit; beyond it memory names the request's own and SQL that of the first refused; they agree iff the request is at most the first over the limit |
| ChunkPlanner.Stride | src/embeddings/chunkPlanner.ts:62 | windows start at the limit less the overlap, which is at least half the limit and at least one position after the one before |
| ChunkPlanner.YieldWindows | src/embeddings/chunkPlanner.ts:62-65 | the inner loop yields the non-empty trimmed windows in order |
| ChunkPlanner.SplitLongText | src/embeddings/chunkPlanner.ts:36-70 | the generator yields what greedy packing prescribes |
| ChunkPlanner.PlanChunks | src/embeddings/chunkPlanner.ts:89-134 | the two policy errors, else the first min(total, m + 1) chunks of the unbounded plan: the whole of it when it fits, and more than m exactly when it does not |
| ChunkPlanner.PlanIsNumberedAndDistinct | src/embeddings/chunkPlanner.ts:103-131 | ordinals are 1, 2, 3, ... in section order, and no two chunks share an id |
| PlanContents.PlanIsTheSections | src/embeddings/chunkPlanner.ts:103-131 | text j of section n is the chunk after all texts of the sections before and j of its own, with that section's path, type, pages, article and label, its own digest, place and id, and a token for every four characters begun |
| PlanContents.PlanLength | src/embeddings/chunkPlanner.ts:103-131 | the plan has as many chunks as its non-blank sections have texts, and no others |
| PlanContents.BlocksAreSplitAtRuns | src/embeddings/chunkPlanner.ts:45 | a text is its blocks with runs of newlines between them: runs of two or more, as long as they can be, and no such run inside a block |
| PlanContents.PackSplitsAtLong | src/embeddings/chunkPlanner.ts:48-67 | an over-long paragraph stands alone: what is held goes out before its windows, and packing starts afresh after them |
| PlanContents.WindowsAreSlices | src/embeddings/chunkPlanner.ts:62-65 | the windows of a paragraph are its slices of the full size, each start the size less the overlap after the one before, from the first position until none is left; trimmed, and without blank ones |
| PlanContents.TextsAreNeat | src/embeddings/chunkPlanner.ts:45-69 | no chunk of a section is empty or begins or ends in white space |
| ChunkPacking.ChunksAreSized | src/embeddings/chunkPlanner.ts:36-70 | every chunk of a non-empty text is non-empty and within the limit |
| ChunkPacking.WindowsCoverTheParagraph | src/embeddings/chunkPlanner.ts:62-65 | every position of an over-long paragraph that is not white space lies in a yielded window |
| ChunkPacking.WindowsAreFew | src/embeddings/chunkPlanner.ts:62-65 | such a paragraph gives at most ceil(2 * length / maxChars) windows |
| ChunkPacking.PackingIsExact | src/embeddings/chunkPlanner.ts:48-69 | when every paragraph fits, the chunks are the paragraphs in order, joined in groups without remainder |
| ChunkPacking.StaysAhead | src/embeddings/chunkPlanner.ts:48-60 | the greedy loop stays ahead of any other division into consecutive groups |
| ChunkPacking.PackingIsFewest | src/embeddings/chunkPlanner.ts:48-69 | no division into consecutive groups that fit has fewer groups |
| ChunkPacking.NothingIsLostOrRepeated | src/embeddings/chunkPlanner.ts:45-69 | without overlap, or when nothing is cut, the chunks hold the text's non-space characters once each and in order |
| ChunkCoverage.ChunksHaveInk | src/embeddings/chunkPlanner.ts:45-69 | a text that is not blank gives at least one chunk and no blank ones |
| ChunkCoverage.ParagraphsAreCovered | src/embeddings/chunkPlanner.ts:45-69 | whatever the overlap, a paragraph that fits stands whole in one chunk, and of any other every window is a chunk |
| ChunkCoverage.PlannedChunksAreGood | src/embeddings/chunkPlanner.ts:106-131 | no planned chunk is blank or over-long, all carry the document's identity, and a plan is empty iff every section is blank |
| ChunkIdentity.OrdinalsSeparateIds | src/embeddings/chunkIdentity.ts:7-29 | different ordinals give different ids, whatever the other fields hold |
| ChunkIdentity.IdDeterminesFields | src/embeddings/chunkIdentity.ts:7-29 | without bars in the fields, two ids are equal iff all fields, digest and ordinal are |
| ChunkIdentity.IdentityIs | src/embeddings/chunkIdentity.ts:7-29 | the identity string: key, version, path, type, label, pages, article, digest and ordinal, with a bar between any two and nothing for a missing one |
| ChunkIdentity.DecimalIsRead | src/embeddings/chunkIdentity.ts:7-29 | the digits of a number are read back as the number, and start with a zero only for zero |
| DocumentBlur.SameIdIffSamePieces | src/embeddings/chunkIdentity.ts:7-29 | two chunks share an id iff their identity strings have the same pieces between bars |
| DocumentBlur.DocumentIsBlurredIff | src/embeddings/chunkIdentity.ts:7-29 | a chunk of another document, whatever its other fields, digest and ordinal, can share a chunk's id iff a bar stands in the chunk's key, version, path, type or label, or its article number lets the pages slide |
| DocumentBlur.BarlessArticleDoesNotSlide | src/embeddings/chunkIdentity.ts:20 | an article number without bars lets nothing slide |
| DocumentBlur.BarlessKeysAreReadBack | src/embeddings/chunkIdentity.ts:7-29 | keys without bars are read back from an id whatever else differs, and versions without bars then are too |
| DocumentBlur.SafeKeysAreReadBack | src/embeddings/tenantPgVectorRepository.ts:42 | the keys the tenant repository accepts are read back from an id |
| DocumentBlur.AcceptedVersionsBlur | src/embeddings/chunkIdentity.ts:12-23 | two versions of one accepted key, the first without a bar in key or version, whose chunks share every id |
| DocumentBlur.SameIdIffSameHead | src/embeddings/chunkIdentity.ts:12-23 | chunks that agree in all else share an id iff key and version, joined by a bar, read the same |
| DocumentBlur.RenamingIsBlurredIff | src/embeddings/chunkIdentity.ts:12-23 | with all else held the same, another key and version can share an id iff a bar stands in key or version |
| DocumentBlur.SafeRenamingsAreToldApart | src/embeddings/tenantPgVectorRepository.ts:42 | with all else held the same, an id tells accepted keys and their versions apart |
| DocumentBlur.BarsBlurDocuments | src/embeddings/chunkIdentity.ts:12-23 | an instance: a bar inside the key against the same bar inside the version; the tenant repository refuses the key that holds it |
| EmbeddingStore.InMemoryEmbeddingRepository.Upsert | src/embeddings/repository.ts:7-25 | inserted iff the id was absent, unchanged iff the stored record agrees in id, digest, model, provider, dimension and vector, else updated; unless unchanged the record is stored, and no other id changes |
| Indexer.ValidateChunks | src/embeddings/validation.ts:4-21 | passes iff every chunk has text and label; else the first bad chunk and its fault |
| Indexer.AskOnce | src/embeddings/indexer.ts:75-77 | the provider's failure, then a wrong count, then a wrong dimension is reported; else the vectors |
| Indexer.EmbedBatches | src/embeddings/indexer.ts:72-79 | the batches are asked for in order; one vector per text, or the failure of the first batch that fails, after which none is asked for |
| Indexer.PrepareDocumentEmbeddings | src/embeddings/indexer.ts:42-105 | record i holds chunk i of the plan with vector i, the provider's names and dimension and the time of indexing; or no record at all and the first check that fails: options, planner, limit (iff the unbounded plan exceeds it), chunks, batches |
| Indexer.IndexDocument | src/embeddings/indexer.ts:107-140 | the stored records and tallies; embedded = inserted + updated + unchanged; a failed preparation stores nothing, a failed write leaves the records before it stored and counted |
| Indexer.BatchingIsOneCall | src/embeddings/indexer.ts:72-79 | for a pointwise provider batching equals one big call |
| Indexer.RecordsHaveTheirOwnVectors | src/embeddings/indexer.ts:81-90 | with a pointwise provider every record has the vector of its own chunk's text |
| Indexer.WritesAreStored | src/embeddings/indexer.ts:123-130 | after the writes a record that was new or other is stored as it is, one that was the same leaves what was there, and no other id changes |
| Indexer.TallyCounts | src/embeddings/indexer.ts:123-130 | the tallies are the numbers of ids that were absent, stored otherwise, and stored the same |
| Indexer.StoringTwiceIsANoOp | src/embeddings/repository.ts:7-25 | storing the same records again reports each unchanged and changes nothing |
| Indexer.ReindexingIsANoOp | src/embeddings/indexer.ts:107-140 | indexing a document again, at any later time, reports every chunk unchanged |
| Normalize.NormalizeWhitespace | src/ingestion/normalize.ts:4-20 | the loop computes the specified normal form |
| Normalize.EndingsAppend | src/ingestion/normalize.ts:1-2 | line endings are treated part by part, unless the cut would divide a pair of carriage return and newline |
| Normalize.EndingsOf | src/ingestion/normalize.ts:1-2 | such a pair and a lone carriage return become one newline, a NUL goes, every other character stays |
| Normalize.StrippingCutsBlanks | src/ingestion/normalize.ts:7 | what is cut off a line are the blanks and tabs at its end, all of them and nothing else |
| Normalize.NormalizedIs | src/ingestion/normalize.ts:4-20 | the whole normalisation line by line: each line without its trailing blanks, a blank one only if the line before it is not, in order, and the result trimmed |
| Normalize.SubstanceSurvives | src/ingestion/normalize.ts:4-20 | the non-blank lines survive in order, up to white space at their ends |
| Normalize.NormalizedShape | src/ingestion/normalize.ts:1-20 | no two consecutive lines are blank, no carriage return or NUL, no trailing blanks, no white space at either end |
| Normalize.NormalizingIsIdempotent | src/ingestion/normalize.ts:1-20 | normalising twice is normalising once |
| FeedbackRateLimiter.ProcedureFeedbackRateLimiter.Consume | src/procedureFeedback/rateLimit.ts:17-29 | a missing or past bucket is opened anew; else the call is admitted and counted iff the count is below the limit, and a refused call changes nothing; no other bucket changes |
| FeedbackRateLimiter.SlidingBound | src/procedureFeedback/rateLimit.ts:17-29 | at most 2 * maxRequests - 1 admissions of a key in any interval of a window's length |
| FeedbackRateLimiter.SlidingBoundIsTight | src/procedureFeedback/rateLimit.ts:17-29 | the bound is reached |
| FeedbackRateLimiter.WindowVerdicts | src/procedureFeedback/rateLimit.ts:17-29 | from the call that opens a bucket to the end of its window the first maxRequests calls of the key are admitted (one, if the limit is lower) and no other, and the first call at the end of the window or later is admitted again |
| FeedbackRateLimiter.RefusedCallsChangeNothing | src/procedureFeedback/rateLimit.ts:26 | a refused call changes no bucket, and so prolongs none |
| FeedbackRateLimiter.KeysAreIndependent | src/procedureFeedback/rateLimit.ts:17-29 | a key is answered as if no other key called |
| TokenCount.IndexOf | public/public-corpus-fallback.js:117 | a found position is an occurrence at or after the offset |
| TokenCount.IndexOfIsFirst | public/public-corpus-fallback.js:117 | no occurrence lies before the found one |
| TokenCount.CountTokens | public/public-corpus-fallback.js:113-126 | the loop ends with the minimum of eight and the scan's count, which is the number of all matches unless the token overlaps itself |
| TokenCount.ScanSeesEveryMatch | public/public-corpus-fallback.js:116-124 | jumping over whole matches skips no word-bounded match of a token that does not overlap itself |
| TokenCount.CountIsExactIff | public/public-corpus-fallback.js:113-126 | the count is right on every text iff the token does not overlap itself |
| TokenCount.WordTokensAreCountedExactly | public/public-corpus-fallback.js:112-126 | a token of word characters only is counted exactly on every text |
| TokenCount.WordMatchIff | public/public-corpus-fallback.js:118-122 | a word-bounded match is a place where the text around the token neither ends nor starts in a word character |
| TokenCount.WordsAreCounted | public/public-corpus-fallback.js:112-126 | on a text of words and spaces the counter gives the number of words equal to the token, up to eight; a longer word that holds it adds nothing |
| TokenCount.PhraseIsMiscounted | public/public-corpus-fallback.js:132-134 | "a a" in "a a a" is counted too low |
| QueryTokens.TokensFor | public/public-corpus-fallback.js:99-101 | at most eighteen tokens, no two the same |
| QueryTokens.TokensAreTheFirstKeptWords | public/public-corpus-fallback.js:99-101 | there are as many tokens as different words of three characters or more that are no stop words, up to eighteen, and each stands at the number of different ones ahead of its first occurrence |
| QueryTokens.TokensAreSplitterTokens | public/public-corpus-fallback.js:99-101 | the tokens of normalised queries are exactly the strings of three or more letters, digits and hyphens, halves paired, that are no stop word |
| QueryTokens.NormalizedIsExactIff | public/public-corpus-fallback.js:112-126 | a normalised token or phrase is counted exactly on every normalised text iff none of its rests after a character that is not a word character is also its beginning |
| QueryTokens.SplitterTokenIsExactIff | public/public-corpus-fallback.js:99-126 | for a token of the splitter: iff none of its rests after a hyphen, or after a letter of two code units, is also its beginning |
| QueryTokens.HyphenTokenIsMiscounted | public/public-corpus-fallback.js:30-36 | the query "a-a" gives the token "a-a", which is counted too low in "a-a-a" |
| QueryTokens.WideTokenIsMiscounted | public/public-corpus-fallback.js:112-122 | so is a letter of two code units written twice, in that letter written three times |

## Left out

- TenantVectorRepository.Repository.ReplaceDocumentVersion: a record's remaining columns are one opaque comparable value, and the checks of the constructor (lines 337-353) are taken to have passed.
- TenantVectorRepository.Repository.WriteBatch: malformed query results (`vector_query_result_invalid`) cannot occur, because the statements are modelled by their meaning; under interference the split into inserted and updated is not claimed, only their sum with unchanged and the final rows. Others commit between a batch's lookup and its upsert and before the delete; a commit after an upsert touches none of its rows, so it has the effect of one just before it.
- TenantVectorRepository.Repository.Prepare: the second identity check (lines 416-420) follows from the scope check before it and is not repeated.
- Rolling back after an error is left to the owner of the transaction, as in the source.
- Vector search, ranking and embedding arithmetic: floating point and foreign code.
- HumanSessionProtocol: the handlers are one transition system rather than methods, because their steps interleave; `handleSession` and `handleRotate` make the same repository calls and are one kind of request.
- HumanSessionRepository.InMemoryHumanSessionRepository.constructor: a seed the source refuses is a precondition here, because a store that is not made has no state.
- HumanSessionRepository.InMemoryHumanSessionRepository.CreateSession: lower case is that of ASCII letters, which is all a UUID can hold.
- The Postgres session store deletes expired logins and code claims and checks clocks within a window; only the in-memory store is modelled.
- HTTP, cookies, CSRF headers, cryptography and the OIDC exchange: each is a step that succeeds or fails.
- CatalogIdempotency.InMemoryIdempotency.CompleteIdempotency: the times a record was created and completed are not kept; nothing reads them.
- CatalogRateLimit.RunsDecideAlike: the audit ids of the answers are not compared over runs, because they differ beyond the first refused request; CatalogRateLimit.AuditIdsAgreeIff compares them within a window.
- CatalogPaging.PagingIsExact: items are inserted but not deleted between pages; filters other than the cursor are taken as applied to the items beforehand, and an item of a page stands for its stored row, whose times the response shows cut to milliseconds.
- DocumentBlur.DocumentIsBlurredIff: the digest is taken to hold no bar, as a hexadecimal one does, and pages are natural numbers.
- ChunkPlanner.SplitLongText: the generator is its full sequence of values; that the planner stops pulling from it shows only in the plan's length.
- ChunkPlanner.PlanChunks: `sourceFormat` and chunk metadata are not modelled; nothing in the core decides by them.
- EmbeddingStore.InMemoryEmbeddingRepository.Upsert: vectors are compared as values instead of by their JSON text.
- Indexer.IndexDocument: the store that may fail at a write is the in-memory one, with the failing write given.
- QueryTokens.TokensFor: normalising itself (Unicode decomposition, case folding) is not modelled; its output is characterised by what it may hold.
- TokenCount.CountTokens: the empty token is excluded, as its callers exclude it (line 131).
- Browser pages, command-line programs, evidence receipts, the ingestion worker, hybrid retrieval and role checks: outside the core modelled here.
