# bloodlab-common core, modelled in Dafny

This project models the sequential logic of the Go library bloodlab-common:

- **Redis cache coordination** (`cache/redisCache.go`). A named cache sits over a Redis keyspace. It has a validity flag and a refresh lock. A refresh run marks the cache invalid, purges every key under `name:`, runs the init and filler callbacks, and marks the cache valid again. The run is retried a bounded number of times. Afterwards the lock is released and a forced request that arrived meanwhile becomes exactly one follow-up request. Reads are refused while the cache is invalid. Writes and reads with expiration are refused without a configuration or an expiration. Keys are built by the `KeyFor*` namer.
  - In single-instance mode, validity and lock are fields of the cache.
  - In multiserver mode, they are the flag keys `name:SYS:CACHE_VALID` and `name:SYS:MUTEX_LOCK`, the latter with an expiration (a lease).
- **Pagination arithmetic** (`pagination/pagination.go`): page counting and page-size normalisation.
- **Byte-slice framing**:
  - `utils/slices.go`: line-feed join and split, and range partitioning with a consumer callback;
  - `util/slices.go`: NUL-separated packing and unpacking.
- **Pointer and nullable conversions** (`utils/types.go`, `util/types.go`, `db/dbutils.go`).

Modules follow the source files:

| module | file | models |
|---|---|---|
| `CacheKeys` | `cache_keys.dfy` | the keyspace namer and `GuidToString` |
| `Redis` | `redis.dfy` | the server: a keyspace map, whether it answers, and which write commands it refuses, with the commands the cache issues as methods of class `Client` |
| `Cache` | `cache.dfy` | class `RedisCache`, with the fields of the Go struct, plus the functions that specify one refresh attempt (`Attempt`), the retry loop (`RetryFrom`, `RetryError`) and the purge (`Purged`) |
| `CacheScenarios` | `cache_scenarios.dfy` | complete runs: the source's own cache test, force coalescing, retries, and the multiserver lease |
| `Pagination` | `pagination.dfy` | `pagination/pagination.go` |
| `UtilsSlices` | `utils_slices.dfy` | `utils/slices.go` |
| `UtilSlices` | `util_slices.dfy` | `util/slices.go` |
| `UtilsTypes`, `UtilTypes`, `DbUtils` | `utils_types.dfy`, `util_types.dfy`, `db_utils.dfy` | the three conversion files |
| `Framing` | `framing.dfy` | the join and split shared by both framings |
| `Uuid`, `NullTypes`, `Bytes`, `Wrappers` | other files | the UUID and its canonical text (RFC 4122 section 3); `sql.Null*`; `byte`; `Option` and `Result` |

Modelling choices:

- A Go pointer is an `Option` of its pointee, compared by value. An `error` is an `Option` of an error datatype.
- The goroutine started by `RefreshCacheAsync` is one synchronous step, `RedisCache.RunRefresh`. `RefreshCacheAsync` only takes the lock and counts the started run in `pendingRuns`.
- The init and filler callbacks are pure functions. Each receives the attempt number and the keyspace, and returns a new keyspace and an optional error.
- Redis being down is the client's `reachable` flag. A server that answers but rejects writes of some kind (a read-only replica, the memory limit) is the client's `refused` set of write commands. Expiry of a key is the environment step `Client.Lapse`.

Consequences of the code that the model proves:

- **The namer is not injective.** `KeyForCustom("ALL")` is `KeyForAll()`, and `KeyForCustom("SYS:CACHE_VALID")` is the validity flag (`CacheKeys.CustomAllIsKeyForAll`, `CacheKeys.CustomSysIsValidFlag`). Injectivity holds for `KeyForOne` and is proved there.
- **Without a lease duration, `mutexTryLock` logs and returns `false`** (cache/redisCache.go:170-173). It returns no error, and `RedisCache.MutexTryLock` models that.
- **The purge deletes the lease.** The purge deletes every key under `name:`, the lease `name:SYS:MUTEX_LOCK` included. So a second instance can take the lock while a run is still going (`Cache.AttemptReleasesLease`, `CacheScenarios.PurgeDropsLease`).
- **Write errors are swallowed.** `SetToValid` and `SetToInvalid` only log a failed flag write, and `clearCache` drops the result of DEL. So a refresh can report success and leave the multiserver cache invalid (`Cache.RefusedSetRefreshSucceedsInvalid`, `CacheScenarios.RefusedSetLeavesRefreshedCacheInvalid`). A failed attempt can also leave it valid (`Cache.RefusedDeleteKeepsFailedAttemptValid`).
- **A retry wait that is not positive panics.** `retry` draws its jitter with `Int63n` of the wait, which panics on a bound that is not positive. With `RefreshRetryWaitStartMs <= 0` the first failed attempt ends the process (`Cache.RetryPanics`, `CacheScenarios.ZeroWaitPanics`).

## Model

| member | source | states |
|---|---|---|
| `CacheKeys.KeyForAll` | cache/redisCache.go:514-516 | the key lies under `name:` |
| `CacheKeys.KeyForOne` | cache/redisCache.go:517-519 | the key lies under `name:` |
| `CacheKeys.KeyForOneInjective` | cache/redisCache.go:517-519 | different UUIDs give different entity keys: the key determines the UUID |
| `CacheKeys.KeyForPage` | cache/redisCache.go:520-522 | the key lies under `name:` |
| `CacheKeys.KeyForCustomPage` | cache/redisCache.go:523-525 | the key lies under `name:`, is the page key followed by `:`, and ends in the custom key |
| `CacheKeys.KeyForCustom` | cache/redisCache.go:526-528 | the key lies under `name:` and is followed by exactly the custom key |
| `CacheKeys.KeyForValuedCustom` | cache/redisCache.go:529-531 | the key lies under `name:`; for at least one value its length is the parts plus one `\|` per gap between values |
| `CacheKeys.KeyForNotFound` | cache/redisCache.go:532-534 | the key lies under `name:` and is not the collection key |
| `CacheKeys.KeyForSystem` | cache/redisCache.go:535-537 | the key lies under `name:` and continues with `SYS:` and the flag name |
| `CacheKeys.SystemFlagsDistinct` | cache/redisCache.go:102-105 | the validity flag and the lock flag are different keys |
| `CacheKeys.CustomAllIsKeyForAll` | cache/redisCache.go:514-528 | the namer is not injective: custom key `ALL` is the collection key |
| `CacheKeys.CustomSysIsValidFlag` | cache/redisCache.go:526-537 | custom key `SYS:CACHE_VALID` is the validity flag |
| `CacheKeys.ReplaceAll` | cache/redisCache.go:541-543 | `strings.ReplaceAll` for one character: same length, each occurrence replaced, nothing else changed |
| `CacheKeys.GuidToString` | cache/redisCache.go:541-543 | the result is the canonical UUID text with `_` in place of `-` |
| `CacheKeys.GuidHasNoDash` | cache/redisCache.go:541-543 | the identifier text holds no `-` |
| `CacheKeys.ReplaceAllRemoves` | cache/redisCache.go:541-543 | after replacing a character by a different one, it no longer occurs |
| `CacheKeys.GuidTextReplaced` | cache/redisCache.go:541-543 | replacing `-` by `_` in the canonical text gives the text with `_` separators |
| `Uuid.TextFromInjective` | cache/redisCache.go:541-543 | the canonical text determines the sixteen bytes |
| `Uuid.HexDigit` | cache/redisCache.go:541-543 | a hex digit is never a separator character |
| `Redis.TtlFor` | cache/redisCache.go:445-454 | the expiration SET gives: a positive duration expires, 0 means none, only `KeepTTL` keeps the old one |
| `Redis.Stored` | cache/redisCache.go:445-454 | SET writes the value under the key and leaves every other key alone |
| `Redis.Expired` | cache/redisCache.go:308-312 | EXPIRE sets the expiration of an existing key, deletes it for a non-positive one, and touches no other key |
| `Redis.JsonGetReply` | cache/redisCache.go:339-340 | JSON.GET succeeds exactly on a key holding a document and returns it; `redis.Nil` exactly for a missing key |
| `Redis.MGetReply` | cache/redisCache.go:385 | JSON.MGET answers one element per key |
| `Redis.Client.constructor` | cache/redisCache_test.go:30-36 | a newly connected server holds no keys and rejects no command |
| `Redis.Client.Set` | cache/redisCache.go:446 | SET: the keyspace becomes `Stored(...)`; an error and no change when the server is down or refuses SET |
| `Redis.Client.JsonSet` | cache/redisCache.go:293 | JSON.SET: the key holds the document; `WrongType` and no change when the key holds a string; an error and no change when the server is down or refuses it |
| `Redis.Client.Expire` | cache/redisCache.go:310 | EXPIRE: the keyspace becomes `Expired(...)`, or an error and no change |
| `Redis.Client.Del` | cache/redisCache.go:460 | DEL: exactly the given keys are removed; an arity error for no keys; an error and no change when the server is down or refuses DEL |
| `Redis.Client.Exists` | cache/redisCache.go:456 | EXISTS: 1 exactly when the server answers and has the key |
| `Redis.Client.JsonGet` | cache/redisCache.go:340 | returns `JsonGetReply` of the current keyspace |
| `Redis.Client.JsonMGet` | cache/redisCache.go:385 | one element per key, each the document under it or nil; an arity error for no keys; an error when the server is down |
| `Redis.Client.Scan` | cache/redisCache.go:271-288 | a scan step splits the remaining matching keys into a batch and the rest, and the batch is never empty while keys remain; a step fails exactly when the server does not answer, which is fixed for a whole run |
| `Redis.Client.Lapse` | cache/redisCache.go:174 | an expiring key disappears, and no other key changes |
| `Cache.ExpirationFor` | cache/redisCache.go:295-307 | no configuration gives `ErrConfigNotSet`; an explicit expiration overrides the default; neither gives `ErrExpirationNotSet` |
| `Cache.Fetched` | cache/redisCache.go:365-371 | a valid cache's read returns the stored document; `ErrItemNotFound` exactly for a missing key |
| `Cache.Present` | cache/redisCache.go:408-420 | group read results never outnumber the keys |
| `Cache.Answered` | cache/redisCache.go:408-420 | the positions of the non-nil reply elements: all of them, each once, increasing |
| `Cache.PresentInOrder` | cache/redisCache.go:408-420 | the documents are exactly the non-nil reply elements, every one kept, in reply order |
| `Cache.PresentFromReply` | cache/redisCache.go:408-420 | every document returned was in the reply |
| `Cache.PresentAll` | cache/redisCache.go:408-420 | when every key answered, the documents are the reply, in order |
| `Cache.GroupOfStoredDocuments` | cache/redisCache.go:379-423 | when every key holds a document, a group read returns them all, in key order |
| `Cache.Purged` | cache/redisCache.go:271-288 | after the purge, exactly the keys outside `name:` remain, unchanged |
| `Cache.PurgedAfterDelete` | cache/redisCache.go:218-219 | deleting the validity flag before the purge makes no difference to it |
| `Cache.PurgedRemovesSystemFlags` | cache/redisCache.go:271-288 | the purge removes both `SYS` flags, the lease included |
| `Cache.RunStep` | cache/redisCache.go:224-239 | a missing callback changes nothing and succeeds |
| `Cache.Cleared` | cache/redisCache.go:218-219 | marking invalid and purging: with DEL accepted both `SYS` flags (validity and lease) are gone, with DEL refused nothing changes |
| `Cache.ClearedKeepsOutside` | cache/redisCache.go:218-219 | that step only removes keys and changes no value; every key outside `name:` stays; with DEL accepted no key under `name:` is left |
| `Cache.Attempt` | cache/redisCache.go:217-242 | the attempt closure returns nil iff it completes; it stops at the purge iff the server does not answer, and then returns that error with nothing changed (the other stages are stated in `AttemptStages`) |
| `Cache.AttemptStages` | cache/redisCache.go:217-243 | an attempt fails iff it stops before completing; only an unreachable server fails the purge, and then nothing changes (the server's reachability is fixed for a run, so a SCAN that fails after some batches were deleted is not modelled); it completes iff the server answers and init and filler succeed; a completed multiserver attempt sets the flag when the server accepts SET |
| `Cache.MissingFillerCompletes` | cache/redisCache.go:231-241 | a missing filler does not stop the attempt from completing |
| `Cache.FailedAttemptLeavesInvalid` | cache/redisCache.go:217-242 | a failed attempt leaves the multiserver cache invalid, provided the callbacks do not write the validity flag and the flag is gone after the purge (DEL accepted, or no flag before) |
| `Cache.RefusedDeleteKeepsFailedAttemptValid` | cache/redisCache.go:139-145 | with DEL refused, a valid multiserver cache stays valid through a failed attempt, and no key changes |
| `Cache.RefusedSetCompletesInvalid` | cache/redisCache.go:149-154 | with SET refused, an attempt completes without error and the multiserver cache is invalid |
| `Cache.AliasedFillerValidatesFailedAttempt` | cache/redisCache.go:217-242 | without that proviso a failed attempt can end valid: a filler storing under custom key `SYS:CACHE_VALID` |
| `Cache.AttemptReleasesLease` | cache/redisCache.go:217-222 | every attempt whose purge the server carries out deletes the run's own lease |
| `Cache.RetryFrom` | cache/redisCache.go:253-268 | at most the remaining number of attempts; a panic only with a wait that is not positive, after one failed attempt |
| `Cache.RetryStep` | cache/redisCache.go:255-265 | one attempt, then: success ends `retry`, failure panics when the wait is not positive, else the next attempt follows |
| `Cache.RetryLoop` | cache/redisCache.go:255-266 | `retry`'s counted loop with the errors gathered so far: at most one more outcome per remaining attempt, and a panic only with a wait that is not positive, after one more attempt |
| `Cache.RetryLoopFrom` | cache/redisCache.go:253-268 | the accumulating loop form of `retry` agrees with `RetryFrom` |
| `Cache.RetryError` | cache/redisCache.go:253-268 | `retry` returns nil exactly when the last attempt succeeded |
| `Cache.RetryOutcomes` | cache/redisCache.go:253-268 | every attempt before the last failed; unless it panicked, an error iff all allowed attempts ran and failed |
| `Cache.NoAttempts` | cache/redisCache.go:253-268 | with `attempts <= 0` no attempt runs and an error with no last error is returned |
| `Cache.RetryPanics` | cache/redisCache.go:261-262 | `retry` panics iff the wait is not positive and its first attempt fails; that attempt is then the only one |
| `Cache.RetrySucceededIsValid` | cache/redisCache.go:240-243 | a successful refresh leaves the multiserver cache valid when the server accepts SET |
| `Cache.RefusedSetRefreshSucceedsInvalid` | cache/redisCache.go:149-154 | with SET refused, `retry` reports success and the multiserver cache is invalid |
| `Cache.RetryFailedIsInvalid` | cache/redisCache.go:217-243 | a failed refresh of at least one attempt leaves the multiserver cache invalid, provided the callbacks do not write the validity flag and the server accepts DEL |
| `Cache.RedisCache.constructor` | cache/redisCache.go:74-86 | a new cache is invalid, unlocked, unconfigured, without callbacks or runs |
| `Cache.RedisCache.Init` | cache/redisCache.go:120-124 | stores the configuration and both callbacks and changes nothing else |
| `Cache.RedisCache.SetFlag` | cache/redisCache.go:445-447 | the error is SET's verdict: an error iff the server is down or refuses SET, and then no key changes; otherwise the flag key is present, without expiration |
| `Cache.RedisCache.SetFlagWithExpiration` | cache/redisCache.go:448-454 | the flag key is present with the explicit expiration, else the default one |
| `Cache.RedisCache.GetFlag` | cache/redisCache.go:455-458 | the flag is set iff its key is present |
| `Cache.RedisCache.DeleteFlag` | cache/redisCache.go:459-461 | the error is DEL's verdict: the flag key is absent afterwards unless the server is down or refuses DEL, in which case nothing changes; no other key changes |
| `Cache.RedisCache.IsValid` | cache/redisCache.go:128-138 | the field in single-instance mode; presence of the validity flag in multiserver mode, false when the server is down |
| `Cache.RedisCache.SetToInvalid` | cache/redisCache.go:139-148 | the cache is invalid afterwards, unless in multiserver mode DEL fails, which leaves validity as it was; nothing else changes |
| `Cache.RedisCache.SetToValid` | cache/redisCache.go:149-158 | the cache is valid afterwards, unless in multiserver mode SET fails, which leaves validity as it was; nothing else changes |
| `Cache.RedisCache.MutexTryLock` | cache/redisCache.go:160-182 | acquires iff the lock could be taken; in multiserver mode this means the lease is absent and a lease duration is configured, and the lease is then written with that duration; otherwise nothing changes |
| `Cache.RedisCache.MutexUnlock` | cache/redisCache.go:183-192 | the lock is released (lease deleted, or mutex unlocked) unless DEL fails in multiserver mode; nothing else changes |
| `Cache.RedisCache.RefreshCacheAsync` | cache/redisCache.go:194-207 | no configuration: no change; lock busy: only a forced request is remembered; lock free: the lock is held and one run starts; in single-instance mode the keyspace is untouched, and in multiserver mode the `locked` field is |
| `Cache.RedisCache.RunRefresh` | cache/redisCache.go:208-249 | the keyspace is the retried attempts' result minus the lease (when DEL succeeds); the lock is released; success means valid unless a multiserver SET is refused; a panic needs a wait that is not positive; a pending forced request becomes one follow-up unless the run panicked, and is cleared; in multiserver mode the `locked` and `cacheValid` fields are untouched |
| `Cache.RedisCache.Retry` | cache/redisCache.go:253-268 | outcomes, keyspace and panic are those of `RetryFrom`, the error is `RetryError` or the panicking attempt's error; single-instance validity is the last attempt's success |
| `Cache.RedisCache.RefreshAttempt` | cache/redisCache.go:217-242 | the keyspace and error are those of `Attempt`; single-instance validity is the attempt's success |
| `Cache.RedisCache.ClearCache` | cache/redisCache.go:271-288 | success iff the server answers; the keyspace is `Purged` when DEL is accepted and unchanged when it is refused (its error is dropped); a server that does not answer fails the first SCAN, whose error is returned with nothing deleted (a SCAN error after some batches is not modelled) |
| `Cache.RedisCache.Store` | cache/redisCache.go:292-294 | the key holds the document; `WrongType` when it holds a string; otherwise an error and no change |
| `Cache.RedisCache.StoreWithExpiration` | cache/redisCache.go:295-313 | the gates of `ExpirationFor` return their error before any write; otherwise JSON.SET and EXPIRE each take effect or fail on their own, the first error is returned, and on success the document is stored with that expiration |
| `Cache.RedisCache.Read` | cache/redisCache.go:314-378 | an invalid cache returns `ErrCacheInvalid` without reading; a valid one returns `Fetched` |
| `Cache.RedisCache.ReadWithExpiration` | cache/redisCache.go:317-331 | the configuration and expiration gates come first, then the validity gate, then `Fetched` |
| `Cache.RedisCache.ReadGroup` | cache/redisCache.go:379-423 | an invalid cache returns `ErrCacheInvalid`; no keys is an arity error; otherwise `Present` of the reply: the documents of the present keys, in key order |
| `Cache.RedisCache.Delete` | cache/redisCache.go:424-426 | exactly the key is removed, or an error and no change |
| `CacheScenarios.FlagAndDocumentRoundTrip` | cache/redisCache_test.go:38-78 | set then get a flag is true and after delete false; a stored document reads back, and after delete the read gives `ErrItemNotFound` |
| `CacheScenarios.ForcedRequestsCoalesce` | cache/redisCache.go:199-216 | two forced requests during a run give exactly one extra run, and that run asks for none |
| `CacheScenarios.RetryUntilFillerSucceeds` | cache/redisCache.go:253-268 | three attempts with a filler failing twice: two failures, then success, and the cache is valid |
| `CacheScenarios.RetriesRunOut` | cache/redisCache.go:253-268 | two attempts with the same filler: the error names two attempts and the last error, and the cache is invalid |
| `CacheScenarios.LeaseIsShared` | cache/redisCache.go:160-182 | a second multiserver cache cannot start while the first holds the lease, and can once the lease expires |
| `CacheScenarios.PurgeDropsLease` | cache/redisCache.go:271-288 | after the first attempt of a run, a second instance acquires the lock while the run still holds it |
| `CacheScenarios.ZeroWaitPanics` | cache/redisCache.go:253-265 | with a wait of zero and three attempts allowed, the first failure panics, no second attempt runs, and the forced request is never served |
| `CacheScenarios.RefusedSetLeavesRefreshedCacheInvalid` | cache/redisCache.go:149-154 | a multiserver refresh under a server that refuses SET reports success, the cache is invalid, and a read is refused |
| `CacheScenarios.RefusedSetRunReportsSuccess` | cache/redisCache.go:217-243 | that refresh's one attempt completes and leaves no validity flag, whatever the keyspace held |
| `Pagination.IsPaged` | pagination/pagination.go:23-25 | a paged query has a page size of at least 1 |
| `Pagination.IsUnPaged` | pagination/pagination.go:26-28 | an unpaged query is not paged; a query that is neither has a negative size |
| `Pagination.TotalPages` | pagination/pagination.go:30-39 | at least 1; 1 when either count is not positive; otherwise the ceiling: `(tp-1)*s < c <= tp*s` |
| `Pagination.TotalPagesExamples` | pagination/pagination_test.go:9-26 | 10/5 gives 2 and 10/4 gives 3 |
| `Pagination.NewPaginatedResponse` | pagination/pagination.go:40-47 | copies its inputs and counts the pages for them |
| `Pagination.StandardisePaginatedQuery` | pagination/pagination.go:56-68 | size in `ValidPageSizes`: negative→0, >100→MaxSafeInt, 0/25/50/100 kept, other→25; page clamped at 0; direction and sort kept |
| `Pagination.StandardiseIdempotent` | pagination/pagination.go:56-68 | standardising twice is standardising once |
| `Pagination.StandardisedPagedXorUnPaged` | pagination/pagination.go:23-28 | a standardised query is exactly one of paged and unpaged |
| `Pagination.StandardiseExamples` | pagination/pagination_test.go:28-75 | 33→25, 110→MaxSafeInt, 0→0, 50 kept, page −1→0 |
| `Framing.Join` | utils/slices.go:14-16 | `bytes.Join`/`strings.Join`: no rows join to the empty sequence (contents fixed by the lemmas below) |
| `Framing.Split` | utils/slices.go:35-37 | `bytes.Split`: at least one part |
| `Framing.JoinLength` | utils/slices.go:14-16 | the joined length is the rows' total plus one separator per gap |
| `Framing.JoinConcat` | utils/slices.go:39-45 | joining two groups puts exactly one separator between their joins |
| `Framing.SplitCount` | utils/slices.go:35-37 | a split has one part more than the input has separators |
| `Framing.SplitPartsFree` | utils/slices.go:35-37 | no part of a split contains the separator |
| `Framing.JoinSplit` | utils/slices.go:35-37 | joining the parts of a split gives the input back |
| `Framing.SplitJoin` | utils/slices.go:14-37 | splitting a join of separator-free rows gives the rows back |
| `UtilsSlices.JoinByteSlicesWithLF` | utils/slices.go:14-16 | empty for no slices; otherwise total length plus one LF per gap |
| `UtilsSlices.JoinSingleLineByteSlicesWithLF` | utils/slices.go:20-33 | an error iff some slice holds an LF, naming the first such slice, with an empty result; otherwise the same bytes as `JoinByteSlicesWithLF` |
| `UtilsSlices.SplitByteSliceByLF` | utils/slices.go:35-37 | one part more than there are LFs; no part holds an LF |
| `UtilsSlices.SplitJoinSingleLine` | utils/slices_test.go:72-82 | splitting the join of a non-empty list of single-line slices gives the list back |
| `UtilsSlices.JoinSplitByLF` | utils/slices.go:14-37 | joining the split of any input gives it back |
| `UtilsSlices.JoinEnumsAsString` | utils/slices.go:39-45 | length of all values plus one separator per gap; one value joins to itself, none to "" |
| `UtilsSlices.JoinEnumsInOrder` | utils/slices.go:39-45 | values appear in order with exactly one separator between neighbours |
| `UtilsSlices.Partitions` | utils/slices.go:47-67 | no ranges when either length is not positive |
| `UtilsSlices.PartitionsTile` | utils/slices.go:47-67 | the ranges tile `[0,totalLength)` consecutively, width `partitionLength` except a final remainder |
| `UtilsSlices.PartitionsAdjacent` | utils/slices.go:54-60 | a range other than the last has full width and ends where the next starts |
| `UtilsSlices.PartitionsEnds` | utils/slices.go:54-66 | the first range starts at 0, the last ends at `totalLength`, its width the remainder or a full one |
| `UtilsSlices.PartitionsCount` | utils/slices.go:47-67 | there are as many ranges as pages are needed: `(n-1)*p < total <= n*p` |
| `UtilsSlices.Partition` | utils/slices.go:47-67 | consumer calls follow `Partitions` in order; the first error stops and is returned; with no error every range was handed out (none when a length is not positive) |
| `UtilSlices.SliceContains` | util/slices.go:5-12 | true iff some element equals the searched value |
| `UtilSlices.ConvertBytes2Dto1D` | util/slices.go:14-26 | an error and an empty result iff some row holds a NUL; otherwise the rows joined with one NUL between neighbours |
| `UtilSlices.ConvertBytes1Dto2D` | util/slices.go:28-41 | the result is the NUL-separated parts, without a trailing empty part |
| `UtilSlices.Rows` | util/slices.go:28-41 | no row holds a NUL; empty input has no rows |
| `UtilSlices.RowsCount` | util/slices.go:28-41 | empty input has no rows; otherwise one row per NUL, plus one when the input does not end in NUL |
| `UtilSlices.RowsOfPacked` | util/slices.go:14-41 | unpacking undoes packing when no row holds NUL and the last row is not empty |
| `UtilSlices.RowsOfPackedDropsTrailingEmptyRow` | util/slices.go:37-40 | a trailing empty row is lost in the round trip, and only it |
| `UtilSlices.PackedRows` | util/slices.go:28-41 | packing the rows reconstructs any input that does not end in NUL |
| `UtilsTypes.StringToPointer` | utils/types.go:11-13 | never nil; points to the string, `""` included |
| `UtilsTypes.StringToPointerWithNil` | utils/types.go:14-19 | nil iff the string is `""`; otherwise points to it |
| `UtilsTypes.StringPointerToString` | utils/types.go:20-25 | the pointee, `""` for nil |
| `UtilsTypes.StringPointerToStringWithDefault` | utils/types.go:26-31 | the pointee, the default for nil |
| `UtilsTypes.NullStringToString` | utils/types.go:32-37 | the string if valid, else `""` |
| `UtilsTypes.NullStringToStringPointer` | utils/types.go:38-43 | nil iff not valid; otherwise points to the string |
| `UtilsTypes.UUIDToNullUUID` | utils/types.go:46-51 | carries the UUID; valid iff it is not the nil UUID |
| `UtilsTypes.NullUUIDToUUIDPointer` | utils/types.go:52-57 | nil iff not valid; otherwise points to the UUID |
| `UtilsTypes.NullTimeToTimePointer` | utils/types.go:60-65 | nil iff not valid; otherwise points to the time |
| `UtilsTypes.TimePointerToNullTime` | utils/types.go:66-74 | valid iff non-nil, holding the pointee; nil gives the zero NullTime |
| `UtilsTypes.IntToPointer` | utils/types.go:77-79 | never nil; points to the integer |
| `UtilsTypes.StringPointerRoundTrip` | utils/types.go:11-25 | dereferencing a pointer made from a string gives the string |
| `UtilsTypes.StringRoundTripWithNil` | utils/types.go:14-25 | pointer to string and back is the identity except on a pointer to `""` |
| `UtilsTypes.NullStringFormsAgree` | utils/types.go:32-43 | the pointer and string forms of a NullString agree |
| `UtilsTypes.UUIDRoundTrip` | utils/types.go:46-57 | a UUID survives the trip through NullUUID unless it is nil |
| `UtilsTypes.TimePointerRoundTrip` | utils/types.go:60-74 | a time pointer survives the trip through NullTime, nil included |
| `UtilsTypes.NullTimeRoundTrip` | utils/types.go:60-74 | a NullTime survives the trip through a pointer iff it is valid or zero |
| `UtilsTypes.UUIDToNullUUIDExamples` | utils/types_test.go:71-97 | the test UUID is valid, the nil UUID is not |
| `UtilTypes.StringPointerToString` | util/types.go:9-14 | the pointee, `""` for nil |
| `UtilTypes.StringPointerToStringWithDefault` | util/types.go:15-20 | the pointee, the default for nil |
| `UtilTypes.NullStringToString` | util/types.go:22-27 | the string if valid, else `""` |
| `UtilTypes.NullStringToStringPointer` | util/types.go:28-33 | nil iff not valid; otherwise points to the string |
| `UtilTypes.NullUUIDToUUIDPointer` | util/types.go:35-40 | nil iff not valid; otherwise points to the UUID |
| `UtilTypes.NullTimeToTimePointer` | util/types.go:42-47 | nil iff not valid; otherwise points to the time |
| `UtilTypes.TimePointerToNullTime` | util/types.go:48-56 | valid iff non-nil; nil gives the zero NullTime |
| `UtilTypes.TimePointerRoundTrip` | util/types.go:42-56 | a time pointer survives the trip through NullTime |
| `DbUtils.NullStringToString` | db/dbutils.go:8-13 | the string if valid, else `""` |
| `DbUtils.NullStringToStringPointer` | db/dbutils.go:14-19 | nil iff not valid; otherwise points to the string |
| `DbUtils.NullTimeToTimePointer` | db/dbutils.go:21-26 | nil iff not valid; otherwise points to the time |
| `DbUtils.TimePointerToNullTime` | db/dbutils.go:27-35 | valid iff non-nil; nil gives the zero NullTime |
| `DbUtils.TimePointerRoundTrip` | db/dbutils.go:21-35 | a time pointer survives the trip through NullTime |

## Left out

- Concurrency. The refresh goroutine is one synchronous step (`RunRefresh`), and so is the follow-up goroutine (the `followUp` result). Races are not modelled: on `TryLock`, on the check-then-set of the multiserver lease, or on `forceUpdateRequested` written while a run is going. A run's keyspace cannot change under it except through its own callbacks.
- Backoff timing in `retry`: `math.Pow`, random jitter and `time.Sleep`. Only the attempt count, each attempt's outcome, and the panic of `Int63n` for a wait that is not positive are modelled. `RefreshRetryWaitExponent` is carried but unused. The conversion of the wait to nanoseconds (`RefreshRetryWaitStartMs` times 10^6) may overflow 64 bits for a huge wait, turning it negative; that overflow is not modelled.
- Cache.RedisCache.RunRefresh: after a panic the process ends. The deferred cleanup still releases the lock and clears the forced request, and the follow-up it would start never runs (`followUp` is false). Nothing else after the panic is modelled.
- Cache.AttemptStages: whether the server answers is fixed for a whole run (`Client.reachable`), so only the first SCAN of the purge can fail. In the source a SCAN error on a later iteration (cache/redisCache.go:276-280) ends the attempt after earlier batches were already deleted (line 282); the model does not admit that half-done purge, and "nothing changes" on a failed purge holds only in the model.
- Cache.RedisCache.ClearCache: for the same reason, a SCAN error is returned only when the server is down from the start, and then nothing is deleted. A purge ended by a SCAN error after some DELs, which leaves only part of `name:` deleted, is not modelled.
- Server refusals are per command kind for the whole run (`Client.refused`). A server that fails one SET and accepts the next is not modelled; the refusal lemmas need only one refused command to show the swallowed errors.
- Logging, `fmtErr`/`fmtMsg` message text, and `context.Context`.
- JSON marshalling and unmarshalling. Documents are opaque strings, so an unmarshal error of `read` or `ReadGroup` is not modelled. Neither is the reflection check of `ReadGroup`'s target (lines 394-406).
- Redis.DocAt: with the path `$`, JSON.MGET returns each document wrapped in a JSON array. The model returns the document itself, so an element is not byte-for-byte what `ReadGroup` unmarshals.
- Cache.RedisCache.ReadWithExpiration: does not model the expiration refresh (TTL then EXPIRE in a pipeline, lines 342-362). It returns what `Read` returns, after the same configuration and expiration gates.
- Redis.Client.JsonSet: stores the document without expiration. Whether Redis keeps a previous expiration on JSON.SET is not modelled.
- Redis.Client.Expire: does not model go-redis rounding the duration to whole seconds (sub-second durations become one second).
- Redis.Client.Scan: returns all remaining matching keys in one batch rather than about 50. `ClearCache` relies only on the contract, which allows any split. A `*` or `?` in the cache name is treated as a literal prefix character, not as a glob pattern.
- Redis.Client.Scan: a real SCAN step may return no keys with a cursor that is not yet zero. The contract excludes that so that every step of `ClearCache`'s loop makes progress. Such steps only add iterations; the keys finally deleted are the same.
- Redis.Client.Del: a DEL with no keys is an arity error. `ClearCache` still calls it for an empty batch and drops the error, which changes nothing.
- The set operations (`AddItemToSet`, `IsItemInSet`, `GetItemsInSetAsMap`, `DeleteItemFromSet`, lines 430-441) pass a single command through to Redis and add no logic.
- The RediSearch index functions (`CreateIndex`, `SearchInIndex`, `DeleteIndex`, lines 465-510) are library calls on an index the model has no counterpart for.
- `rnd`, the random source of the struct (line 66), serves only the jitter. Its values are not modelled, only the panic of `Int63n` on a bound that is not positive.
- Panics other than that of `retry` (which is the `crashed` outcome) are preconditions:
  - `SetFlagWithExpiration` dereferences a nil expiration (lines 449-453);
  - `MutexUnlock` of an unlocked `sync.Mutex` in single-instance mode is fatal.
- Go's 64-bit `int` overflow is not modelled: integers are unbounded. This matters only beyond 2^63 in `TotalPages` and `Partition`.
- CacheKeys.KeyForPage: states only that the key lies under `name:`. It is not injective, because direction and sort may contain `|`, so no injectivity is claimed.
- Pointer identity and aliasing: pointers are compared by value.
- `time.Time` is reduced to seconds and nanoseconds. Locations and the monotonic clock are not modelled.
- The encoding, database connection, database error, timezone and constant-only files hold I/O, foreign library calls or no logic, and are not part of this model.
