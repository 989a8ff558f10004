# Verified model of the likes service

The repository is a likes microservice: users like and unlike content, and read counts,
statuses, their own likes and leaderboards. Its correctness rests on a few small
protocols that keep state. This project models them in Dafny and proves what they keep
over every interleaving or every run.

`dafny verify dfyconfig.toml` checks everything.

## The modules

- `Basics` – values shared by the others.
- `Ledger` – `insert_like` and `delete_like` as transactions that interleave statement by
  statement under Read Committed (section 13.2.1 of the PostgreSQL documentation), with a
  lock for each `likes` key and for each `like_counts` row. A transaction may also abort at
  any moment. `Repository` has the same two calls as methods that update the tables in
  place, proved to do what a lone transaction of the ledger does.
- `Pagination` – the keyset query, the page and its cursor, the slice of the cached 100-row
  first page, and what a client sees that follows `next_cursor` over a table that changes
  between requests. A cursor is the pair (created_at, id). `LedgerPages` – the same over the
  tables of a run of the ledger.
- `SingleFlight`, `SingleFlightProofs`, `SingleFlightProgress` – concurrent single reads,
  batch reads and commands over L1, Redis, the pending map and its watch channels. An action
  is one access to shared state; commits, evictions, failed queries, an unreachable Redis and
  timeouts happen at any moment. A replica read returns any count that was committed, so a
  lagging reader pool is included. `SingleFlightSources` and `SingleFlightAnswers` keep a
  journal of what each step found, and say where every answer and cache entry comes from.
- `Cache`, `CountCache`, `Queries` – the two-level cache and the reads as methods over its
  maps, for one call at a time. `Keys` – the cache keys.
- `DirectService` – the whole service of one process without any cache; `Commands` and
  `Reads` say what it answers and stores in terms of the rows. `Service` – the same
  with its caches, as a class whose every operation is a step of a relation. `Coherence`,
  `Transparency` – when the two answer alike.
- `RateLimit` – the Lua script as an atomic step on a sorted set, with the caller's clock and
  the server's; `Fnv` – the hash of its keys.
- `CircuitBreaker`, `BreakerProofs` – the incremental breaker as a class, and a reference
  machine that keeps the full log of outcomes and looks at time windows only when it decides.
  `BreakerTrips` – when a closed breaker opens. `Probes` – which requests are outstanding; a
  report names the request it comes from.
- `Leaderboard` – the refresh of the sorted sets, and the top k that is served from them.

Clocks, the answers of the content API, evictions and failures are parameters of methods or
choices of actions.

## Where code and comments differ

- `delete_like` has a comment about a missing counter row (crates/social-api/src/repositories.rs:164-166).
  `Ledger.ClampNeverFires` shows that neither this default nor `GREATEST` ever decides.
- A half-open breaker is meant to let one probe through at a time.
  `Probes.TwoProbesOutstanding` is a run with two unreported probes: a request admitted before
  the breaker opened reports and clears the flag. `Probes.OutstandingBound` is the bound that
  does hold. `Probes.OneProbeIff` says when one at a time is guaranteed: if and only if no
  request is in flight but the probe itself, which just after opening means none at all.
- A validation that is answered from the content cache does not report to the breaker
  (crates/social-api/src/services/like_commands.rs:222-225). If it was the probe, every like
  and unlike is turned away for good, and nothing else has that effect:
  `DirectService.CommandsStopIff`. `DirectService.LockoutIsReachable` gets there under every
  configuration.
- A corrupt cached status is said to be treated as a miss
  (crates/social-api/src/services/like_queries.rs:419); the code answers "not liked", which is
  right exactly if there is no like: `Queries.CorruptStatusIff`.
- The limiter keeps its limit in every full window if and only if clocks never go back or the
  limit is 1: `RateLimit.FullWindowIff`; `RateLimit.BoundedIff` has the interval that is
  protected under any skew.
- The page key of "all types" is also the key of a type named "_", which the configuration
  does not exclude (crates/social-api/src/config.rs:34-49). `Keys.PageKeyInjective` says that
  this is the only collision, `Transparency.WrongPageServed` what it does, and
  `Transparency.TransparentIff` that page reads are right in every run if and only if not both
  pages are served.

## Model

| member | source | states |
|---|---|---|
| Ledger.InvPreserved | crates/social-api/src/repositories.rs:30-206 | every begin, statement, commit or abort, from any state, keeps: counters equal row counts, uncommitted changes fit the committed tables, at most one holder per lock |
| Ledger.CountsMatchAlways | crates/social-api/src/repositories.rs:30-206 | in every reachable state of any interleaving the committed `total_count` of each item (0 if absent) is the number of its committed `likes` rows |
| Ledger.LikedItemHasCounter | crates/social-api/src/repositories.rs:161-179 | an item with a liked row has a counter row, and it is at least 1 |
| Ledger.ClampNeverFires | crates/social-api/src/repositories.rs:161-179 | a delete that removed a row finds its counter at least 1, so it writes exactly one less: the clamp and the missing-row default are unreachable |
| Ledger.CountExactAtCommit | crates/social-api/src/repositories.rs:53-75 | the commit of a new like or real unlike changes exactly its own row, and the returned count is the number of committed rows at that instant |
| Ledger.ReturnedCountWasCommitted | crates/social-api/src/repositories.rs:76-127 | every count a call returns, also the read ones of AlreadyExisted, ConcurrentlyRemoved and NotLiked, was the number of committed rows at some moment of that call |
| Ledger.AnswerFitsCall | crates/social-api/src/repositories.rs:76-206 | over every interleaving: a like answers Inserted, AlreadyExisted or ConcurrentlyRemoved, and only a like does; the row of AlreadyExisted was committed under the key at a moment of the call; ConcurrentlyRemoved means that the key was liked at one moment of the call and not at a later one, NotLiked that it was not at some moment |
| Ledger.AnswersAccountForRows | crates/social-api/src/repositories.rs:98-127 | conservation: the rows of an item are the initial ones plus the calls that answered Inserted minus those that answered Deleted; for one key that sum stays 0 or 1 |
| Ledger.IdsAlways | crates/social-api/src/repositories.rs:39-52 | in every reachable state the ids of committed and uncommitted rows are distinct and below the sequence, which keyset pagination relies on |
| Ledger.WaitsGoUp | crates/social-api/src/repositories.rs:36-70 | whoever is waited for holds a higher lock level (key before counter) and is unfinished |
| Ledger.NoDeadlock | crates/social-api/src/repositories.rs:147-181 | from any unfinished transaction the chain of waits ends at one that can run |
| Ledger.StuckMeansDone | crates/social-api/src/repositories.rs:147-181 | when no transaction can advance, all have finished or aborted |
| Ledger.SchedulesEnd | crates/social-api/src/repositories.rs:36-206 | every schedule ends: n transactions take at most 6n actions, however they interleave |
| Repository.LikesDatabase.InsertLike | crates/social-api/src/repositories.rs:30-130 | the in-place call leaves the tables, the id sequence and the outcome of a lone transaction of the ledger |
| Repository.LikesDatabase.DeleteLike | crates/social-api/src/repositories.rs:141-206 | the same for `delete_like` |
| Repository.LoneLike | crates/social-api/src/repositories.rs:30-130 | a like adds its row once, answers AlreadyExisted on a repetition, returns the number of rows, and keeps every count right |
| Repository.LoneUnlike | crates/social-api/src/repositories.rs:141-206 | an unlike removes exactly its row, answers whether there was one, returns the number of rows, and keeps every count right |
| Repository.UnlikeUndoesLike | crates/social-api/src/repositories.rs:30-206 | a like of something not liked, then its unlike, give back the rows and every count |
| Pagination.GetUserLikes | crates/social-api/src/repositories.rs:288-320 | the executed query returns the first limit + 1 rows of the ordered selection |
| Pagination.FetchPage | crates/social-api/src/services/like_queries.rs:163-199 | the page of a request with a cursor: at most limit rows, `has_more` by the extra row, the cursor of the last row |
| Pagination.FetchFullFirstPage | crates/social-api/src/services/like_queries.rs:124-142 | what a first-page miss stores: up to 100 rows, and whether there are more |
| Pagination.SliceIsDirect | crates/social-api/src/services/like_queries.rs:436-474 | for every table and limit, slicing the cached 100-row page gives the items, `has_more` and cursor of the direct query |
| Pagination.DirectPageMeans | crates/social-api/src/services/like_queries.rs:163-199 | for every table, filter, cursor and limit: the page is the newest of the rows asked for, in order, as many as the limit clamped to 1..100 allows; `has_more` if and only if there are others, and then the cursor is the position of the last row |
| Pagination.PageSplits | crates/social-api/src/services/like_queries.rs:174-193 | every selected row is on the page, or strictly below its cursor |
| Pagination.TraversalSound | crates/social-api/src/services/like_queries.rs:103-200 | whatever is inserted and deleted between requests, a listed row was in the table and matched when its page was read |
| Pagination.TraversalDescends | crates/social-api/src/services/like_queries.rs:103-200 | all pages together are strictly decreasing in (created_at, id), so no row is listed twice |
| Pagination.TraversalComplete | crates/social-api/src/services/like_queries.rs:103-200 | a matching row present at every read, from the first page to the last, is listed |
| Pagination.StayingRowListedOnce | crates/social-api/src/services/like_queries.rs:103-200 | such a row is listed exactly once |
| Pagination.StaticTraversalListsAll | crates/social-api/src/repositories.rs:288-320 | on a table that does not change the pages concatenate to the whole sorted list, for any limits |
| Pagination.CursorsRunOut | crates/social-api/src/services/like_queries.rs:186-193 | on such a table a client reaches a page without `has_more` after at most one request per row and one more |
| LedgerPages.ListedRowsWereLiked | crates/social-api/src/services/like_queries.rs:154-199 | over any interleaving of likes and unlikes, a client's pages list no row twice, and each listed row was a committed like of the user when its page was read |
| LedgerPages.StayingLikeListedOnce | crates/social-api/src/services/like_queries.rs:154-199 | over any such interleaving, a like that is committed at every read is listed exactly once |
| SingleFlightProofs.InvPreserved | crates/social-api/src/services/like_count_cache.rs:38-246 | every step of any reader, command or environment keeps: the pending map and the tasks' leads agree, every sender and receiver belongs to a channel for its key, every task accounts for all its items |
| SingleFlightProofs.OneLeaderPerKey | crates/social-api/src/services/like_count_cache.rs:56-65 | in every reachable state a key is pending exactly if some task leads it; the leader is unique, running and not waiting |
| SingleFlightProofs.WaitersHoldNothing | crates/social-api/src/services/like_count_cache.rs:166-211 | a task that waits, falls back or has returned leads no key and keeps no channel open |
| SingleFlightProofs.FinishedAnswersAll | crates/social-api/src/services/like_count_cache.rs:99-234 | a call that returns has an answer for every item it was asked for: every placeholder was overwritten |
| SingleFlightProofs.ValuesPreserved | crates/social-api/src/services/like_count_cache.rs:38-246 | no step puts a count into L1, Redis, a channel or a task that was not committed for that item |
| SingleFlightProofs.AnswerWasCommitted | crates/social-api/src/services/like_count_cache.rs:38-246 | no fabricated counts: what a read answers, through L1, Redis (which other processes write too), its own query, a leader or the fallback, was committed for that item before the process started or at some moment of the run |
| SingleFlightProofs.AnswerCountedRows | crates/social-api/src/services/like_commands.rs:67-141 | with the ledger underneath, every count answered was the number of committed `likes` rows at some moment up to the answer |
| SingleFlightAnswers.AnswerHasSource | crates/social-api/src/services/like_count_cache.rs:38-256 | what a finished call answers for an item is what L1 or Redis held when it read them, what its own query found, or what was fetched for the channel that it joined, by the leader who owns it |
| SingleFlightAnswers.FoundIsAnswered | crates/social-api/src/services/like_count_cache.rs:46-97 | the other way round: whatever a step of a finished call found for an item is its answer, so it has one source for each item |
| SingleFlightAnswers.FollowerAgrees | crates/social-api/src/services/like_count_cache.rs:69-87 | a call that found nothing by itself answers what the owner of its channel fetched for the item and, once finished, answers too |
| SingleFlightAnswers.AnswerWasCurrent | crates/social-api/src/services/like_count_cache.rs:75-97 | if queries read the counts of their moment, an answer from neither a cache nor an own transaction was the committed count when it was queried, by this call or by the owner of its channel |
| SingleFlightAnswers.QueryHasCause | crates/social-api/src/services/like_count_cache.rs:248-267 | coalescing: a follower queries on its own only if it gave up waiting, or joined after the value was sent, or its leader's query failed |
| SingleFlightAnswers.OnlyMissesAreElected | crates/social-api/src/services/like_count_cache.rs:43-65 | nobody leads or follows for an item that it has not missed in L1 and then in Redis |
| SingleFlightAnswers.FailsIffQueryFailed | crates/social-api/src/services/like_count_cache.rs:88-92 | a call fails if and only if one of its own queries fails |
| SingleFlightAnswers.CachesHaveSource | crates/social-api/src/services/like_count_cache.rs:236-246 | in every reachable state each count in L1 was read from Redis or from the database by a call, and each one in Redis was there at the start, or written by another process, or read from the database by a call |
| SingleFlightAnswers.FinishedHasStored | crates/social-api/src/services/like_count_cache.rs:80-88 | a finished call has stored at both levels what it fetched as a leader, what a batch queried for a followed item and what a command wrote, and has copied its Redis hits to L1 |
| SingleFlightAnswers.WrittenWasFound | crates/social-api/src/services/like_count_cache.rs:194-222 | what a call writes is what it found for that item, and it is one of these; a single follower writes nothing |
| SingleFlightProgress.WaitedForIsBusy | crates/social-api/src/services/like_count_cache.rs:166-231 | waits have depth one: whoever owns an awaited open channel is running and not waiting itself |
| SingleFlightProgress.NoWaitCycle | crates/social-api/src/services/like_count_cache.rs:147-231 | while a task is unfinished, it or the leader it waits for can step without a timeout |
| SingleFlightProgress.StuckMeansDone | crates/social-api/src/services/like_count_cache.rs:147-231 | in a reachable state where nothing steps without a timeout, every task has returned |
| SingleFlightProgress.WeightShrinks | crates/social-api/src/services/like_count_cache.rs:38-246 | every step of a task, timeouts and failed queries included, lowers the total of steps left; commits and evictions do not raise it |
| SingleFlightProgress.StepsAreBounded | crates/social-api/src/services/like_count_cache.rs:38-246 | all calls together take at most 30 steps for each item and 9 for each call, however they interleave |
| SingleFlightProgress.EveryoneCanFinish | crates/social-api/src/services/like_count_cache.rs:38-246 | from every state that satisfies the invariant all calls can return with no timeout and no failed query |
| Cache.CacheManager.Get | crates/social-api/src/cache.rs:79-104 | answers L1, else Redis; a Redis hit is the only thing copied to L1 |
| Cache.CacheManager.MGet | crates/social-api/src/cache.rs:219-277 | every position, duplicates included, gets what `get` of its key would find before the call, and L1 gains exactly the Redis hits |
| Cache.CacheManager.SetMany | crates/social-api/src/cache.rs:140-173 | all entries are in L1, and in Redis if it is reachable; nothing else changes |
| Cache.CacheManager.DelMany | crates/social-api/src/cache.rs:377-406 | exactly the named keys leave L1, and Redis if it is reachable |
| Cache.PutGrown | crates/social-api/src/cache.rs:140-173 | after a write-back every entry of either level is an old one of its key or one of the facts written |
| CountCache.CollectedCounts | crates/social-api/src/services/like_count_cache.rs:169-182 | looking a led item up in the collected query rows, with default 0, gives its committed count |
| CountCache.LikeCountCache.GetCountValue | crates/social-api/src/services/like_count_cache.rs:38-95 | the answer is the cached count, else the table's; an error only on a miss with a failing query; the pending map is as before |
| CountCache.LikeCountCache.Elect | crates/social-api/src/services/like_count_cache.rs:147-164 | each missing key is led if nobody was fetching it, followed if somebody was, and all are pending afterwards |
| CountCache.LikeCountCache.BatchCounts | crates/social-api/src/services/like_count_cache.rs:99-234 | for up to 100 items, duplicates included, one result per item in order, equal to the single read of that item; an error exactly if the batch is too large, or a missing key depends on a query that fails, the one of the led keys or its own fallback; the pending map is as before |
| Queries.LikeQueryService.GetStatus | crates/social-api/src/services/like_queries.rs:67-99 | the answer is the cached status, else the table's, and only that fact is written to the cache |
| Queries.LikeQueryService.BatchStatuses | crates/social-api/src/services/like_queries.rs:211-303 | for up to 100 items, duplicates included, one result per item in order, equal to the single read of that item |
| Queries.CorruptStatusIff | crates/social-api/src/services/like_queries.rs:413-426 | a stored text that does not parse is answered rightly if and only if the user does not like the item |
| Queries.LikeQueryService.FirstLikesPage | crates/social-api/src/services/like_queries.rs:110-152 | the first page is the slice of the cached full page, or of a fresh one that is then cached |
| Queries.LikeQueryService.LaterLikesPage | crates/social-api/src/services/like_queries.rs:154-199 | a request with a readable cursor is answered by the direct page, an unreadable one with an error |
| Reads.DirectReadMeans | crates/social-api/src/services/like_queries.rs:67-200 | every read in terms of the rows: counts are numbers of rows, a status is liked if and only if the row exists and carries its time, batches answer position by position up to 100 items, pages are those of `Pagination.DirectPageMeans`, an unreadable cursor is InvalidCursor |
| Keys.CountKeyInjective | crates/social-api/src/services/like_count_cache.rs:274-276 | two items never share a count key, even if types contain ':' |
| Keys.StatusKeyInjective | crates/social-api/src/services/like_queries.rs:431-433 | two (user, item) pairs never share a status key |
| Keys.PageKeyInjective | crates/social-api/src/services/like_queries.rs:114-115 | two first pages share a key if and only if user and filter agree, or one filter is absent and the other is "_" |
| Keys.KeysDisjoint | crates/social-api/src/services/like_commands.rs:176-195 | count, status and page keys never coincide |
| Keys.ForeignKeysDisjoint | crates/social-api/src/clients/content_client.rs:63-65 | nor do they coincide with a key that the content clients, the profile clients or the filtered leaderboard write to the same cache |
| Coherence.ForeignIsFresh | crates/social-api/src/clients/content_client.rs:63-65 | so whatever these write, no count, status or page becomes untrue |
| Coherence.UntouchedStaysFresh | crates/social-api/src/services/like_commands.rs:188-197 | a command on one (user, item) leaves every cached entry true whose key is not the item's count, the user's status of it, or one of the user's two page keys |
| Coherence.WrittenStaysCoherent | crates/social-api/src/services/like_commands.rs:67-141 | the cache updates and the two deletes of a command leave only true entries, whatever the best-effort prefix invalidation drops |
| Coherence.GrownStaysCoherent | crates/social-api/src/cache.rs:79-130 | reads, copies between levels and evictions leave only true entries |
| Coherence.CoherentPage | crates/social-api/src/services/like_queries.rs:112-151 | over true entries the first page is the direct query's, for every limit |
| DirectService.CommandsStopIff | crates/social-api/src/services/like_commands.rs:201-239 | for every run of a service that started with a closed breaker: afterwards every like and unlike, whenever asked, is answered DependencyUnavailable if and only if some command of the run was admitted while the breaker was not closed and answered from the content cache |
| DirectService.LockoutIff | crates/social-api/src/services/like_commands.rs:201-239 | for every run from any breaker without a lost probe: it ends half-open with the probe out if and only if some such command was in it |
| DirectService.AllRejectedIff | crates/social-api/src/services/like_commands.rs:201-204 | every command, whenever asked, is rejected if and only if the breaker is half-open with its probe out; an open breaker only makes commands wait |
| DirectService.LockoutIsReachable | crates/social-api/src/services/like_commands.rs:201-239 | under every configuration a fresh service has a run that gets there |
| DirectService.CachedProbeStopsCommands | crates/social-api/src/services/like_commands.rs:222-233 | after one such command, every like and unlike of every later run is rejected |
| DirectService.LostProbeRejectsCommands | crates/social-api/src/services/like_commands.rs:201-204 | from a half-open breaker whose probe is out, no operation changes anything and every command is rejected |
| DirectService.BreakerHasHistory | crates/social-api/src/services/like_commands.rs:201-239 | the breaker of every run of the service is that of a history in which each validation asks once and reports once if and only if it was admitted and not answered from the cache; so the theorems on histories hold of it |
| Commands.LikeMeans | crates/social-api/src/services/like_commands.rs:55-119 | a like answers Ok if and only if it was admitted and its content answered as valid, ContentNotFound if and only if admitted and answered as invalid, DependencyUnavailable if and only if not admitted; on an error tables and events are unchanged; on Ok the row is there, and every field of the answer and the event follow from the tables before and after |
| Commands.UnlikeMeans | crates/social-api/src/services/like_commands.rs:123-165 | the same for an unlike: the row is gone, `was_liked` if and only if it was there, and only then an event |
| Commands.BreakerHears | crates/social-api/src/services/like_commands.rs:201-239 | what each validation does to the breaker: nothing if rejected, no report if answered from the cache, and otherwise the outcome of the call |
| Service.LikesService.InvalidateUserLikes | crates/social-api/src/services/like_commands.rs:188-197 | L1 loses the two page keys for certain and gains nothing; Redis loses exactly these two if it is reachable, and nothing if not |
| Service.LikesService.DoLike | crates/social-api/src/services/like_commands.rs:55-119 | same answer, tables, breaker and events as without a cache, and with them what `Commands.LikeMeans` says of the answer; each layer then holds the new count and status, and old entries that the command could not change |
| Service.LikesService.DoUnlike | crates/social-api/src/services/like_commands.rs:123-165 | the same for `unlike`, with `Commands.UnlikeMeans` |
| Service.LikesService.Run | crates/social-api/src/services/like_commands.rs:55-197 | operations executed one after another are a run of the specification that the next rows are about, from the fields before to the fields after |
| Transparency.RunIsTransparent | crates/social-api/src/services/like_queries.rs:67-152 | cache transparency: over any non-overlapping run of commands, reads and evictions, from coherent caches, every answer is the one of the service without a cache, and the caches stay coherent |
| Transparency.RunTransparently | crates/social-api/src/services/like_commands.rs:55-197 | the same of the service object: its answers and its final tables, breaker and events |
| Transparency.WrongPageServed | crates/social-api/src/services/like_queries.rs:114-122 | with the page of all types cached, the first page of a type named "_" is answered wrongly at every limit, for every user whose newest like is of another type |
| Transparency.TransparentIff | crates/social-api/src/services/like_queries.rs:112-152 | for every set of served filters: all runs from a cold start are transparent if and only if not both "all types" and "_" are served |
| RateLimit.MembersAreCalls | crates/social-api/src/middleware/rate_limit.rs:33-52 | every member of the set is an accepted call that no later call has pruned, with its own clock as score |
| RateLimit.AcceptedIff | crates/social-api/src/middleware/rate_limit.rs:33-52 | a call is accepted if and only if fewer than `limit` earlier accepted calls are still in the window and unpruned |
| RateLimit.ReplyCountsLive | crates/social-api/src/middleware/rate_limit.rs:36-62 | every reply of every run: the count is the number of live calls, with this one if and only if it is accepted; `reset_ms` is the time until the earliest of these leaves the window, and 0 if there are none |
| RateLimit.WindowBound | crates/social-api/src/middleware/rate_limit.rs:33-52 | with clocks at most d behind, no interval of length window - d contains more than `limit` accepted requests |
| RateLimit.ExactSlidingWindow | crates/social-api/src/middleware/rate_limit.rs:33-48 | with clocks that do not go back, a request is rejected exactly if `limit` accepted ones lie in the window before it |
| RateLimit.OneAtATime | crates/social-api/src/middleware/rate_limit.rs:33-52 | with limit 1, accepted requests are at least a window apart, whatever the clocks do |
| RateLimit.BoundedIff | crates/social-api/src/middleware/rate_limit.rs:33-52 | for every window, limit and skew d: all runs put at most `limit` accepted requests into every interval of a length if and only if the length is at most window - d, or window if the limit is 1 |
| RateLimit.FullWindowIff | crates/social-api/src/middleware/rate_limit.rs:33-52 | all runs keep the limit in every full window if and only if d is 0 or the limit is 1 |
| RateLimit.SetNeverOverfull | crates/social-api/src/middleware/rate_limit.rs:36-51 | the sorted set never holds more than `limit` members, whatever the clocks do |
| RateLimit.RetryIff | crates/social-api/src/middleware/rate_limit.rs:39-48 | after a rejection, until the next acceptance, a request is accepted exactly from `reset_ms` later on; `reset_ms` is in 1..window |
| RateLimit.RetryAfterIsTight | crates/social-api/src/middleware/rate_limit.rs:109-116 | a retry `reset_secs` later is accepted, one a second earlier is rejected, and `reset_secs` is in 1..window |
| RateLimit.ExpiryNeverDecides | crates/social-api/src/middleware/rate_limit.rs:50-52 | with clocks that advance together (up to ten seconds) EXPIRE never changes an answer |
| RateLimit.RateLimiter.Script | crates/social-api/src/middleware/rate_limit.rs:26-62 | the script's statements compute the reply, about which `RateLimit.ReplyCountsLive` speaks, and the key |
| RateLimit.RateLimiter.CheckRateLimit | crates/social-api/src/middleware/rate_limit.rs:76-139 | the answer depends on this key's own history only: current counts its live calls and this one if accepted, and `reset_secs` is the time until the earliest leaves the window, rounded up, in 1..window; members stay distinct, and an unreachable Redis lets the request pass |
| Fnv.Fnv1aHash | crates/social-api/src/middleware/rate_limit.rs:278-287 | the loop computes the hash whose properties the next rows state |
| Fnv.SuffixPreservesCollisions | crates/social-api/src/middleware/rate_limit.rs:282-285 | a common suffix neither creates nor removes a collision |
| Fnv.OneByteNeverCollides | crates/social-api/src/middleware/rate_limit.rs:282-285 | inputs of equal length that differ in exactly one byte never collide |
| Fnv.KnownAnswers | crates/social-api/src/middleware/rate_limit.rs:278-287 | the published test vectors of 64-bit FNV-1a for "", "a" and "foobar" |
| CircuitBreaker.Breaker.AllowRequest | crates/social-api/src/clients/circuit_breaker.rs:105-129 | the fields become those of the next state, and the answer is that of the admission rule the theorems below are about |
| CircuitBreaker.Breaker.RecordSuccess | crates/social-api/src/clients/circuit_breaker.rs:132-148 | the fields become those of the next state |
| CircuitBreaker.Breaker.RecordFailure | crates/social-api/src/clients/circuit_breaker.rs:151-182 | the fields become those of the next state; `BreakerTrips.OpensIff` says when that is open |
| BreakerProofs.DropStaleIsRecent | crates/social-api/src/clients/circuit_breaker.rs:191-205 | popping stale entries from the front of an ordered deque keeps exactly those within the window |
| BreakerProofs.BreakerRefinesReference | crates/social-api/src/clients/circuit_breaker.rs:105-251 | on every history with a monotone clock the breaker is in the state of the full-log reference machine and gives its answers |
| BreakerProofs.ClosedWindow | crates/social-api/src/clients/circuit_breaker.rs:191-215 | while closed, the deque is the outcomes since the breaker last closed that were in the window at the last push, and the failure counter is the trailing failures among all of them |
| BreakerTrips.OpensIff | crates/social-api/src/clients/circuit_breaker.rs:151-215 | on every history with a monotone clock, a failure reported to a closed breaker opens it if and only if the last `failure_threshold` reports since it closed were failures, or the reports of the window since then number at least `min_calls_for_rate` and the failures among them more than the threshold share, counted as sets of events |
| BreakerTrips.OnlyFailureOpens | crates/social-api/src/clients/circuit_breaker.rs:105-148 | nothing but a failure opens a closed breaker |
| Probes.OutstandingBound | crates/social-api/src/clients/circuit_breaker.rs:105-182 | while the breaker is not closed, the requests admitted and not yet reported are at most 1 plus the reports that came from requests admitted before |
| Probes.OneProbeIff | crates/social-api/src/clients/circuit_breaker.rs:105-182 | for every history whose breaker is not closed: every continuation that stays not closed keeps at most one of its requests outstanding if and only if the requests in flight now are at most the probe itself |
| Probes.TwoProbesOutstanding | crates/social-api/src/clients/circuit_breaker.rs:131-148 | a run in which only admitted requests report, each once, and two probes are outstanding after one stale report |
| BreakerProofs.NoEarlyProbe | crates/social-api/src/clients/circuit_breaker.rs:116-127 | an open breaker admits nobody before `recovery_timeout` after the latest failure anybody reported |
| BreakerProofs.ClosingIsEarned | crates/social-api/src/clients/circuit_breaker.rs:142-147 | every return to closed follows `success_threshold` half-open successes (one, if it is 0) with no failure among them |
| BreakerProofs.Recovery | crates/social-api/src/clients/circuit_breaker.rs:105-148 | from open after the timeout, that many successful rounds close the breaker and none is rejected |
| BreakerProofs.LostProbeRejectsAll | crates/social-api/src/clients/circuit_breaker.rs:109-115 | a half-open breaker with its probe flag set is left only by a report: until one comes it rejects everything |
| Leaderboard.TopOf | crates/social-api/src/repositories.rs:356-393 | the rows of ORDER BY count DESC LIMIT k are a top k, in some order of ties |
| Leaderboard.MemberRoundTrip | crates/social-api/src/services/like_queries.rs:476-496 | a member is read back as its item if and only if the content type has no ':' |
| Leaderboard.ExactIff | crates/social-api/src/tasks/leaderboard_refresh.rs:111-114 | a count survives the conversion to a double if and only if it has at most 53 significant bits |
| Leaderboard.NearestDouble | crates/social-api/src/tasks/leaderboard_refresh.rs:111-114 | the conversion gives a nearest number of 53 significant bits, and of two the even one |
| Leaderboard.SmallTableIsClean | crates/social-api/src/tasks/leaderboard_refresh.rs:111-114 | in particular every table of colon-free types with counts below 2^53 meets the premise of the rows below |
| Leaderboard.TopOfTop | crates/social-api/src/services/like_queries.rs:315-334 | k rows of a set that holds a top 50 decode to a true top k of the table, whatever the tie order of either query |
| Leaderboard.BuildMembers | crates/social-api/src/tasks/leaderboard_refresh.rs:110-114 | the set written by a refresh holds a top 50 of a table of colon-free types and exact counts |
| Leaderboard.Leaderboards.RefreshAllWindows | crates/social-api/src/tasks/leaderboard_refresh.rs:74-117 | after a cycle every window whose query and whose write succeeded holds a top 50 of its table; every other window, and every L1 copy that was not dropped, is as before |
| Leaderboard.Leaderboards.GetLeaderboard | crates/social-api/src/services/like_queries.rs:307-402 | the unfiltered leaderboard is decoded from the L1 copy, else from a top k of a non-empty stored set, which is copied to L1, else is a top k of the table now |
| Leaderboard.AnswerIsTop | crates/social-api/src/services/like_queries.rs:313-334 | in every run of cycles, requests and expiry: with no L1 copy and Redis reachable, the answer is a true top k of the table that the latest cycle stored, or of the table now if there is none; with a copy, of the table that was the latest when the request took it that L1 has kept since |
| Leaderboard.Serve | crates/social-api/src/tasks/leaderboard_refresh.rs:74-117 | the object's operations one after another, from an empty cache, are such a run |

## Left out

- HTTP, gRPC and SSE plumbing, extractors, middleware wiring, OpenAPI, metrics, logging, health checks and configuration.
- The content and profile clients: the content API is a parameter that says remote, cached or failed.
- `services/pubsub_manager.rs` and `realtime.rs`: the removal of a stale bridge is not atomic, so there is no uniqueness to prove; published events are a sequence.
- The text of cursors (base64url over JSON) and the parsing of UUIDs, RFC 3339 and JSON: cached texts are values of a datatype, and a text that does not parse is one of its cases.
- Time to live in moka and Redis: entries vanish at any moment instead; only the limiter's EXPIRE has a clock.
- Integer widths: counts, sequence numbers and breaker counters are unbounded.
- The failure rate is compared over the reals, not in double precision.
- `errors.rs`, protobuf conversions, the inflight drain and jitter: one-branch members only.
- The deadline of `statement_timeout` and the like in PostgreSQL: a failing statement is an abort of its transaction.
- The CHECK that a counter is not negative: `Ledger.CountsMatchAlways` implies that it never fails.
- Other processes in `SingleFlight` write counts to Redis that were committed; their own pending maps are not part of it.
- Snapshots of multi-row reads: a batch query in `SingleFlight` may see each item at a different moment, which allows more than one statement does.
- A batch in `SingleFlight` looks each distinct item up once; the positions of duplicates are handled in `CountCache`.
- A task that is dropped midway in `SingleFlight`: its entry in the pending map would stay for ever.
- Commands that fail to commit write nothing and are not actions of `SingleFlight`.
- Freshness under overlapping operations: a leader may write its count after a newer one, so a cached answer need not be current; `SingleFlightAnswers.AnswerWasCurrent` is about the others.
- Members of the limiter's sets that collide between processes: the sequence number is one process's, and distinct members are a premise.
- The filtered leaderboard: its rows are cached unchanged under their own key, which adds easy members only. The aggregation of a time window: a window's table of scores is given.
- Redis drops a sorted set that becomes empty; the model keeps an empty one, which answers the same.
- The items of a listed page keep the row id, which the response does not show.
- Transparency.RunIsTransparent: has Redis reachable, reads that see the latest commit, and calls that do not overlap.
- Cache.CacheManager.DelMany: does not drop L1 copies of sorted-set ranges, because these copies are kept in `Leaderboard`, and no caller deletes a sorted set.
