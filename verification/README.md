# Resolix verification model

Resolix is a DNS resolver with a controller and agents. This project models the in-memory state machines
behind it and proves what they keep, over every run where the original is shared by several goroutines.
Each region that the original protects with one lock is one atomic step; sockets, SQL, files and JSON
are parameters or abstract functions.

`dafny verify dfyconfig.toml` checks everything.

| component | modules |
|---|---|
| Filter engine: rule index, batched publication, rollback | `FilterRules`, `FilterEngine`, `FilterService`, `FilterVerdicts`, `FilterLoads` |
| DNS response cache: entries, LRU map, and the protocol around it | `CacheEntries`, `ResponseCache`, `CacheProtocol`, `CacheRuns`, `CacheAnswers` |
| Agent store-and-forward backlog and its bounded file | `BacklogItems`, `BacklogQueue`, `BacklogFile`, `BacklogFlush`, `BacklogCodec` |
| Archive queue, event ring and late updates | `ArchiveLedger`, `ArchiveQueue`, `EventRing`, `EventStore` |
| Hourly aggregates, retention and rolling statistics | `HourlyTables`, `RowCounts`, `QueryArchive`, `WindowCounters` |
| Shared text and option helpers | `Names`, `Options` |
| Rate limiter, rewrites and CNAME chasing, clients, upstream health | `RateLimiter`, `RewriteRules`, `CnameChase`, `CnameStages`, `ClientRegistry`, `UpstreamHealth` |

Objects whose methods update fields are classes; their methods are tied to functions of the old state, and
the properties are lemmas about those functions. Protocols that several goroutines drive are value state
machines with a `Step` datatype, an invariant kept by every step, and a `Run` over arbitrary step sequences.

Main results:

- **Filter.** The indexed lookup returns the verdict of scanning all exceptions and then all block rules, for
  every rule set and every regular-expression predicate. Over every interleaving of rule loads, nested
  batches, unlocked builds, replacements, additions and rollbacks, a stale index implies an open dirty batch
  or an outstanding build of the current generation. In every run a successful load leaves exactly the
  parsed lines as its source's rules. A rollback undoes an update, and a replacement leaves one source per
  enabled subscription.
- **Cache.** In every run, a cached key that some step invalidated comes from a fetch begun after that step, and
  every query gets the message that its flight's leader published for the same key; every cacheable result that
  no invalidation overtook is stored; some leader of every waited-for flight can always move; the LRU map evicts the least recently used key and its counters balance.
- **Backlog.** Every accepted event is sent, dropped, in flight or queued, once; the queue empties within
  a bounded number of sends if and only if retries are limited, and a batch that keeps failing is dropped by
  failure number retries + 1 and no earlier one; the file omits the shortest sufficient prefix, a
  restart restores the rest, and a flush leaves queued a suffix of the file and newer events, omitted items
  surviving only in the batch being sent.
- **Archive.** Arrivals are those committed, dropped, claimed and pending, and commits keep arrival order; ring and queue hold identical
  copies, and after a failed write exactly when no surviving event was updated during the write.
- **Aggregates.** Each pruned table is the GROUP BY of the unexpired rows, for every cutoff that does not step
  back beyond its own hour, and the rolling day counts each committed or pending event once, as plain numbers of rows.
- **Pipeline.** Which stage answers a question, and with what, is determined by what surrounds the pipeline:
  policy, rewrites, local records, safe search, the filter and the upstream servers, in this order, for the
  question itself and for every name it chases.
- **Supporting algorithms.** Token bucket, CNAME chase, client lookup and health hysteresis meet their bounds
  from both sides.

Properties that do not hold of the code as one might first state them, with the exact condition:

- Admission compares charged sizes with the limit and ignores the frame of the backlog file, so a queue
  filled to the limit can lose one event when it is written (`BacklogFile.NothingOmittedIff`, `BacklogFile.AdmittedEventOmitted`).
- A queue with unlimited retries need not drain (`BacklogItems.DrainsIffRetriesLimited`).
- An update between a claim and its restore reaches the ring but not the archived copy
  (`EventStore.Store.RestoreBatch`, `EventStore.UpdateDuringClaimIsLost`).
- A cutoff lower than an earlier one can undercount, as rows that were left to delete count as unexpired again.
  It is harmless if and only if the earlier cutoff is at most 0 or at most the end of the lower one's hour
  (`HourlyTables.StepBackRightIff`); what the table counts otherwise is `HourlyTables.TwoPrunesCount`.
- A retention cutoff inside the rolling window loses rows it needs; the exact condition is
  `HourlyTables.RetainedCountsIff`.
- An event that arrives late can overwrite a newer slot of a rolling counter (`WindowCounters.BumpExactIff`,
  `WindowCounters.LateEventLosesSlot`).
- An update between the two locks of an arrival can reach the ring only, or an older event of the queue
  (`EventStore.UpdateBetweenLocks`).
- The loop check compares another spelling of a CNAME target with an escaped final dot than the one looked up
  next. Owners repeat in a chase only after such a target, and every such target can make them repeat
  (`CnameChase.RepeatsIffEscaped`); a name that redirects to itself that way is chased to the depth limit
  (`CnameChase.EscapedTargetRepeats`), and the loop error has the exact condition of
  `CnameChase.LoopIffNineRedirects`.

Where code and comments disagree, the code is followed: a query that finds the table of miss flights full is
answered with a server failure, although the comment at `webgui/internal/dnsserver/cache_pipeline.go:46-47`
speaks of proceeding independently.

## Model

| member | source | states |
|---|---|---|
| FilterRules.FirstMatchExact | webgui/internal/filter/rule.go:114-119 | a scan of rules has exactly one first match and the reference scan finds it: a result satisfies the first-match property if and only if it is that one |
| FilterRules.WalkVisitsMatches | webgui/internal/filter/filter.go:276-294 | the walk that cuts a name at its dots visits exactly the nonempty names whose domain rules match the name |
| FilterRules.ParentKeepsSuffixes | webgui/internal/filter/rule.go:123-125 | a rule domain other than the name itself matches the name if and only if it matches the parent |
| FilterRules.BuildIndexIndexes | webgui/internal/filter/filter.go:645-680 | the built index holds, per rule domain, its earliest rule, and every regular-expression rule with its position |
| FilterRules.FirstIndexedMatch | webgui/internal/filter/filter.go:276-295 | for every rule set, every regex predicate and every name, walking the index returns the same rule, source and position as scanning the rules in order |
| FilterRules.SameIndexSameMatch | webgui/internal/filter/filter.go:276-295 | rule sets with equal indexes give equal verdicts, so publishing an equal index changes nothing |
| FilterService.BuildRuleIndex | webgui/internal/filter/filter.go:645-680 | the loop over sources and rules computes the index of the flattened scan |
| FilterService.Engine.Match | webgui/internal/filter/filter.go:136-153 | the verdict and its counters equal those of scanning all exceptions, then all block rules, of the installed rule set, and of the current one when the indexes are fresh |
| FilterService.Engine.Explain | webgui/internal/filter/filter.go:168-193 | the diagnosis of a typed name agrees with the verdict on its normal form, names both first matches, and reports an override exactly when both exist |
| FilterService.CleanKeepsNormal | webgui/internal/filter/filter.go:168-169 | a name in normal form is diagnosed as it is |
| FilterService.CleanTrims | webgui/internal/filter/filter.go:168-169 | white space around a typed name and one final dot go, and letters are lowered, whatever the name |
| FilterVerdicts.RuleMeaning | webgui/internal/filter/rule.go:114-125 | a domain rule matches its own name and exactly the names that end in a dot and that name; a regular expression decides by itself |
| FilterVerdicts.FirstOfScan | webgui/internal/filter/filter.go:645-680 | the first match of the scan is the first matching rule in source order and, within a source, in list order; there is none exactly if no rule of any source matches |
| FilterVerdicts.VerdictMeaning | webgui/internal/filter/filter.go:136-153 | without indexes or scans: a name is allowed if and only if some exception matches, blocked if and only if none does and some block rule matches; rule, source and reason are those of the first such rule |
| FilterService.Engine.SetRulesStatus | webgui/internal/filter/filter.go:417-510 | a load is the corresponding step: keep the last good rules on an error, skip unchanged checksums, remember at most three snapshots, and mark or rebuild the indexes |
| FilterService.Engine.BeginRuleUpdateBatch | webgui/internal/filter/filter.go:512-516 | opening a batch is the corresponding step |
| FilterService.Engine.EndRuleUpdateBatch | webgui/internal/filter/filter.go:518-537 | closing the outermost batch captures the rules for a build outside the lock if they are dirty |
| FilterService.Engine.PublishBuild | webgui/internal/filter/filter.go:538-545 | a build is installed if and only if no rule moved since it was captured |
| FilterService.Engine.RegisterSource | webgui/internal/filter/sources.go:44-101 | adding a file or subscription source is the corresponding step |
| FilterService.Engine.ReplaceUrlSources | webgui/internal/filter/filter.go:341-393 | replacing subscriptions keeps file sources, takes over unchanged subscriptions by ID, forgets the rules of dropped ones and rebuilds at a new generation |
| FilterService.Engine.RollbackSource | webgui/internal/filter/filter.go:553-594 | a rollback by ID is the corresponding step, and fails exactly when the source or its history is missing |
| FilterEngine.SetRulesConsistent | webgui/internal/filter/filter.go:417-510 | a load keeps rules owned by known sources, histories bounded, and exception-only sources without block rules |
| FilterEngine.ReplaceConsistent | webgui/internal/filter/filter.go:341-393 | a replacement keeps the same, whatever subscriptions are repeated, disabled or changed |
| FilterEngine.RollbackConsistent | webgui/internal/filter/filter.go:553-608 | a rollback keeps the same, although a snapshot may predate the exception-only policy |
| FilterEngine.SetRulesNeverStale | webgui/internal/filter/filter.go:461-470 | rules that move are covered by the dirty flag of an open batch or by an immediate rebuild |
| FilterEngine.AddSourceInv | webgui/internal/filter/sources.go:44-51 | adding a source without rules keeps the indexes as fresh as they were |
| FilterEngine.EndInv | webgui/internal/filter/filter.go:518-537 | closing a batch hands the staleness over to a build of the current rules |
| FilterEngine.PublishInv | webgui/internal/filter/filter.go:538-545 | publishing or discarding a build keeps stale indexes covered by another build or none |
| FilterEngine.StepInv | webgui/internal/filter/filter.go:341-594 | every step of the engine keeps the invariant: a stale index implies an open dirty batch or an outstanding build of the current generation |
| FilterEngine.FreshAtRest | webgui/internal/filter/filter.go:512-549 | after any interleaving, with no open batch and no build of the current generation outstanding, the four indexes are those of the current sources and rules |
| FilterEngine.RollbackRestores | webgui/internal/filter/filter.go:553-594 | a rollback makes the newest snapshot the rules of its source, leaves every other source alone, and rebuilds |
| FilterEngine.RollbackUndoesUpdate | webgui/internal/filter/filter.go:417-510 | rolling back an update that changed a subscription restores its rules, checksum and, if not full, its history, and the indexes of the rules before the update |
| FilterEngine.LoadInstalls | webgui/internal/filter/filter.go:446-494 | a load that moves the rules installs exactly the parsed lines: exceptions, or every line of an exception-only source, allow, the others block; other sources keep their rules |
| FilterLoads.RunHonest | webgui/internal/filter/filter.go:417-594 | in every run the checksum of each active source is that of its rules, or empty as long as it has none |
| FilterLoads.EveryLoadTakesEffect | webgui/internal/filter/filter.go:446-494 | after any run, a successful load of an active source leaves exactly the parsed lines as its rules, whether they are new, changed or as before |
| FilterLoads.LoadLeavesParsed | webgui/internal/filter/filter.go:446-470 | the same for one load, which touches no other source: no changed list is skipped and no unchanged one reinstalled differently |
| FilterLoads.ClassifyPositions | webgui/internal/filter/sources.go:587-620 | the rules of each class are those of exactly the lines with the right mark, in file order |
| FilterLoads.AddedSourceLoads | webgui/internal/filter/sources.go:44-101 | an added source is the last active one, with the given settings, and its first load takes effect |
| FilterLoads.FindUrlIsFirst | webgui/internal/filter/filter.go:553-558 | the source that a rollback by ID finds is the first subscription with that ID |
| FilterLoads.RollbackReclassifies | webgui/internal/filter/filter.go:553-608 | the newest snapshot becomes active under the current policy: for an exception-only source its block rules become exceptions; the indexes are rebuilt |
| FilterLoads.LoadedHistoryRollsBack | webgui/internal/filter/history.go:116-143 | a persisted history that was loaded ends with the snapshot a rollback restores; loading it moves no rule |
| FilterLoads.BatchesDefer | webgui/internal/filter/filter.go:512-549 | batches nest; inside one a load leaves the indexes alone and marks them; only closing the outermost dirty batch captures a build, of the rules as they are then |
| FilterEngine.ReplaceFollowsSubscriptions | webgui/internal/filter/filter.go:341-393 | after a replacement the sources are the files in order and then one distinct source per enabled subscription, in order, with its ID and settings |
| FilterEngine.RunDistinct | webgui/internal/filter/filter.go:341-393 | in every run each source is listed once |
| FilterEngine.ReplaceKeepsRules | webgui/internal/filter/filter.go:341-393 | sources that stay keep their rules, new ones have none, dropped ones lose theirs |
| FilterEngine.UnchangedSubscriptionStays | webgui/internal/filter/filter.go:341-401 | an enabled subscription takes over the last source of its ID when the settings are unchanged and no earlier subscription claimed it |
| CacheEntries.LiveWhileYoungerThanTtl | webgui/internal/dnsserver/cache.go:48-51 | an entry is live exactly while its age is below its TTL, to the nanosecond |
| CacheEntries.AdvertisedTtl | webgui/internal/dnsserver/cache.go:116-167 | a live entry advertises at least 1 second, and age plus advertised TTL lies in [TTL, TTL+1) |
| CacheEntries.MinAnswerTtl | webgui/internal/dnsserver/cache.go:459-469 | the loop computes the minimum TTL of a nonempty answer and 0 for an empty one |
| CacheEntries.ClampNearest | webgui/internal/dnsserver/cache.go:102-111 | a clamped TTL lies within the bounds, and no TTL within them is nearer to the given one |
| CacheEntries.FirstSoaAt | webgui/internal/dnsserver/cache.go:471-484 | of several SOA records the first one counts |
| CacheEntries.SoaTtl | webgui/internal/dnsserver/cache.go:471-484 | the negative TTL is the smaller of TTL and MINIMUM of the first SOA, as section 5 of RFC 2308 requires; none without an SOA |
| CacheEntries.EntryFor | webgui/internal/dnsserver/cache_pipeline.go:305-348 | which responses are stored, with which TTL, kind and backdated time, and exactly which are not |
| CacheEntries.ServfailLifetime | webgui/internal/dnsserver/cache_pipeline.go:305-348 | a stored server failure is live for exactly the configured subsecond bound |
| CacheEntries.NegativeLifetime | webgui/internal/dnsserver/cache_pipeline.go:305-348 | a negative entry never outlives its SOA TTL, SOA MINIMUM or the maximum TTL |
| ResponseCache.BackIsOldest | webgui/internal/dnsserver/cache.go:186-204 | the back of the list is the least recently used key of the map |
| ResponseCache.RemoveKeepsLinked | webgui/internal/dnsserver/cache.go:206-212 | unlinking a key keeps list and map on the same keys, once each, in order of use |
| ResponseCache.SumAfterUpdate | webgui/internal/dnsserver/cache.go:394-416 | changing one per-type counter changes the sum over the types by the difference |
| ResponseCache.HitBalances | webgui/internal/dnsserver/cache.go:138-167 | counting a hit keeps hits + misses = lookups, the hit kinds adding up and the per-type sums |
| ResponseCache.EvictionBalances | webgui/internal/dnsserver/cache.go:186-204 | counting an eviction keeps inserts = live + evicted + cleared + invalidated + expired-removed |
| ResponseCache.ExpirationBalances | webgui/internal/dnsserver/cache.go:116-136 | counting an expired removal keeps the same balance |
| ResponseCache.Capacity | webgui/internal/dnsserver/cache.go:79-100 | a configured capacity is used if positive, the default otherwise, so room is never 0 |
| ResponseCache.Bounds | webgui/internal/dnsserver/cache.go:79-111 | configured TTL bounds with their fallbacks satisfy 1 <= minimum <= maximum |
| ResponseCache.Cache.Get | webgui/internal/dnsserver/cache.go:116-167 | a lookup hits exactly the live entries, returns the stored entry with its remaining TTL, refreshes its recency, and otherwise counts a miss and marks or removes an expired entry once; each counter moves by exactly the stated kind |
| ResponseCache.Cache.GetStale | webgui/internal/dnsserver/cache.go:171-183 | the optimistic lookup returns whatever is stored and counts a stale answer |
| ResponseCache.Cache.Set | webgui/internal/dnsserver/cache.go:186-204 | storing adds exactly this entry as the most recent; a new key at capacity evicts exactly one key, the least recently used |
| ResponseCache.Cache.EvictOldest | webgui/internal/dnsserver/cache.go:186-204 | the victim is the least recently used key and is counted under its type |
| ResponseCache.Cache.Clear | webgui/internal/dnsserver/cache.go:222-230 | clearing empties the cache and counts every entry |
| ResponseCache.Cache.Reconfigure | webgui/internal/dnsserver/cache.go:234-257 | new settings empty the cache and install bounds with their fallbacks |
| ResponseCache.Cache.Invalidate | webgui/internal/dnsserver/cache.go:262-275 | invalidation removes exactly the matching keys and keeps the rest in order of use |
| CacheProtocol.StoreKeepsFresh | webgui/internal/dnsserver/cache_pipeline.go:290-303 | a store with an unmoved generation comes from a fetch no invalidation of its key has overtaken |
| CacheProtocol.StoredIff | webgui/internal/dnsserver/cache_pipeline.go:290-303 | a cacheable result is stored if and only if no invalidation began after its fetch |
| CacheProtocol.SharedStep | webgui/internal/dnsserver/cache_pipeline.go:290-457 | every step keeps entries fresh: fetch, store, eviction, generation bump and purge in any interleaving |
| CacheProtocol.FetchesStep | webgui/internal/dnsserver/cache_pipeline.go:46-78 | every step keeps the generations and start times of running fetches consistent with the log of invalidations |
| CacheProtocol.FlightsStep | webgui/internal/dnsserver/cache_pipeline.go:159-183 | every step keeps at most 1024 flights, one leader per flight, the table holding exactly the incomplete ones, and followers attached to existing flights |
| CacheProtocol.RefreshesStep | webgui/internal/dnsserver/cache_pipeline.go:243-277 | every step keeps at most 64 slot holders and one refresh per key |
| CacheProtocol.StepInv | webgui/internal/dnsserver/cache_pipeline.go:12-78 | every step keeps the whole invariant |
| CacheProtocol.InvNoStaleEntries | webgui/internal/dnsserver/cache_pipeline.go:385-457 | with no purge pending, no cached entry comes from a fetch that began before an invalidation covering its key |
| CacheProtocol.InvWaiterProgress | webgui/internal/dnsserver/cache_pipeline.go:46-78 | a waiting query has its result or waits for a leader that can move, or only for a pending purge; no leader waits |
| CacheProtocol.InvRefreshesBounded | webgui/internal/dnsserver/cache_pipeline.go:243-277 | at most 64 refresh fetches run, at most one per key, although the set of keys may be larger |
| CacheProtocol.EveryRun | webgui/internal/dnsserver/cache_pipeline.go:12-457 | all of it over every run: no stale entries, progress, at most 1024 flights, one result per flight, bounded refreshes; settings changes are runs of these steps (webgui/internal/dnsserver/runtime.go:53-61) |
| CacheRuns.InvalidationRemoves | webgui/internal/dnsserver/cache_pipeline.go:385-457 | starting and finishing an invalidation removes exactly the cached keys it covers and moves the generation |
| CacheRuns.InvalidatedKeysRefetched | webgui/internal/dnsserver/cache_pipeline.go:290-457 | in every run, once no purge is pending, a cached key that some step invalidated comes from a fetch of that key begun after that step, and holds a message published for it later |
| CacheRuns.NextSteps | webgui/internal/dnsserver/cache_pipeline.go:12-457 | a new query can miss, a miss can begin, an answered follower can wake up, and an invalidation can start or, if one is pending, finish |
| CacheRuns.EntriesStay | webgui/internal/dnsserver/cache.go:186-275 | a cached key leaves only by its own eviction or by a purge that covers it |
| CacheRuns.BeginOutcome | webgui/internal/dnsserver/cache_pipeline.go:159-172 | a miss follows the flight of its key if there is one, leads a new one if the table has room, and is rejected otherwise |
| CacheRuns.CompleteDelivers | webgui/internal/dnsserver/cache_pipeline.go:174-183 | a leader's message reaches itself and every follower unchanged |
| CacheRuns.RefreshOutcome | webgui/internal/dnsserver/cache_pipeline.go:243-257 | a refresh can start whenever fewer than 64 fetch, and fetches exactly if no other refresh owns its key |
| CacheRuns.PublishOutcome | webgui/internal/dnsserver/cache_pipeline.go:290-303 | publishing stores the message if and only if it is cacheable and nothing was invalidated since the fetch began |
| CacheAnswers.EveryAnswer | webgui/internal/dnsserver/cache_pipeline.go:46-78 | in every run a query that is done asked for its key and has the message that the leader of its own flight, which asked for the same key, published as the outcome of its fetch |
| CacheAnswers.FlightKeysStep | webgui/internal/dnsserver/cache_pipeline.go:159-183 | every step keeps one key per flight, for leader, followers and table |
| BacklogItems.WithoutSplits | webgui/internal/forwarder/backlog.go:353-372 | an in-place filter by sequence numbers splits the queue: what stays and what goes are all the items, once |
| BacklogItems.WithoutExact | webgui/internal/forwarder/backlog.go:353-372 | an item stays if and only if its number is not listed, and goes if and only if it is |
| BacklogItems.WithoutKeepsOrder | webgui/internal/forwarder/backlog.go:353-372 | the filter keeps sequence numbers increasing |
| BacklogItems.AttemptBurnsFuel | webgui/internal/forwarder/lifecycle.go:43-157 | each send of a limited worker brings the end of the queue closer, whatever its outcome |
| BacklogItems.AttemptQueue | webgui/internal/forwarder/lifecycle.go:85-122 | the batch leaves the queue unless the failure is retryable and retries are unlimited or left; then the queue stays as it is |
| BacklogItems.BatchSize | webgui/internal/forwarder/lifecycle.go:71-75 | a batch is as large as asked for, within 10 and 100, or the whole queue if that is shorter |
| BacklogItems.DroppedExactlyAtLimit | webgui/internal/forwarder/lifecycle.go:107-122 | a batch that only fails in a retryable way is dropped by failure number limit + 1, by no earlier one, and by none when retries are unlimited |
| BacklogItems.DeliverDrains | webgui/internal/forwarder/lifecycle.go:43-157 | enough sends empty the queue for every sequence of outcomes |
| BacklogItems.DrainsIffRetriesLimited | webgui/internal/forwarder/lifecycle.go:43-157 | a waiting queue empties within length * (retries + 1) sends for all outcomes if and only if the retry limit is positive |
| BacklogQueue.Forwarder.EnqueueEvent | webgui/internal/forwarder/backlog.go:378-412 | an event is appended exactly when the agent accepts events and a positive limit has room; otherwise it is counted as dropped and nothing else changes |
| BacklogQueue.Forwarder.LoadBacklog | webgui/internal/forwarder/backlog.go:149-163 | persisted events are charged anew and restored in order as long as they fit, a missing or future time becoming the present; the others are counted as dropped |
| BacklogQueue.Forwarder.PendingCharged | webgui/internal/forwarder/controller_transport.go:77-80 | every item in memory is charged the size of its event |
| BacklogQueue.Forwarder.TakeBatch | webgui/internal/forwarder/lifecycle.go:57-83 | the oldest items become in flight, as many as the adaptive batch size allows, nothing is lost |
| BacklogQueue.Forwarder.FinishBatch | webgui/internal/forwarder/lifecycle.go:85-122 | a delivered batch is sent; a permanent failure, or a retryable one with the limit reached, drops it; any other failure puts it back in front; bytes, retries and batch size follow |
| BacklogQueue.Forwarder.FinishInFlight | webgui/internal/forwarder/backlog.go:422-435 | in-flight items leave the byte count and are sent or dropped |
| BacklogQueue.Forwarder.RequeueBatch | webgui/internal/forwarder/backlog.go:414-420 | a failed batch goes back in front of newer items, its bytes stay counted |
| BacklogQueue.Forwarder.DropPersistTrimmed | webgui/internal/forwarder/backlog.go:353-372 | exactly the listed queued items leave memory, with their bytes, and count as dropped; in-flight items stay |
| BacklogQueue.Forwarder.SendOnce | webgui/internal/forwarder/lifecycle.go:43-157 | one turn of the worker is one attempt on everything pending, in flight or queued |
| BacklogQueue.Forwarder.DeliverAll | webgui/internal/forwarder/lifecycle.go:43-157 | the delivery loop terminates with an empty queue within length * (retries + 1) sends, every step keeping conservation, order and byte counts |
| BacklogQueue.SplitQueue | webgui/internal/forwarder/backlog.go:353-372 | the loop keeps the unlisted items and subtracts the bytes of the others |
| BacklogQueue.TrimConserved | webgui/internal/forwarder/backlog.go:353-372 | after a trim each accepted item is still in exactly one of sent, dropped and pending |
| BacklogQueue.RestoredAll | webgui/internal/forwarder/backlog.go:149-163 | saved events whose charges fit the limit are all restored |
| BacklogQueue.RestoredGreedily | webgui/internal/forwarder/backlog.go:149-163 | for every limit: an event is restored if and only if its charge fits beside those restored before it, in file order and with its own time if that is plausible |
| BacklogQueue.RestoredBytes | webgui/internal/forwarder/backlog.go:149-163 | the bytes charged after a restart are those of the restored events |
| BacklogFile.DocumentSize | webgui/internal/forwarder/backlog.go:298-348 | the byte arithmetic is exact: the document has the computed number of bytes |
| BacklogFile.OmitOne | webgui/internal/forwarder/backlog.go:298-348 | omitting one more item shrinks the document by its encoding and, unless it was alone, a comma |
| BacklogFile.EncodeItems | webgui/internal/forwarder/backlog.go:299-313 | marshalling fails exactly if some item does, and otherwise gives all parts and their total size |
| BacklogFile.CountOmitted | webgui/internal/forwarder/backlog.go:314-325 | the countdown finds the smallest sufficient number of omitted items, or that the in-flight items alone do not fit |
| BacklogFile.WriteDocument | webgui/internal/forwarder/backlog.go:326-339 | the writing loop emits exactly the document of the kept parts |
| BacklogFile.EncodeBounded | webgui/internal/forwarder/backlog.go:298-348 | the file keeps every in-flight item, omits the shortest sufficient prefix of the queue, reports exactly its sequence numbers, and fails only when marshalling fails or the in-flight items alone are too large |
| BacklogFile.FlushMatchesMemory | webgui/internal/forwarder/backlog.go:233-291 | trimming memory right after the snapshot by the reported numbers leaves exactly what the file holds |
| BacklogFlush.PendingIsSuffix | webgui/internal/forwarder/lifecycle.go:43-157 | whatever is taken, finished, returned and enqueued meanwhile, the pending items are a suffix of those at the snapshot and the arrivals since |
| BacklogFlush.WithoutRange | webgui/internal/forwarder/backlog.go:353-372 | removing the omitted numbers from any suffix of the snapshot leaves the matching part of the file |
| BacklogFlush.FlushAfterMoves | webgui/internal/forwarder/backlog.go:233-291 | after a flush with any takes, finishes, returns and arrivals between snapshot and trim, the queue is a suffix of what the file holds followed by events that arrived since |
| BacklogFlush.OnlyInFlightMissing | webgui/internal/forwarder/backlog.go:350-372 | no item that the file omits is queued after the trim; one that was taken before it is in flight and may still return |
| BacklogFile.AtMostOneOmitted | webgui/internal/forwarder/controller_transport.go:70-79 | if charges cover encodings and a comma and fit the limit, and an encoded item is longer than the 24-byte frame of the file, at most one queued item is omitted |
| BacklogFile.NothingOmittedIff | webgui/internal/forwarder/backlog.go:298-348 | nothing is omitted if and only if the document with its frame fits |
| BacklogFile.AdmittedEventOmitted | webgui/internal/forwarder/backlog.go:378-412 | a family of events that admission accepts and the file cannot hold |
| BacklogFile.RestartRestores | webgui/internal/forwarder/backlog.go:149-187 | reloading the file restores the kept items in order with no drop, with their times unless these lie in the future, and charges them as before, for every codec that inverts events and times; the size is not in the file and is computed from the event |
| BacklogCodec.InverseExists | webgui/internal/forwarder/backlog.go:298-348 | every injective encoding without commas has such an inverse, because the parts of a document can be told apart |
| BacklogCodec.CodecExists | webgui/internal/forwarder/backlog.go:298-348 | the assumption about the codec can be met by an encoding of every event |
| ArchiveLedger.CommitsInOrder | webgui/internal/storage/archive.go:83-118 | an event is committed only when every older one is committed or dropped |
| ArchiveLedger.FateCounts | webgui/internal/storage/archive.go:83-165 | the fates pending and claimed are as many as the queue and the claimed batch hold |
| ArchiveLedger.ArrivalsConserved | webgui/internal/storage/archive.go:83-165 | arrivals are exactly those committed, dropped, in the claimed batch and pending in the queue |
| ArchiveLedger.AddConsistent | webgui/internal/storage/storage.go:417-445 | an arrival at a full queue drops the oldest pending event; pending events stay the newest arrivals |
| ArchiveLedger.AddCounts | webgui/internal/storage/storage.go:417-445 | exactly that event is added to the dropped ones |
| ArchiveLedger.CommitCounts | webgui/internal/storage/archive.go:106-113 | a commit adds exactly the claimed events to the committed ones |
| ArchiveLedger.RestoreConsistent | webgui/internal/storage/archive.go:142-165 | a failed batch returns directly before the pending events, or is dropped as a whole if events behind it were dropped meanwhile |
| ArchiveLedger.RestoreCounts | webgui/internal/storage/archive.go:142-165 | a restore drops exactly the overflow |
| ArchiveLedger.StepConsistent | webgui/internal/storage/archive.go:83-165 | every operation keeps the ledger consistent |
| ArchiveLedger.EveryArrivalOnce | webgui/internal/storage/archive.go:83-165 | in every run arrivals = committed + dropped + claimed + pending, the last two being the sizes of batch and queue, and commits follow arrival order |
| ArchiveQueue.SumAmended | webgui/internal/storage/maintenance.go:183-196 | changing one event changes the byte sum by the difference of its sizes |
| ArchiveQueue.ApproxBytesByField | webgui/internal/storage/maintenance.go:183-188 | an event costs 96 bytes and the length of each string once |
| ArchiveQueue.Limits | webgui/internal/storage/storage.go:136-150 | configured limits are used where they are valid; with their fallbacks trigger and write batch are positive and within the capacity |
| ArchiveQueue.TotalBytes | webgui/internal/storage/maintenance.go:190-196 | the loop adds up the sizes of all events |
| ArchiveQueue.Queue.BufferBounded | webgui/internal/storage/storage.go:212-220 | the physical buffer never exceeds the limit by more than a quarter |
| ArchiveQueue.Queue.Compact | webgui/internal/storage/storage.go:212-220 | compaction moves the pending events to the start of the buffer and changes nothing else |
| ArchiveQueue.Queue.Add | webgui/internal/storage/storage.go:417-445 | the pending events become the newest limit events of old ones and the new one, the byte count stays exact, a drop is counted exactly when the queue was full |
| ArchiveQueue.Queue.Claim | webgui/internal/storage/archive.go:120-140 | the oldest events, at most one write batch, leave the queue in order and count as in flight |
| ArchiveQueue.Queue.Restore | webgui/internal/storage/archive.go:142-165 | the claimed events return in front, the oldest overflow is dropped and counted, the byte count is exact |
| ArchiveQueue.Queue.Finish | webgui/internal/storage/archive.go:106-113 | a committed batch leaves the in-flight counters |
| ArchiveQueue.Queue.FindNewest | webgui/internal/storage/storage.go:478-492 | the backward scan finds the newest pending match |
| ArchiveQueue.Queue.Amend | webgui/internal/storage/storage.go:478-492 | replacing a pending event keeps the byte count exact |
| EventRing.SlotIsModulo | webgui/internal/storage/storage.go:466 | the scan index computed modulo the ring size is the slot of the i-th newest event |
| EventRing.Advance | webgui/internal/storage/storage.go:405-411 | advancing the head moves every stored event one position further from the newest |
| EventRing.Ring.Push | webgui/internal/storage/storage.go:405-411 | the ring holds the newest events after every insertion, oldest overwritten first |
| EventRing.Ring.FindNewest | webgui/internal/storage/storage.go:461-467 | the bounded backward scan finds the newest match within the scan limit |
| EventStore.ScansAgree | webgui/internal/storage/storage.go:453-500 | ring scan and queue scan pick the same event, or the event is too old for the queue |
| EventStore.RestoreSuffix | webgui/internal/storage/archive.go:142-165 | after a restore the queue is a suffix of all arrivals with their updates if and only if the surviving claimed events were not updated |
| EventStore.MergedSuffix | webgui/internal/storage/storage.go:453-500 | changing the picked event in both places keeps the queue a suffix of the log |
| EventStore.Store.RingAndQueueAgree | webgui/internal/storage/storage.go:405-450 | events present in ring and queue are identical |
| EventStore.Store.ArrivalsAccounted | webgui/internal/storage/storage.go:417-445 | between operations arrivals = committed + the dropped counter + claimed batch + pending events, and the in-flight counter is the size of the batch |
| EventStore.Store.AddEvent | webgui/internal/storage/storage.go:334-450 | an arrival, as one step, is the ledger's arrival and keeps ring and queue in agreement |
| EventStore.UpdateBetweenLocks | webgui/internal/storage/storage.go:405-445 | an update between the two locks of an arrival leaves ring and queue in agreement if and only if it picked an older event, or changed neither the new event nor one that stays in the queue |
| EventStore.Store.ClaimBatch | webgui/internal/storage/archive.go:120-140 | a claim is the ledger's claim, hands out the oldest events in order and keeps agreement |
| EventStore.Store.CommitBatch | webgui/internal/storage/archive.go:106-113 | a commit is the ledger's commit and keeps agreement |
| EventStore.Store.RestoreBatch | webgui/internal/storage/archive.go:142-165 | a restore is the ledger's restore; ring and queue agree afterwards if and only if no surviving claimed event was updated |
| EventStore.Store.UpdateNewest | webgui/internal/storage/storage.go:453-570 | an update changes exactly the newest match within 1000 events, in ring and queue, and keeps agreement, byte counts and fates |
| EventStore.Store.UpdateEvent | webgui/internal/storage/storage.go:453-500 | the newest event within 1000 with that domain and node and no latency yet takes latency, upstream, response code and alert, in both places; all other events stay |
| EventStore.Store.SetBlocked | webgui/internal/storage/storage.go:503-536 | the newest event of a query becomes blocked in both places; the result says whether it was already |
| EventStore.Store.SetDnssec | webgui/internal/storage/pending.go:95-121 | the newest event of a query takes its DNSSEC status in both places |
| EventStore.Store.SetClientHostname | webgui/internal/storage/storage.go:539-570 | the newest event of a client takes its host name in both places; the result says whether it had it already |
| EventStore.UpdateDuringClaimIsLost | webgui/internal/storage/archive.go:106-109 | add, claim, update, restore: the ring has the update, the queue has not |
| HourlyTables.HourRange | webgui/internal/storage/maintenance.go:328-329 | for every cutoff the rebuilt range selects exactly the unexpired rows of the cutoff's hour, also where a negative hour is rounded up |
| HourlyTables.HourStart | webgui/internal/storage/maintenance.go:227 | hours start at multiples of 3600; a time lies in its hour, a negative one in the hour before the rounded start |
| HourlyTables.AddRows | webgui/internal/storage/maintenance.go:221-243 | the counting loop adds each selected row to the group of its key |
| HourlyTables.Upsert | webgui/internal/storage/maintenance.go:256-309 | the upsert adds each group to what the table holds and keeps other rows |
| HourlyTables.UpsertHourly | webgui/internal/storage/maintenance.go:221-254 | a table exact for the rows is exact for the rows and the new batch |
| HourlyTables.SumSplit | webgui/internal/storage/stats.go:104-166 | disjoint selections that make up a selection add up to its sum |
| HourlyTables.DeleteKeepsLive | webgui/internal/storage/maintenance.go:317-319 | the bounded delete keeps every unexpired row, in order |
| HourlyTables.DeleteIsBatched | webgui/internal/storage/maintenance.go:317-319 | at most one batch of rows goes, and fewer only if no expired row is left |
| HourlyTables.DeletesOldestFirst | webgui/internal/storage/maintenance.go:317-319 | the deleted rows are the first expired ones: all of them up to some row and none after it |
| HourlyTables.PruneTable | webgui/internal/storage/maintenance.go:328-376 | hours up to the cutoff hour are deleted and that hour is rebuilt from the rows |
| HourlyTables.PrunedIsGroupBy | webgui/internal/storage/maintenance.go:311-381 | for every cutoff: unless it steps back beyond its own hour, the pruned table is the GROUP BY of the unexpired rows, also while expired rows are still waiting to be deleted; otherwise the table stays exact from the earlier cutoff on |
| HourlyTables.TwoPrunesCount | webgui/internal/storage/maintenance.go:311-381 | after prunes at any two cutoffs the table counts exactly the surviving rows that are unexpired for both or lie in the hour the second one rebuilt |
| HourlyTables.StepBackRightIff | webgui/internal/storage/maintenance.go:311-381 | for any two cutoffs in any order: the second prune is right for all tables and rows if and only if the first cutoff is at most 0 or at most the end of the second one's hour |
| HourlyTables.SumTable | webgui/internal/storage/stats.go:104-129 | summing the table per value over whole hours counts exactly the rows of those hours |
| HourlyTables.Window | webgui/internal/storage/stats.go:84-166 | whole hours, cutoff-hour rows and pending events together count each committed or pending event of the last 24 hours once, per value |
| HourlyTables.RetainedCountsIff | webgui/internal/storage/stats.go:131-132 | the retained rows from a time on count all committed ones, for all rows, if and only if the highest cutoff is at most 0 or at most that time |
| QueryArchive.Database.InsertBatch | webgui/internal/storage/archive.go:167-212 | a batch commits rows and aggregates together or changes nothing |
| QueryArchive.Database.Prune | webgui/internal/storage/maintenance.go:311-381 | a prune at any cutoff deletes at most 10000 expired rows, all of them if fewer; unless the cutoff steps back beyond its own hour all four tables become the GROUP BY of the unexpired rows, spelled out as plain numbers of rows |
| QueryArchive.Database.Rolling | webgui/internal/storage/stats.go:25-37 | over everything ever committed plus the pending events, the daily total, cache hits, replies and blocked queries are the numbers of rows of the last 24 hours with that property, and each type count the number of those with that type |
| RowCounts.SumIsNumbers | webgui/internal/storage/maintenance.go:221-243 | a sum over rows is the number of selected rows and the numbers of those that bear each mark |
| QueryArchive.TotalsCount | webgui/internal/storage/maintenance.go:228-237 | totals count rows, cache hits, replies from an upstream and blocked queries |
| QueryArchive.ValuesOfHour | webgui/internal/storage/maintenance.go:238-243 | the tables of domains, clients and types count the rows of an hour with that domain, client or type |
| QueryArchive.RetainedPrune | webgui/internal/storage/maintenance.go:317-319 | pruning never loses a committed row that is not older than the highest cutoff |
| QueryArchive.ShortRetentionMisses | webgui/internal/storage/archive.go:245-254 | a cutoff inside the last 24 hours can delete rows the rolling count needs |
| WindowCounters.BumpExactIff | webgui/internal/storage/storage.go:335-377 | exact counters stay exact if and only if the slot does not hold a later unit that is still in the window |
| WindowCounters.LateEventLosesSlot | webgui/internal/storage/storage.go:335-377 | an event that follows a later one of its slot in fresh counters makes them wrong, such as unit 0 after unit 60 |
| WindowCounters.InOrderIsSafe | webgui/internal/storage/storage.go:335-377 | events in time order always meet that condition |
| WindowCounters.TotalExact | webgui/internal/storage/stats.go:40-48 | the sum over the slots equals a direct count of the last 60 units |
| WindowCounters.DirectIsLater | webgui/internal/storage/stats.go:40-48 | counting slot by slot is counting the events of the window, since each unit of the window has its own slot |
| WindowCounters.RecentIsCount | webgui/internal/storage/stats.go:40-48 | the recursive count is the number of events in the window |
| WindowCounters.Rolling.Record | webgui/internal/storage/storage.go:335-377 | recording an event restarts or increments exactly its slot |
| WindowCounters.Rolling.Sum | webgui/internal/storage/stats.go:40-48 | the per-minute sum counts the events after now-60, the per-hour sum those whose minute starts after now-3600 |
| RateLimiter.CallValid | webgui/internal/dnsserver/acl.go:138-179 | a call keeps table and order on the same keys, within the cap, ordered by last use, and changes only its own bucket and an evicted one |
| RateLimiter.EvictsOldest | webgui/internal/dnsserver/acl.go:152-159 | the evicted bucket is the one idle longest |
| RateLimiter.CleanedValid | webgui/internal/dnsserver/acl.go:196-208 | cleanup removes exactly the buckets idle for longer than the limit |
| RateLimiter.CleanupsChangeNothing | webgui/internal/dnsserver/acl.go:196-208 | dropping every cleanup of buckets idle a second or more from a run leaves all decisions as they are, while the table does not fill up |
| RateLimiter.WindowBound | webgui/internal/dnsserver/acl.go:138-179 | in any window of length d a key is admitted at most rate * (1 + d + n) times, n being how often a full table evicts its own bucket, whatever other keys, their evictions and cleanups do; so rate * (1 + d) while its bucket stays |
| RateLimiter.AdmittedAndLeft | webgui/internal/dnsserver/acl.go:152-178 | admitted calls plus tokens left are at least the tokens there were and the refill, up to the burst capacity, and at most those and a full bucket per eviction |
| RateLimiter.RefusedOnlyWhenSpent | webgui/internal/dnsserver/acl.go:138-179 | a call is refused only if more than rate - 1 calls of the key were admitted in the second before, also when the table is full |
| RateLimiter.Limiter.AllowAtRate | webgui/internal/dnsserver/acl.go:138-179 | no limit without a positive rate or a valid address; otherwise the call of the specification |
| RateLimiter.Limiter.Cleanup | webgui/internal/dnsserver/acl.go:196-208 | the loop over the map removes exactly the idle buckets from map and order |
| RewriteRules.LongestScope | webgui/internal/rewrites/rewrites.go:77-91 | the result is the length of some source prefix that contains the client, none that does is longer, and -1 exactly if none does |
| RewriteRules.LongestIsMaximum | webgui/internal/rewrites/rewrites.go:77-91 | being that maximum characterises the longest prefix used to rank rules: it is the only number with this property |
| RewriteRules.CoversIff | webgui/internal/rewrites/rewrites.go:66-72 | a plain rule covers its own name and exactly the names below it, a wildcard rule only the latter |
| RewriteRules.AppliesIff | webgui/internal/rewrites/rewrites.go:77-91 | a rule applies where it covers the name and, for a known client, is unrestricted or has a source prefix with the client's address; it ranks 0 or by the longest such prefix |
| RewriteRules.Lookup | webgui/internal/rewrites/rewrites.go:375-407 | the result is every applicable rule of the highest rank, longest name first and then longest source prefix, in order; no applicable rule ranks higher; it is empty exactly if none applies |
| RewriteRules.SameRankSameName | webgui/internal/rewrites/rewrites.go:66-72 | two rules that cover a domain with names of equal length have the same name |
| CnameChase.NormalizeFqdn | webgui/internal/dnsserver/rewrites.go:93-95 | qualifying a name keeps its normal form if and only if its final dot is not escaped |
| CnameChase.FqdnParity | webgui/internal/dnsserver/pipeline.go:531 | a final dot qualifies a name if and only if an even number of backslashes stands before it |
| CnameChase.RewriteRedirectsIff | webgui/internal/dnsserver/pipeline.go:394-443 | rewrites redirect if and only if the question is for an address or CNAME, some match is a CNAME and none answers by itself; response codes win over records; any match hides the later stages |
| CnameChase.DecideNormal | webgui/internal/dnsserver/pipeline.go:161-244 | whether and where a name redirects depends only on its normal form |
| CnameChase.RevisitForever | webgui/internal/dnsserver/pipeline.go:503-553 | names that come back to an earlier one redirect for ever |
| CnameChase.LoopIffNineRedirects | webgui/internal/dnsserver/pipeline.go:503-553 | for every configuration, however cyclic: the query fails with SERVFAIL and CNAME_LOOP if and only if nine names in a row redirect or a target with an escaped final dot has the normal form of an earlier name |
| CnameChase.RecordsFollow | webgui/internal/dnsserver/pipeline.go:531-552 | the added records follow the redirects, then come the records and response code of the first name that does not redirect, or nothing after a loop |
| CnameChase.ChainOfQuery | webgui/internal/dnsserver/pipeline.go:531-552 | for every configuration the added records form a chain of at most eight, each target the next owner, and an owner repeats in normal form only where a target with an escaped final dot led to it |
| CnameChase.OwnersNew | webgui/internal/dnsserver/pipeline.go:516-530 | an owner reached by a target without escaped final dot is neither on the path nor among the earlier owners |
| CnameChase.EscapedTargetRepeats | webgui/internal/dnsserver/pipeline.go:516-538 | a name that redirects to itself with an escaped final dot is chased to the depth limit, with one record per step, and fails with the loop error |
| CnameChase.RepeatsIffEscaped | webgui/internal/dnsserver/pipeline.go:516-538 | some configuration with a target as its only one chases an owner twice if and only if the target's final dot is escaped |
| CnameStages.PolicyAnswers | webgui/internal/dnsserver/pipeline.go:176-196 | invalid names are format errors, then refused ANY questions, then AAAA questions get no data, before any other stage |
| CnameStages.RewritesHideTheRest | webgui/internal/dnsserver/pipeline.go:198-201 | where a rewrite matches, inventory, private PTR records, safe search, filter and upstream servers may change without effect |
| CnameStages.RcodeAnswers | webgui/internal/dnsserver/pipeline.go:399-411 | the first rewrite with a response code decides, with no records |
| CnameStages.RecordsAnswer | webgui/internal/dnsserver/pipeline.go:413-430 | without one, exactly the rewrites of the asked kind answer together, in order, each with its value |
| CnameStages.FirstCnameChased | webgui/internal/dnsserver/pipeline.go:432-443 | otherwise the first CNAME rewrite is chased for address and CNAME questions, and other questions get no data |
| CnameStages.CoveredWithoutData | webgui/internal/dnsserver/pipeline.go:442-443 | a covered name without a record of the asked kind has no data |
| CnameStages.InventoryAnswers | webgui/internal/dnsserver/pipeline.go:203-206 | without a rewrite, inventory records answer address questions, whatever the later stages say |
| CnameStages.PrivatePtrAnswers | webgui/internal/dnsserver/pipeline.go:208-211 | without a rewrite, private PTR records answer PTR questions, whatever the later stages say |
| CnameStages.SafeSearchAnswers | webgui/internal/dnsserver/pipeline.go:213-216 | without a local answer, safe search redirects address and CNAME questions to its target, whose answer follows the CNAME, and answers others with the CNAME alone, whatever the filter says |
| CnameStages.FilterAnswers | webgui/internal/dnsserver/pipeline.go:218-230 | a name that no earlier stage answers and the filter blocks gets the blocking answer, whatever the upstream servers say |
| CnameStages.ForwardAnswers | webgui/internal/dnsserver/pipeline.go:232-243 | only a name that no earlier stage answers is forwarded, and it gets that answer |
| ClientRegistry.SameLengthSamePrefix | webgui/internal/clients/clients.go:274-285 | equal-length prefixes that contain one address are equal |
| ClientRegistry.ContainsIff | webgui/internal/clients/clients.go:101-123 | a prefix contains exactly the addresses that begin with it |
| ClientRegistry.Compile | webgui/internal/clients/clients.go:55-88 | compiling reports a missing name, missing IDs or an unparsable ID, in this order, and otherwise the prefixes of all IDs |
| ClientRegistry.Conflicts | webgui/internal/clients/clients.go:274-285 | the loops find a conflict exactly if some client shares a prefix with the candidate |
| ClientRegistry.Registry.Find | webgui/internal/clients/clients.go:101-123 | the result is the client that owns the longest prefix containing the address, and the only one; none exactly if no prefix contains it |
| ClientRegistry.OwnerUnique | webgui/internal/clients/clients.go:101-123 | the owner is the same for every order of registration |
| ClientRegistry.Registry.Replace | webgui/internal/clients/clients.go:138-165 | a replacement installs exactly the parsed items or fails with the error of the first item that cannot join those before it, then with that of persisting; names stay unique and prefixes unshared |
| ClientRegistry.AcceptedIff | webgui/internal/clients/clients.go:138-154 | the items are accepted if and only if all compile, no name is used twice and no two share a prefix |
| ClientRegistry.AddOutcome | webgui/internal/clients/clients.go:168-199 | every error of an addition with its exact cause, in the order in which causes win: duplicate, name, IDs, conflict, persisting |
| ClientRegistry.UpdateOutcome | webgui/internal/clients/clients.go:202-230 | the same of an update: name, IDs, not found, conflict with another client, persisting |
| ClientRegistry.ReplaceOutcome | webgui/internal/clients/clients.go:138-165 | a replacement reports what adding its first bad item to the items before it would |
| ClientRegistry.Registry.Add | webgui/internal/clients/clients.go:168-199 | adding appends the parsed client or fails with the exact first error; the registry stays free of conflicts |
| ClientRegistry.Registry.Update | webgui/internal/clients/clients.go:202-230 | an update exchanges the client of that name or fails with the exact first error: compiling, not found, a prefix of another client, persisting |
| ClientRegistry.Registry.Delete | webgui/internal/clients/clients.go:233-254 | a deletion removes exactly the named client if it exists and persisting works |
| UpstreamHealth.TrailRounds | webgui/internal/health/health.go:253-283 | a server failed, or answered, in the last n rounds if and only if its counter is at least n |
| UpstreamHealth.LeavesIffFailures | webgui/internal/health/health.go:253-300 | while some server qualifies, a healthy server leaves if and only if it failed three rounds in a row |
| UpstreamHealth.EntersIffSuccesses | webgui/internal/health/health.go:253-268 | while some server qualifies, an unhealthy server enters if and only if it answered two rounds in a row |
| UpstreamHealth.StaysIffNoneQualifies | webgui/internal/health/health.go:294-300 | no server qualifies if and only if every healthy one failed three rounds in a row and no other answered two |
| UpstreamHealth.LeavesAfterFailures | webgui/internal/health/health.go:253-300 | a configured server leaves only after three failed rounds in a row and while another server stays healthy |
| UpstreamHealth.EntersAfterSuccesses | webgui/internal/health/health.go:253-268 | a server enters only after answering two rounds in a row |
| UpstreamHealth.RetainServers | webgui/internal/health/health.go:376-384 | the loop keeps exactly the allowed servers, in order |
| UpstreamHealth.Checker.UpdateUpstreams | webgui/internal/health/health.go:134-143 | a reload keeps the healthy servers still configured, or all if none is left |
| UpstreamHealth.Checker.RunChecks | webgui/internal/health/health.go:219-315 | after a round the healthy set is the servers that qualify, or the old set if none does; it is a nonempty subset of nonempty upstreams, so the fall-back to all of them is never needed; a missing result counts as a failure |
| UpstreamHealth.Checker.JudgeServers | webgui/internal/health/health.go:253-283 | the loop over distinct upstreams updates each counter once and collects exactly the servers that qualify |

## Left out

- Sockets, TLS, the DNS wire format, HTTP, templates, SSE, Prometheus text, logging and environment parsing: plumbing.
- RE2, SHA-256 and address parsing are arbitrary functions; nothing relies on their results except equality. Where a load must take effect, the digest is assumed to tell rule lists apart and never to be empty, and persisted histories to carry the checksums of their rules (`FilterLoads.Injective`, `FilterLoads.HonestStep`).
- Filter sources and rules are values and identity numbers instead of heap pointers, so pointer aliasing between snapshots is not captured; the per-source download status fields and rule caps are not modelled.
- Filter counters and generations are unbounded integers, the original's are 64-bit.
- `AllowlistOverridesContext` with its evaluation budgets, `Pause` and the update scheduler.
- CacheProtocol: the reply a follower of a miss flight gets may predate an invalidation; only cache contents are claimed to be fresh.
- CacheProtocol: the LRU order and TTLs of the protocol's cache are those of ResponseCache and are not repeated; eviction is any removal.
- Prefetch thresholds, the stale-answer TTL and the extended-error texts.
- Heartbeats, synchronisation loops, retry pauses, jitter and the deadline of the final drain of the agent.
- Files, rename, fsync and gzip: a flush succeeds or fails as one step; the backlog's JSON encoding of an event and its time is an arbitrary function, with any inverse where a restart is concerned (`BacklogCodec.CodecExists` shows that the assumption can be met), so escaping and the quarantine of unreadable files are not modelled.
- EventStore.Store.AddEvent: ring and queue are filled in one step, the original takes their locks one after the other; one update in between is `EventStore.UpdateBetweenLocks`, arrivals that overtake each other in between are not modelled, nor are event IDs.
- Agents, which keep no archive and answer statistics from their ring.
- `GetOrderedEvents`, `GetRecentEvents` and `GetEventsAfter`: reads of the same ring.
- HourlyTables: one cache-hit flag per row; the Go and SQL spellings of that predicate differ in letter case and white space and are not compared.
- HourlyTables: SQLite itself; each statement has its meaning, each transaction is one step.
- QueryArchive.Database.Rolling: the highest cutoff lies at least 24 hours back, as the default retention of 72 hours makes it; `HourlyTables.RetainedCountsIff` says exactly when the count needs this.
- HourlyTables: row times are not negative; with a negative one the event store would index outside its counter arrays or the controller would replace it.
- Top lists with their LIMIT 50, the heat map of hours and the trend arrows.
- WindowCounters: one counter of each kind; the maps of counters per node and client, and the eviction of idle clients, are not modelled.
- WindowCounters.Rolling.Record: times are not negative, as a negative one would index outside the original's array.
- RateLimiter: tokens and times are reals, so rounding is not captured; all calls see one nondecreasing clock.
- CnameChase: the legacy static host table that is used when no rewrite store is wired; validity of a name depends only on its normal form; letters are lowered and white space is trimmed in ASCII only, here and in the other modules.
- CnameChase: the answers of MagicDNS, private PTR, the filter and the forwarder are arbitrary functions of the name.
- RewriteRules: normalisation and validation of rules, persistence and the sorted listing.
- ClientRegistry: one address family; sorting the prefixes of a client, which no result depends on; loading and hot reload, which compile profiles without checking conflicts.
- UpstreamHealth: latencies, bootstrap probes and failure texts; hysteresis is claimed for upstream lists without duplicates.
