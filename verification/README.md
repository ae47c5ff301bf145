# TitanArb runtime model

A Dafny model of the stateful core of TitanArb's Go runtime, with proofs about it. The runtime watches a
chain for pool events, keeps a cache of pool states, chooses and quotes arbitrage routes under several
budgets, paces its RPC calls, and settles and broadcasts trades. The chain, the quoter and the clock are
functions or arbitrary inputs; everything between them is modelled as the Go code does it. Where the code
updates state, the model is a class or a method with loops, proved against functions on values; concurrent
code is a state machine whose steps are the code's critical sections, and theorems quantify over all
interleavings.

| file | part of the runtime |
|---|---|
| `Chain.dfy`, `Options.dfy`, `Arith.dfy` | event logs, pool contents per block, the guarded cache write; optional values; products and quotients |
| `MarketSync.dfy`, `LogScan.dfy` | scan watermark, pending-dirty set, refresh and ack; chunked log queries |
| `Reconcile.dfy` | resumable reconciliation with one commit |
| `QuoteCache.dfy` | versioned, single-flight, budgeted quote cache |
| `Transparency.dfy` | the quote cache over the synchronized pool cache, as one state machine |
| `Pacing.dfy`, `Providers.dfy` | rate limiter, minute budget; provider choice, cooldowns, fairness |
| `LatestHead.dfy` | latest-head coalescing |
| `Admission.dfy` | pair admission, grace windows, cooldowns, pool index |
| `Enumeration.dfy`, `Routes.dfy`, `Graph.dfy` | bounded route enumeration, liquidity graph and cycle search |
| `Selection.dfy` | exploit / new / explore selection over rounds |
| `Optimizer.dfy`, `Budgets.dfy` | size sampling and search; nested quote and sample budgets |
| `Portfolio.dfy`, `Nonces.dfy` | settlement arithmetic; nonce lifecycle |

`dafny verify dfyconfig.toml` checks the whole project.

## Findings

Properties one might expect of the code that fail. Each has a failing input, and the condition under which the
code does meet the property:

- An ack can erase a mark the scanner set for a newer block (`MarketSync.AckRaceTrace`). An ack keeps every unmarked
  pool at the chain's content, on every chain that explains its events, iff the scanner is not ahead of the
  acknowledging cycle or nothing is acknowledged (`MarketSync.AckSafeIffTimely`).
- A quote can be stale for a pool without a block label. Within one generation all answers are current iff requests
  with one key carry one content (`QuoteCache.UnlabelledPoolServesStaleAnswer`,
  `QuoteCache.CurrentIffKeysDetermineContent`). Over runs of the whole system they are iff every cached pool with
  liquidity starts with a positive label (`Transparency.TransparentIffLabelled`). The failing run
  (`Transparency.UnlabelledServesStale`) keeps the order of the cycle: after the pool was quoted at some state block, it
  takes two more cycles at that block, the first of which is cancelled after its refresh.
- The comment at `go/internal/market/engine.go:1182` promises that a failed unit keeps its cache entries; the
  commit drops them (`Reconcile.FailedUnitDropsPool`). A pool is kept iff a successful unit finds it
  (`Reconcile.CommittedPoolsExactly`). The model follows the code.
- A cooled pair that is evicted and observed anew forgets its cooldown (`Admission.EarlyReadmission`, a run from the
  empty memory). No run readmits a cooled pair early iff MinObservation is at least Cooldown
  (`Admission.NoEarlyReadmissionIff`); a run that does not evict the pair needs no condition
  (`Admission.CooledUntilDue`).
- The cross-venue reserve never changes which routes are built, because unreserved cross-venue routes still
  precede all others and the part is cut at its limit (`Routes.PrioritizedIsCrossFirst`, `Routes.ShareIsIrrelevant`).
- Weighted fairness within one request's weight fails with concurrent callers: with K unrecorded choices the bound is K
  requests' weight (`Providers.WeightsStayClose`), and a run of a new client reaches it (`Providers.DriftIsTight`). One
  request's weight suffices in every run iff at most one choice of a provider awaits recording at a time
  (`Providers.FairIffOneAtATime`).
- A route can starve when no explore slot exists, for example with a limit of one; `Selection.NoStarvationIff` gives
  the exact condition on limit, ratio and number of routes.
- Two concurrent submitters can have the older block handled last (`LatestHead.TwoSubmittersCanReorder`). Handled
  blocks increase in every run iff at most one submitter is active at a time (`LatestHead.InOrderIffOneSubmitter`).
- A pending count that falls between attempts leaves a nonce gap (`Nonces.FallingPendingLeavesGap`). The next
  broadcast uses max(n + 1, pending) iff no failed attempt in between read a higher count than that
  (`Nonces.NextBroadcastIff`).

## Model

| member | source | states |
|---|---|---|
| `MarketSync.Engine.AdvanceMarketStateSync` | go/internal/market/engine.go:417-516 | One iteration from a set watermark never moves it back, is the step Scan, and keeps safety; an unset watermark begins at the last state block, else at the head. It marks exactly the cached pools with a log in the blocks covered, and covers k chunks, up to the head and the chunk cap, iff the first k requests are answered |
| `MarketSync.Engine.CommitScan` | go/internal/market/engine.go:483-498 | Scan results are merged under the lock: marks are only added and the watermark only moves up; with the marks of a scan it is the step Scan |
| `MarketSync.Engine.PendingDirtySnapshot` | go/internal/market/engine.go:569-577 | The cycle works on a copy of the marks; taking it is the step Begin |
| `MarketSync.Engine.AckPendingDirty` | go/internal/market/engine.go:579-589 | An ack removes exactly the attempted pools that are not unresolved; with the sets of the running cycle it is the step Ack |
| `MarketSync.Engine.RefreshKnownDirty` | go/internal/market/engine.go:1487-1569 | Whatever subset of the dirty pools the workers answer, in any order: pools answered with a read are resolved, failed ones unresolved, unanswered ones neither; the cache holds each resolved pool as a refresh at the state block leaves it; unchanged pools leave the dirty set; the whole is the run of its Refresh steps |
| `MarketSync.Engine.RefreshOne` | go/internal/market/engine.go:1552-1566 | One refresh result: an unchanged pool keeps its old label, a changed one takes the state block, through the guarded cache write; it is the step Refresh |
| `MarketSync.ApplyKeepsConsistent` | go/internal/market/engine.go:848-857 | Every scan, snapshot, refresh, ack or cancel step keeps: cached content is what the chain held at the label and at the read, nothing is labelled beyond the cycle, resolved pools were read by this cycle |
| `MarketSync.RunsStayConsistent` | go/internal/market/engine.go:848-857 | The same over every interleaving, without any hypothesis on acks |
| `MarketSync.RunsStaySafe` | go/internal/market/engine.go:436-516 | Over every interleaving whose acks never run with the watermark above the cycle's state block, a pool outside pendingDirty has had no event after its read up to the watermark |
| `MarketSync.SyncSafety` | go/internal/market/engine.go:436-516 | Main result: under that hypothesis every pool outside pendingDirty is cached with exactly the content the chain holds at the watermark (or at the newer block it was read at) |
| `MarketSync.AckSafeIffTimely` | go/internal/market/engine.go:579-589 | The hypothesis is exact: on every chain that explains its events, an ack keeps safety and leaves each unmarked pool with the chain's content iff the watermark is not above the cycle's state block or nothing is acknowledged |
| `MarketSync.AckRaceTrace` | go/internal/market/engine.go:579-589 | For every block and any two contents, a five-step trace from a consistent safe state in which an ack erases a mark the scanner set for the next block, leaving stale content unmarked |
| `MarketSync.AckedPoolsReflectStateBlock` | go/internal/market/engine.go:848-857 | Without any hypothesis, whatever a cycle acknowledges holds the chain's content at that cycle's state block |
| `MarketSync.OnlyAcksRemoveMarks` | go/internal/market/engine.go:569-589 | A stretch of steps without an ack, such as a cancelled cycle, removes no mark, and the watermark never decreases |
| `MarketSync.LabelsNeverGoBack` | go/internal/cache/pool_cache.go:41-48 | Over every run guarded writes never lower a pool's label and never lose a pool |
| `LogScan.ChangedPoolAddresses` | go/internal/pools/pools.go:269-337 | For every range, chunk size and failure point: filters tile the range in order, the scan stops exactly at the first request that is not answered, the result is exactly the addresses with logs in the prefix before it, and counters add up |
| `LogScan.ChunkEnd` | go/internal/pools/pools.go:269-337 | With 64-bit wrap-around the chunk end is still the smaller of the nominal end and the range end |
| `LogScan.CheckpointIsExact` | go/internal/market/engine.go:474-482 | The checkpoint computed from the success count alone is the last block of the successful prefix, and 0 when nothing succeeded |
| `LogScan.FullChunks` | go/internal/pools/pools.go:269-337 | The first k chunks cover exactly min(k * size, range) blocks |
| `LogScan.EachBlockInOneChunk` | go/internal/pools/pools.go:269-337 | Every scanned block lies in exactly one chunk |
| `Reconcile.Reconciler.StartReconciliation` | go/internal/market/engine.go:1086-1106 | A reconciliation starts at its first unit with nothing collected; its job list holds each allowed pair once for Camelot and once per listing of a fee tier, and nothing else |
| `Reconcile.EveryJobOnce` | go/internal/market/engine.go:1095-1104 | With distinct fee tiers each allowed pair of assets is due exactly once on each tier and once on Camelot, in one direction only; every other job is absent |
| `Reconcile.Reconciler.AdvanceBatch` | go/internal/market/engine.go:1134-1259 | A batch consumes exactly min(size, what the timeout lets through, units left) units; caches change only when it reaches the last unit, and then by the commit |
| `Reconcile.CommitsWhenDone` | go/internal/market/engine.go:1216-1225 | A batch commits iff it consumes the last unit |
| `Reconcile.FailuresAreFailed` | go/internal/market/engine.go:1176-1188 | The failures reported are exactly the units whose discovery failed |
| `Reconcile.UnfinishedIsPrefix` | go/internal/market/engine.go:1134-1220 | For any batch sizes, timeouts and interleaved refreshes, an unfinished reconciliation is a one-pass prefix of the units, and it has touched neither cache |
| `Reconcile.CommitEqualsOnePass` | go/internal/market/engine.go:1221-1259 | The committing batch installs exactly what one pass over all units gives, merged with the cache as the refreshes left it |
| `Reconcile.PairTableIsInOrder` | go/internal/market/engine.go:1189-1194 | Each unit's pools enter the pair table exactly once, in unit order and in both directions |
| `Reconcile.CommittedPoolsExactly` | go/internal/market/engine.go:1221-1243 | After the commit a pool is cached iff a successful unit found it, and no surviving label moves back |
| `Reconcile.CommittedPoolIs` | go/internal/market/engine.go:1195-1243 | For each address the commit installs the last pool found with it, all fields included, unless the cached one has a strictly newer label |
| `Reconcile.SomeLastFound` | go/internal/market/engine.go:1195-1205 | Every address found has such a last pool, so the commit is determined |
| `Reconcile.ShortRoutesInOrder` | go/internal/market/engine.go:1244-1259 | The commit keeps exactly the built routes with at most maxHops hops, in the order built |
| `Reconcile.FailedUnitDropsPool` | go/internal/market/engine.go:1176-1188 | A pool that only a failed unit would have found is dropped, although the comment there says its entry is preserved |
| `Reconcile.RefreshesKeepLabels` | go/internal/cache/pool_cache.go:41-71 | Refreshes between batches never lower a label and never lose a pool |
| `QuoteCache.QuoteEngine.PrepareQuoteCache` | go/internal/opportunity/engine.go:181-212 | A new generation: the step Prepare on the fields |
| `QuoteCache.PreparedEntries` | go/internal/opportunity/engine.go:181-212 | Without persistence no entry is left; with it no entry of a dirty pool, every other entry unless they exceed the capacity, and then none; the counter is the number removed, and all others restart |
| `QuoteCache.QuoteEngine.SetQuoteBudget` | go/internal/opportunity/engine.go:217-223 | Sets the budget and restarts its use |
| `QuoteCache.BudgetHolds` | go/internal/opportunity/engine.go:217-223 | Over every interleaving, from SetQuoteBudget(l) to the next SetQuoteBudget or PrepareQuoteCache at most l calls of the quoter begin when l is positive; a request that finds no entry is dropped iff l is positive and l calls have begun, and otherwise calls the quoter |
| `QuoteCache.QuoteEngine.BeginQuote` | go/internal/opportunity/engine.go:496-527 | The locked lookup decides hit, join, drop or miss and registers the flight |
| `QuoteCache.LookMeets` | go/internal/opportunity/engine.go:496-527 | In every reachable state a finished entry is a hit, an entry in flight is joined, and without an entry the request is dropped or calls the quoter; exactly the matching counter moves |
| `QuoteCache.QuoteEngine.CompleteQuote` | go/internal/opportunity/engine.go:529-538 | The locked completion stores the answer, errors included, and ends the flight |
| `QuoteCache.InvalidateDirty` | go/internal/opportunity/engine.go:196-205 | Exactly the entries of dirty pools are dropped and counted |
| `QuoteCache.SingleFlightWithinBudget` | go/internal/opportunity/engine.go:487-540 | In every interleaving the quoter runs at most once per key since the last preparation, at most budget times when one is set, and hits + dedup + misses + dropped (with the drops a budget reset forgot) equal the keyed requests |
| `QuoteCache.WaiterHasOneCaller` | go/internal/opportunity/engine.go:487-540 | While a waiter's entry is in flight exactly one goroutine is inside the quoter for it |
| `QuoteCache.AnswersAreFinal` | go/internal/opportunity/engine.go:529-540 | Once given, an entry's answer never changes, so all who joined it get the same |
| `Transparency.CachedAnswersAreCurrent` | go/internal/market/engine.go:848-925 | Over every interleaving of scans, refreshes, acks, route hydration, PrepareQuoteCache and quotes, from positive labels and with the persistent cache: each hit and each woken waiter gets what the quoter gives for its own request, and the cached answer for a pool is the quoter's for the content routes and pool cache hold |
| `Transparency.ApplyKeepsInv` | go/internal/market/engine.go:848-925 | Every step of the joint system keeps the synchronizer's invariant, labels that determine content in cache and routes, and quote entries that answer their key |
| `Transparency.AnswersReflectChain` | go/internal/market/engine.go:436-516 | End to end: with timely acks, the cached answer for an unmarked pool is the quoter's answer for the chain's content at the scan watermark (or the newer block of the read) |
| `Transparency.MarketIsItsOwnRun` | go/internal/market/engine.go:848-925 | Quoting never influences the synchronizer: its part of a joint run is a run of its own |
| `Transparency.TransparentIffLabelled` | go/internal/opportunity/engine.go:542-563 | Exact condition, over all interleavings and over those in the order of the cycle alike: from an idle synchronizer no run over any consistent chain serves a stale answer iff every cached pool with liquidity starts with a positive label |
| `Transparency.UnlabelledServesStale` | go/internal/market/engine.go:838-925 | The failing run, in the order of the cycle (refresh, ack, hydrate, PrepareQuoteCache with the pools left dirty, quotes): an unlabelled pool is quoted at a block, refreshed there by a cycle that is cancelled, found unchanged by the next cycle at that block, and its new request meets the old answer |
| `Transparency.RequestsAreMeant` | go/internal/opportunity/engine.go:542-563 | The label of a pool taken from the synchronized cache determines its content, so a request means what its key says |
| `QuoteCache.UnlabelledPoolServesStaleAnswer` | go/internal/opportunity/engine.go:542-563 | A pool without a label, or any pool without the persistent cache, is keyed by the cycle block: once its content changes within a generation, some run from the initial state serves a stale answer |
| `QuoteCache.CurrentIffKeysDetermineContent` | go/internal/opportunity/engine.go:487-563 | Exact condition: in one generation every hit and woken waiter is current, for every quoter and interleaving, iff requests with equal keys carry equal content |
| `Pacing.RateLimiter.constructor` | go/internal/rpc/client.go:1147-1158 | Interval from the rate; burst below 1 becomes 1, above 2 becomes 2, otherwise is kept; no virtual time yet |
| `Pacing.RateLimiter.ReserveDelay` | go/internal/rpc/client.go:1168-1194 | A reservation waits until its slot in virtual time and moves virtual time by one interval |
| `Pacing.RateLimiter.Delay` | go/internal/rpc/client.go:1196-1206 | The wait a reservation would see now |
| `Pacing.SlotsAboveVirtualClock` | go/internal/rpc/client.go:1168-1194 | The k-th later slot cannot precede virtual time plus k intervals |
| `Pacing.ConsecutiveSlotsSpan` | go/internal/rpc/client.go:1147-1182 | Any n consecutive slots span at least n - burst intervals, whatever the clock does |
| `Pacing.SlotsInOrder` | go/internal/rpc/client.go:1168-1194 | With a clock that never goes back, slots are handed out in order |
| `Pacing.WindowHoldsFewSlots` | go/internal/rpc/client.go:1147-1182 | Any window of length W holds at most W / interval + burst slots, whatever the clock does |
| `Pacing.MinuteBudget.Allow` | go/internal/rpc/client.go:1073-1088 | Prunes, then grants iff fewer than limit grants remain, and logs the grant |
| `Pacing.PruneKeepsRecent` | go/internal/rpc/client.go:1073-1088 | Pruning an ordered log keeps exactly its part from the cutoff on |
| `Pacing.PruneCompose` | go/internal/rpc/client.go:1073-1088 | Pruning twice with growing cutoffs is pruning once |
| `Pacing.LogAgreesWithHistory` | go/internal/rpc/client.go:1061-1088 | Over every run the pruned log equals the last minute of the full history of grants |
| `Pacing.RefusedExactlyWhenFull` | go/internal/rpc/client.go:1073-1088 | A call is refused iff limit grants of the full history lie in the last minute |
| `Pacing.WindowNeverExceedsLimit` | go/internal/rpc/client.go:1061-1088 | Over every run any closed one-minute window holds at most limit grants |
| `Providers.PreferredReadTier` | go/internal/rpc/client.go:672-716 | None iff nobody is healthy; otherwise the best tier with a provider ready within the spill delay, or the tier of a least-delay provider |
| `Providers.ScanFlexible` | go/internal/rpc/client.go:566-623 | The least-scored healthy provider of the preferred tier, the first on ties |
| `Providers.ScanCritical` | go/internal/rpc/client.go:566-623 | Strict tier order: the least-scored healthy provider of the best healthy tier |
| `Providers.ScanFallback` | go/internal/rpc/client.go:624-653 | With nobody healthy, the provider available soonest (with the tier penalty, or within the best tier for critical reads) |
| `Providers.Client.ChooseReadProvider` | go/internal/rpc/client.go:550-668 | Chooses in that order, reserves the chosen provider's slot, changes nothing else, and returns a delay that covers both the slot and the remaining cooldown and equals one of them |
| `Providers.ChoiceIsHealthy` | go/internal/rpc/client.go:566-660 | If some provider is out of cooldown and not lagged, so is the chosen one, and it is out of probation if such a one exists |
| `Providers.HealthyIff` | go/internal/rpc/client.go:566-590 | Healthy means cooldown over and not lagged, and in the first pass probation over |
| `Providers.LaggedIff` | go/internal/rpc/client.go:727-739 | A provider lags iff its block is known, at most 30 s old, and some provider is more than the allowed lag ahead |
| `Providers.WaitIsForSlot` | go/internal/rpc/client.go:1196-1206 | The delay counted in a score is that of a reservation made now |
| `Providers.ScoreWeights` | go/internal/rpc/client.go:597-621 | What each score term weighs: failures in a row 100 ms, requests in flight 25 ms, a recent rate limit 250 ms, a twentieth of the latency, 75 ms per tier for flexible reads |
| `Providers.BetterIsPreferred` | go/internal/rpc/client.go:597-621 | Of two healthy providers that differ only in failures, requests in flight or latency the worse is not chosen |
| `Providers.CriticalKeepsTierOrder` | go/internal/rpc/client.go:566-596 | A critical read goes to the best healthy tier, and there to the least score |
| `Providers.OtherReadsSpill` | go/internal/rpc/client.go:672-716 | Any other read goes to the best tier with a provider ready within 150 ms, or to a tier of the shortest wait, and there to the least score |
| `Providers.FallbackIsSoonest` | go/internal/rpc/client.go:624-653 | With nobody healthy the soonest available provider is chosen, slot and cooldown counted, with 75 ms per tier or strictly by tier for critical reads |
| `Providers.Client.RecordRequest` | go/internal/rpc/client.go:741-758 | Counts one request of one provider and changes nothing else |
| `Providers.Client.RecordFailure` | go/internal/rpc/client.go:777-806 | The exact cooldown (15 s, for rate limits 30 s to 240 s by streak, 6 h for quota, at least 60 s from the third failure in a row), probation and rate-limit memory; probation outlasts the cooldown by at least 15 s; all other providers untouched |
| `Providers.CooldownDoubles` | go/internal/rpc/client.go:1107-1116 | A rate-limit cooldown is 30 s and doubles with each of the next three in a row |
| `Providers.BaseCooldownIs` | go/internal/rpc/client.go:777-806 | 15 s for an ordinary failure, 6 h for an exhausted quota, the rate-limit cooldown otherwise |
| `Providers.ChosenIsLight` | go/internal/rpc/client.go:597-621 | Within any group of healthy providers of one tier, whatever the rest of the fleet is, a chosen member's weighted requests exceed no other member's by more than the spread of the other score terms |
| `Providers.WeightsStayClose` | go/internal/rpc/client.go:550-758 | Over every run of choose, record, abandon and other changes with at most K unrecorded choices per provider: for a group comparable whenever one of its members is chosen, weighted request counts of any two members differ by at most the spread plus K requests' weight, whatever the rest of the fleet does |
| `Providers.DriftIsTight` | go/internal/rpc/client.go:340-361 | For every K a run of a new client, with the limiter it builds, each choice reserving a slot and a clock that never goes back, reaches that bound |
| `Providers.FairIffOneAtATime` | go/internal/rpc/client.go:340-361 | Exact condition: over every run of a new client and any group, weighted requests stay within the spread plus one request's weight iff at most one choice of a provider awaits recording at a time |
| `LatestHead.Latest.CompareAndSwapLatest` | go/internal/scheduler/latest.go:39-47 | The swap on the newest block succeeds iff it is still the one seen |
| `LatestHead.Latest.Store` | go/internal/scheduler/latest.go:48-54 | Replaces the pending trigger and counts a replaced one as coalesced |
| `LatestHead.Latest.Wake` | go/internal/scheduler/latest.go:55-58 | Leaves one wake token |
| `LatestHead.Latest.Take` | go/internal/scheduler/latest.go:83-92 | Returns and empties the pending slot |
| `LatestHead.Latest.Submit` | go/internal/scheduler/latest.go:35-59 | Without interference: older heads change nothing, newer ones replace the pending trigger and wake the runner |
| `LatestHead.Latest.Drain` | go/internal/scheduler/latest.go:61-78 | Without interference the runner empties the slot and takes exactly the pending trigger |
| `LatestHead.NothingStrandedNothingLost` | go/internal/scheduler/latest.go:35-92 | In every interleaving a pending trigger has a wake token, a submitter about to wake or an active runner, and accepted = handled + coalesced + pending + in progress + about to be stored |
| `LatestHead.QuiescentMeansDone` | go/internal/scheduler/latest.go:35-92 | When nothing can move any more, every accepted trigger was handled or coalesced and none is pending |
| `LatestHead.SerialRuns` | go/internal/scheduler/latest.go:35-92 | With one submitter at a time, blocks handled, in progress, pending and in transit form one strictly increasing chain that ends at the newest block |
| `LatestHead.OneSubmitterHandlesInOrder` | go/internal/scheduler/latest.go:35-92 | With one submitter at a time handled blocks strictly increase, and at quiescence the last handled block is the newest accepted one |
| `LatestHead.TwoSubmittersCanReorder` | go/internal/scheduler/latest.go:39-54 | For every bound of two or more concurrent submitters a run handles block 2 and then block 1 |
| `LatestHead.InOrderIffOneSubmitter` | go/internal/scheduler/latest.go:35-92 | Exact condition: handled blocks strictly increase in every run iff at most one submitter is active at a time |
| `Admission.PairMemory.SelectLive` | go/internal/pairintel/memory.go:413-498 | A selection window: judges every pair, ranks the qualified, picks greedily within both caps and settles the states |
| `Admission.PairMemory.RankCandidates` | go/internal/pairintel/memory.go:441-446 | Lists the candidates once each, best score first, ties by key |
| `Admission.ChooseLive` | go/internal/pairintel/memory.go:457-480 | The greedy loop with its running token set computes the selection both caps are proved about |
| `Admission.Consider` | go/internal/pairintel/memory.go:461-479 | A candidate joins iff it is in already or the non-core tokens of the enlarged selection still fit the cap; nothing else joins or leaves, and the running token set stays that of the selection |
| `Admission.PairMemory.RecordDepth` | go/internal/pairintel/memory.go:316-345 | A probe updates the pool's pair and cools it when an average crosses its bound |
| `Admission.CapsHold` | go/internal/pairintel/memory.go:413-498 | Over every run admitted pairs stay within MaxLivePairs and their non-core tokens within MaxLiveDynamicAssets |
| `Admission.AdmissionNeedsVenues` | go/internal/pairintel/memory.go:500-535 | Only a selection admits, and only core-connected pairs seen on at least MinVenueDEXes venues |
| `Admission.AdmissionMeetsThresholds` | go/internal/pairintel/memory.go:500-535 | A newly admitted pair meets every threshold: score, confidence, quote success, depth, failure, illiquidity, observation time, cooldown over, venues, core, and low drift over its three or four latest scores |
| `Admission.QualifiedIffMeets` | go/internal/pairintel/memory.go:500-535 | The qualification test is exactly those thresholds, on every input |
| `Admission.WindowOrder` | go/internal/pairintel/memory.go:436-446 | A window ranks exactly the tracked pairs that meet everything, higher scores first, equal ones by key |
| `Admission.WindowExact` | go/internal/pairintel/memory.go:420-493 | What a window makes of each pair: passing restarts its count, failing counts, keeps or cools an admitted one, and nothing else changes |
| `Admission.LastFourAre` | go/internal/pairintel/memory.go:422-426 | The latest scores kept are the last four, in order |
| `Admission.GreedyExact` | go/internal/pairintel/memory.go:457-480 | A candidate is admitted iff, with the pairs kept and the better candidates admitted, one more pair and its tokens fit both caps |
| `Admission.FirstIsAdmitted` | go/internal/pairintel/memory.go:457-480 | The best candidate gets in whenever the admitted pairs leave room for it |
| `Admission.DynamicTokensAre` | go/internal/pairintel/memory.go:447-475 | The asset cap counts exactly the non-core tokens of the live pairs |
| `Admission.ObserveExact` | go/internal/pairintel/memory.go:242-291 | An observation adds its venue and assessment to its pair, starting a new one if needed, and changes no other pair that stays |
| `Admission.EvictsLowestFirst` | go/internal/pairintel/memory.go:915-953 | Eviction takes no more than needed, and never a pair that ranks above one that stays: cooled, observed, shadow, admitted, then by score |
| `Admission.ProbeExact` | go/internal/pairintel/memory.go:316-345 | A probe gives its pair the assessment and cools it from now on when an average crosses its bound |
| `Admission.GraceIsNeverDisplaced` | go/internal/pairintel/memory.go:426-456 | A selection never displaces a pair in its grace windows |
| `Admission.EjectedExactlyThen` | go/internal/pairintel/memory.go:426-435 | Over every run a pair failing windows in a row stays admitted before the EjectWindows-th and is cooled exactly in it |
| `Admission.CooledUntilDue` | go/internal/pairintel/memory.go:500-503 | For every configuration: over every run that does not evict it, a cooled pair is kept and stays cooled until its cooldown ends |
| `Admission.NotReadmittedEarly` | go/internal/pairintel/memory.go:500-503 | With MinObservation at least Cooldown this holds over every run, even through eviction and re-observation: no admission before the cooldown ends |
| `Admission.EarlyReadmission` | go/internal/pairintel/memory.go:915-953 | A run from the empty memory: the pair is cooled at time 0 by six failed probes, evicted, observed anew, and admitted at MinObservation |
| `Admission.NoEarlyReadmissionIff` | go/internal/pairintel/memory.go:915-953 | Exact condition over runs from the empty memory: no run admits a cooled pair before its cooldown ends iff MinObservation is at least Cooldown (with enough other pairs to fill the memory) |
| `Admission.IndexAgreesWithScan` | go/internal/pairintel/memory.go:695-715 | Over every run the indexed pool lookup answers what a scan of all pairs would |
| `Enumeration.Walk` | go/internal/routes/routes.go:201-219 | The recursive walk appends exactly the arrangements that extend its path |
| `Enumeration.Permutations` | go/internal/routes/routes.go:201-219 | Returns all arrangements of n values |
| `Enumeration.PermsExact` | go/internal/routes/routes.go:201-219 | The permutations are exactly the sequences of n distinct values |
| `Enumeration.PermsLexicographic` | go/internal/routes/routes.go:201-219 | Over sorted values the enumeration is strictly lexicographic, hence without repeats |
| `Enumeration.CombosExact` | go/internal/routes/routes.go:184-199 | The combinations are exactly the ways to pick one pool per hop |
| `Routes.AppendCombinations` | go/internal/routes/routes.go:184-199 | The recursion appends the combinations in order until the output is full |
| `Routes.CollectChoices` | go/internal/routes/routes.go:92-104 | The pool lists along a path, or a hop without a pool |
| `Routes.BuildPaths` | go/internal/routes/routes.go:88-117 | Over the paths in order the enumeration stops after the first path with which it has the hop limit, cut at the combination limit |
| `Routes.BuildHop` | go/internal/routes/routes.go:83-117 | The same for one hop depth and all permutations |
| `Routes.AllRoutesExact` | go/internal/routes/routes.go:75-127 | The unbounded enumeration holds exactly the cycles from the start through distinct other assets with each pool from its hop's pair |
| `Routes.SplitLimit` | go/internal/routes/routes.go:153-167 | Splits a total over buckets, the remainder to the first ones |
| `Routes.SplitThree` | go/internal/routes/routes.go:153-167 | Three buckets add up to the limit and differ by at most one |
| `Routes.PrioritizeTwoHopCrossVenue` | go/internal/routes/routes.go:129-151 | Computes the reserved cross-venue routes followed by the rest up to the limit |
| `Routes.PrioritizedIsCrossFirst` | go/internal/routes/routes.go:129-151 | Prioritisation keeps a sub-multiset, min(limit, input) routes, all cross-venue ones first; a share up to 10000 never changes the result |
| `Routes.TwoVenuesFirst` | go/internal/routes/routes.go:129-151 | No two-hop route over one venue precedes one over two venues |
| `Routes.ShareIsIrrelevant` | go/internal/routes/routes.go:118-151 | Cut at the hop limit, prioritisation gives the same routes for every share |
| `Routes.BuildHopShare` | go/internal/routes/routes.go:83-121 | One hop depth: exactly the prefix of the full enumeration without sharing; with sharing, the cross-venue routes and then the others of a prefix at most 16 times the limit, cut at the limit, whatever the share |
| `Routes.BuildFromWithShare` | go/internal/routes/routes.go:75-127 | The output for one start is its two-, three- and four-hop parts, each within its bucket |
| `Routes.BuildForStarts` | go/internal/routes/routes.go:38-70 | The output is the parts of the sorted starts in order, each within the smaller of its share and what is left, and stops early only when full; totals respect maxRoutes and the ceiling share per start; every route is a cycle from an allowed start |
| `Routes.UniqueSorted` | go/internal/routes/routes.go:169-182 | The distinct non-empty names in order |
| `Routes.StartPartRoutes` | go/internal/routes/routes.go:75-127 | Every route built for a start is a cycle of 2 to 4 hops through distinct assets with pools from their pairs |
| `Graph.LiquidityGraph.constructor` | go/internal/graph/graph.go:34-41 | An empty adjacency list per configured asset |
| `Graph.LiquidityGraph.UpsertPool` | go/internal/graph/graph.go:45-62 | Accepts exactly the pools with liquidity and two different configured assets, and keeps the graph well-formed |
| `Graph.RefusedPool` | go/internal/graph/graph.go:45-55 | Refused are exactly pools without liquidity, with an unknown token, or with both tokens of one asset |
| `Graph.SortedMeans` | go/internal/graph/graph.go:56-62 | Lists are sorted by target, and by address within one target |
| `Graph.UpsertEdges` | go/internal/graph/graph.go:45-75 | An accepted pool replaces all earlier edges of its address by one edge each way; all other edges stay |
| `Graph.UpsertKeepsWellFormed` | go/internal/graph/graph.go:45-86 | Sorted lists, one edge per pool and list, a reverse edge for every edge, one pool per address: kept by every upsert |
| `Graph.PoolHasOneEdgeEachWay` | go/internal/graph/graph.go:45-86 | After every run of upserts each pool is exactly one edge in each direction |
| `Graph.LiquidityGraph.CyclesFrom` | go/internal/graph/graph.go:88-127 | Only simple cycles with distinct assets and pools, no duplicates, all of them up to maxHops when fewer than limit are returned, and no more than limit plus maxHops times the most closing edges of one list |
| `Graph.CompletionsExact` | go/internal/graph/graph.go:100-124 | The unlimited search finds exactly the simple cycles that continue the walk |
| `Graph.CompletionsDistinct` | go/internal/graph/graph.go:100-124 | The unlimited search never finds a cycle twice |
| `Graph.Walk` | go/internal/graph/graph.go:100-124 | The limited walk appends a subsequence of the unlimited search, all of it while the result is below the limit and nothing once it is reached; it overshoots by no more than the closing edges of one list per level |
| `Selection.SelectEvaluationCandidates` | go/internal/market/engine.go:1955-2093 | Exactly min(limit, distinct routes) routes without repeats, chosen by the exploit, new, explore and fill passes |
| `Selection.AddFrom` | go/internal/market/engine.go:2019-2072 | One selection loop picks the first eligible routes of a sorted list up to its quota |
| `Selection.DistinctFacts` | go/internal/market/engine.go:1970-1976 | Deduplication keeps each key once and loses none |
| `Selection.SlotsFor` | go/internal/market/engine.go:1992-2009 | Slots add up to the capped limit; an explore slot exists iff limit * ratio reaches 10000 or the ratio is positive and the limit above one |
| `Selection.SlotsExact` | go/internal/market/engine.go:1992-2009 | The explore and new slot counts for every limit and ratio |
| `Selection.SelectIsChosen` | go/internal/market/engine.go:2010-2072 | Each pass takes the best eligible routes outside the earlier picks: nobody eligible left out precedes a pick, and none is left out below quota |
| `Selection.SelectionExact` | go/internal/market/engine.go:1992-2072 | Full size, no repeats, all exploit and explore slots used, exploit picks score at least as high as the rest, explore picks are no more observed than any route left out |
| `Selection.SelectedWithinBound` | go/internal/market/engine.go:1955-2093 | No starvation: whatever the scores do, a route with c observations among n is selected within (n - 1)(c + 1) + 1 rounds when each selected route gains an observation |
| `Selection.NoStarvationIff` | go/internal/market/engine.go:1992-2072 | Starvation is impossible, for all scores and counts, iff all routes fit, limit * ratio reaches 10000, or the ratio is positive and the limit above one |
| `Optimizer.Candidates` | go/internal/optimizer/optimizer.go:106-127 | The sampling loop and sort produce the grid of distinct samples |
| `Optimizer.GridExact` | go/internal/optimizer/optimizer.go:106-127 | The grid is strictly increasing from Min to Max, holds exactly the samples, and has min(n, width + 1) of them |
| `Optimizer.NearSample` | go/internal/optimizer/optimizer.go:106-127 | Every size of the range lies at most one rounded-down step above a sample |
| `Optimizer.PoolDelivers` | go/internal/optimizer/optimizer.go:60-86 | In every run of the worker pool at most the configured workers are busy; once idle the outcomes are for the first sizes in some order, each that of its size unless the context ended and it failed; a run that closes with the context alive has handed out every size |
| `Optimizer.PoolNeverStuck` | go/internal/optimizer/optimizer.go:60-86 | With at least one worker the pool can always go on, without cancellation, until it has finished |
| `Optimizer.ArrivalIsDelivered` | go/internal/optimizer/optimizer.go:60-99 | What a finished run delivers is for a prefix of the sizes in some order, and every size with its own outcome unless the context ended |
| `Optimizer.Drain` | go/internal/optimizer/optimizer.go:87-99 | Draining returns the first to arrive of the most profitable outcomes, None iff every quote failed, and counts all |
| `Optimizer.ArrivalOrderIrrelevant` | go/internal/optimizer/optimizer.go:87-99 | Success, the best profit and a unique winning size do not depend on the arrival order |
| `Optimizer.Optimize` | go/internal/optimizer/optimizer.go:46-104 | Returns the maximum net profit over the sizes answered, inside the range; an uncancelled search answers the whole grid of distinct samples, a cancelled one some of those evaluated; an invalid range evaluates nothing; never more than max(2, samples) sizes |
| `Optimizer.RefineOptimizerRange` | go/internal/market/engine.go:2777-2800 | The deep range holds the probe's best size, stays inside the full range, stays non-empty, and is at most half as wide unless it is the full range |
| `Optimizer.RefinedExactly` | go/internal/market/engine.go:2777-2800 | The deep range is exactly the sizes within a quarter of the width of the best one |
| `Budgets.BoundRoutesByQuoteCost` | go/internal/market/engine.go:2119-2137 | In order, exactly the routes whose hop cost still fits after the earlier ones are kept, so no route left out would fit |
| `Budgets.InitialBudget` | go/internal/market/engine.go:1692 | A ceiling of at most 8 is used whole; above it at least 8 and at least three tenths rounded down, and no more than three tenths once it exceeds 8 |
| `Budgets.EvaluateAsset` | go/internal/market/engine.go:1703-1718 | One asset is offered the share of what remains, rounded up, evaluates exactly the routes that fit it in order, and leaves every later asset its part |
| `Budgets.EvaluateInitial` | go/internal/market/engine.go:1688-1720 | Each asset is offered the rounded-up share of what its predecessors left, at least an equal part, and evaluates exactly the routes that fit; the total hop cost stays within the initial budget |
| `Budgets.SamplesForScore` | go/internal/market/engine.go:2802-2820 | 2 below score 2000, the high count from 4000, between them the normal count cut to the range from 2 to the high count |
| `Budgets.StopAfterProbeIff` | go/internal/market/engine.go:2829-2853 | A losing probe is given up iff the score is below 2000 or the loss exceeds one unit, 25 minimum profits and a hundredth of the size; a profitable one never |
| `Budgets.NotDeepened` | go/internal/market/engine.go:2677-2697 | A probe is not refined iff it found nothing, leaves fewer than two samples, or may stop early and does |
| `Budgets.OptimizeNext` | go/internal/market/engine.go:2653-2730 | One route has a loan iff some size answered has a positive profit, and then a most profitable one, within the configured and available size; uncancelled, the sizes are the whole probe grid and, when it deepens, the whole deep grid |
| `Budgets.OptimizeRoute` | go/internal/market/engine.go:2661-2722 | Probe plus deep pass take no more than granted; the loan is the best of all sizes answered in the probe and, exactly when it deepens, around the probe's best; uncancelled, both passes compare their whole grid |
| `Budgets.OptimizeRoutes` | go/internal/market/engine.go:2634-2735 | Each route, in order, is granted from what its predecessors left and gets the loan described by `Budgets.OptimizeNext`; the total stays within the budget |
| `Budgets.OptimizeAssets` | go/internal/market/engine.go:1758-1805 | Samples over all assets, routes, probes and deep passes never exceed OptimizerSamplesPerCycle; an asset is skipped only with fewer than two samples left, and gets at least an equal part when that is two or more; the loans of every asset are those of its routes |
| `Portfolio.Add` | go/internal/decision/economics.go:71-84 | A balance is added iff it is valid and its decimals agree with the record |
| `Portfolio.RejectedBalance` | go/internal/decision/economics.go:60-84 | A balance is invalid iff its address or decimals are, or its amount is missing or negative |
| `Portfolio.AddAll` | go/internal/decision/economics.go:96-110 | A list is added up to its totals, failing exactly on an invalid balance or conflicting decimals |
| `Portfolio.AddLiabilities` | go/internal/decision/economics.go:111-122 | Principals and debts are added up, failing exactly on an invalid liability or conflicting decimals |
| `Portfolio.RejectedLiability` | go/internal/decision/economics.go:111-122 | A liability is invalid iff its asset is, its principal is missing or not positive, or its premium missing or negative |
| `Portfolio.SameBooks` | go/internal/decision/economics.go:123-130 | The size and entry checks succeed iff funding and principals are the same map |
| `Portfolio.Repay` | go/internal/decision/economics.go:131-136 | Succeeds iff every debt is covered in its own asset, and subtracts exactly it |
| `Portfolio.PayCosts` | go/internal/decision/economics.go:138-153 | Paying one by one succeeds iff all costs are valid, agree in decimals, and each asset covers the sum of its costs |
| `Portfolio.CheckLimits` | go/internal/decision/economics.go:159-167 | Every positive residual has a limit that covers it |
| `Portfolio.Value` | go/internal/decision/economics.go:171-188 | None iff a positive amount has no acceptable price, else the sum of haircut price times amount |
| `Portfolio.RejectedPolicy` | go/internal/decision/economics.go:168-170 | There is no valuation policy without USD, a positive maximal age and a clock |
| `Portfolio.RejectedPrice` | go/internal/decision/economics.go:171-182 | A price is unacceptable iff missing, not positive, too small for the amount, not independent, executable or reviewed, from the future, too old, or cut by more than all |
| `Portfolio.UnitValueIs` | go/internal/decision/economics.go:182-185 | The unit value times 10^decimals is the haircut USD price |
| `Portfolio.EvaluatePortfolio` | go/internal/decision/economics.go:91-203 | The step-by-step evaluation equals the closed form: repaid iff funded in kind, residual per asset, complete iff settled, limited, priced and under a policy, and net value the sum of haircut price times (residual - owned) |
| `Portfolio.NoAssetFinancesAnother` | go/internal/decision/economics.go:87-153 | A settled portfolio leaves every asset non-negative: after-balance minus borrowed, premium and costs, all in that asset |
| `Portfolio.OutcomeDependsOnTotals` | go/internal/decision/economics.go:91-203 | Acceptance at every stage, all residuals and the net value are the same for inputs with the same assets and totals |
| `Portfolio.PermutedIsSimilar` | go/internal/decision/economics.go:91-203 | Reordering balances or costs changes nothing |
| `Portfolio.PermutedDebts` | go/internal/decision/economics.go:111-122 | Reordering liabilities changes nothing |
| `Portfolio.SplitIsSimilar` | go/internal/decision/economics.go:91-203 | Splitting a balance or a cost into two parts changes nothing |
| `Portfolio.DebtIsNotEquity` | go/internal/decision/economics.go:87-203 | Borrowing more of an asset and holding the proceeds keeps acceptance, every residual and the net value |
| `Nonces.NonceManager.Next` | go/internal/wallet/wallet.go:56-69 | Hands out the larger of the counter and the chain's pending count, and moves the counter past it; a failed read changes nothing |
| `Nonces.NonceManager.Release` | go/internal/wallet/wallet.go:71-77 | Only the most recent reservation rewinds the counter |
| `Nonces.Pipeline.Process` | go/internal/execution/pipeline.go:214-243 | One attempt: a reserved nonce is broadcast or released, and the calls made are appended to the history |
| `Nonces.CounterFollows` | go/internal/execution/pipeline.go:214-243 | A broadcast moves the counter just past its nonce, a released nonce is handed out next, and which happens depends on what succeeded |
| `Nonces.EachNonceSentOrReleased` | go/internal/execution/pipeline.go:214-243 | Over every run of attempts the recorded calls come in pairs, each reservation followed by one release or one broadcast of that nonce, and a broadcast nonce is never handed out again |
| `Nonces.CallsBalance` | go/internal/execution/pipeline.go:214-243 | For every nonce, reservations equal releases plus broadcasts, and it is broadcast at most once |
| `Nonces.ExecKeepsExclusive` | go/internal/wallet/wallet.go:56-77 | Every interleaving keeps held nonces exclusive and below the counter |
| `Nonces.HeldNoncesAreExclusive` | go/internal/wallet/wallet.go:56-77 | In every interleaving with one release per holder no two held nonces are equal and each is at least the pending count seen |
| `Nonces.ReservationsAreConsecutive` | go/internal/wallet/wallet.go:56-69 | A reservation hands out the counter or a higher pending count, and the next one starts right after it |
| `Nonces.DoubleReleaseCollides` | go/internal/wallet/wallet.go:71-77 | Releasing twice lets two later reservations collide: the one-release rule is needed |
| `Nonces.NextBroadcastNonce` | go/internal/execution/pipeline.go:214-243 | After nonce n, the next broadcast uses the larger of n + 1 and the highest pending count read since, however many attempts fail in between |
| `Nonces.NextBroadcastIff` | go/internal/execution/pipeline.go:214-243 | Exact condition: the next broadcast uses max(n + 1, pending) iff no failed attempt since read a pending count above it |
| `Nonces.NextBroadcastWithSteadyChain` | go/internal/execution/pipeline.go:214-243 | When the pending counts that were read never fall (failed reads allowed) that is max(n + 1, pending) |
| `Nonces.FallingPendingLeavesGap` | go/internal/execution/pipeline.go:214-243 | For any counts high > low and high > n + 1, a failed attempt that read the high one leaves a gap |
| `Nonces.BroadcastsStrictlyIncrease` | go/internal/execution/pipeline.go:214-243 | Over every serial run no nonce is broadcast twice |

## Left out

- HTTP, WebSocket, persistence, logging, metrics, configuration parsing and command line tools.
- Addresses, symbols and keys are numbers in Go's string order; hex decoding and case folding are not modelled.
- 64-bit wrap-around is modelled in `LogScan.ChunkEnd` only; elsewhere block numbers, durations and counters are unbounded.
- Scores, confidences, moving averages and volatility are inputs; the floating-point formulas are not modelled.
- Concurrency is modelled at the granularity of lock sections and compare-and-swap; goroutine scheduling and real time are not.
- One call reads the clock once; the code's further readings inside one `chooseReadProvider` call are taken as equal to it.
- Admission: shadow selection, persistence, and the last-observed tie-break of pruning; which of the pairs with equal state and score is evicted is arbitrary, and observing a pool is a function on values, not a method.
- Reconcile: the route builder is a function of the pair table, and a unit's discovery outcome is an input that does not depend on when the unit is run.
- Transparency: the pool set is fixed during a run, so reconciliation commits are not among its steps; which of the hydrated routes a cycle quotes is arbitrary.
- QuoteCache: the quoter is a deterministic function of pool content and request, although the code queries the latest block.
- Selection: the branch with pre-quote ranking disabled, and eviction from the route memory, which would reset observation counts.
- Optimizer: the memoizing adapter and the executable flag, which do not change what is returned; the non-adaptive `optimizeRoutesLegacy`.
- Budgets.EvaluateInitial: selection, quoting and the choice of optimizer candidates between the budget steps are inputs.
- Graph.LiquidityGraph.UpsertPool: edge reliability; appending and sorting is an ordered insertion, and the in-place reuse of the filtered slice is not captured.
- Admission.PairMemory.SelectLive: the candidates and preserved pairs are computed as sets rather than slices.
- `CachedCostModel`, `AmountLadder`, `candidateIsFresh`, `failover` and the write-path provider choice: branch-level checks only.
- `fullReconcile`, the Python tree and the on-chain contracts.
