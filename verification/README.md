# Verified model of the svm version service

`svm` answers `/version` requests from a bounded in-memory cache in front of an upstream that
speaks conditional HTTP. This project models its caching core in Dafny and proves what clients and
operators rely on: how old a cached answer can be, that caching is otherwise invisible, that
concurrent requests share one upstream exchange and nobody waits for ever, what the LRU cache keeps,
and what the background revalidation pipeline does to the upstream and at shutdown.

`dafny verify dfyconfig.toml` checks the whole project.

## How the model is laid out

| file | what it models |
|---|---|
| `Records.dfy` | cache records and the expiry rules; times are nanoseconds, 0 is Go's zero time |
| `VersionService.dfy`, `Runs.dfy` | the service as a state machine: one step is one locked region, one atomic operation with the local computation around it, or one event of an upstream exchange |
| `Exchanges.dfy` | what every answer of the upstream leads to, case by case: statuses, limit, fields, messages |
| `Coalescing.dfy`, `Cooperation.dfy` | the two in-flight groups in every interleaving of steps |
| `Provenance.dfy`, `Freshness.dfy` | where records and responses come from; staleness, transparency, record soundness |
| `Newest.dfy`, `Outdated.dfy`, `Followers.dfy` | when a record stays the newest by its check and by its payload, what a forced refresh gets by joining a call |
| `Scenarios.dfy` | runs behind a conforming upstream that show what can go the other way |
| `Accounting.dfy`, `Ledger.dfy`, `Activity.dfy` | conservation of the metrics counters and what each of them counts; what is reported as active |
| `Service.dfy` | the code of the service as a class with mutable fields, among other goroutines; every method is a stretch of a run of the state machine |
| `Recency.dfy`, `RecencyTheorems.dfy` | what the L1 cache computes, as a list in recency order, and theorems about whole runs |
| `BoundedService.dfy` | the service over a cache with a byte budget |
| `LinkedList.dfy`, `L1Cache.dfy`, `L1Aliasing.dfy` | the L1 cache on the heap: ring, map, byte count, eviction loop, shared payload arrays |
| `ActivityTracker.dfy`, `RevalidateScheduler.dfy`, `RefreshQueue.dfy`, `RefreshWorkers.dfy`, `Shutdown.dfy` | the revalidation pipeline |
| `TokenProvider.dfy` | token selection |
| `Sequences.dfy`, `Ordering.dfy`, `CanonicalKey.dfy`, `RequestPrepCache.dfy` | sorting, string order, canonical URLs, the memo of prepared requests |

A theorem of the form `Reaches(env, init, run, s)` ranges over every interleaving: any number of
callers, calls and refreshers, any clock that does not go backwards, any evictions at any moment,
any answers that the upstream may give. `Env` holds what a run cannot change: the preparation of
requests, the history of every upstream resource, JSON validity, decoding and encoding, the TTLs
and the size limit. `Service.Service` connects the code to the machine: its invariant says that its
fields are those of a reachable state, so all theorems apply to it. Between two steps of a method
others run: `Service.Service.Others` promises no more than that the invariant holds and that the goroutine
finds its own processes as it left them, and `Service.OthersKeepMine` shows that every step of
anybody else keeps that. The store of the machine may lose any keys at any time;
`BoundedService.BoundedRunsAreRuns` shows that a run over the L1 cache is such a run for every budget.

Assumptions about the upstream are stated where a theorem needs them. `Conforming` (sections 13.1.2
and 15.4.5 of RFC 9110) says that a 304 is sent only for the current ETag of a current 200 and that
one ETag names one payload of a key; `SameResource` says that URLs with one cache key name one resource.

## Findings

- The newest payload does not always win: a refresh by key that overlaps a forced request can write its
  older record over the new one, even behind a conforming upstream (`Scenarios.NewestCanBeLost`). Behind a
  conforming upstream a cached record can give way to one that the upstream has at no moment from now on
  exactly when a call or refresh of the key holds such a record now, ready to be stored
  (`Outdated.OutdatedCanFollowIff`); what is still being asked for will be current. The timestamps of the
  records do not tell: with equal readings of the clock the outdated one can still come last
  (`Scenarios.EqualReadingsCanLose`). For the timestamps alone the exact condition is `Newest.OlderCanFollowIff`.
- A forced refresh can be answered from the cache (`Scenarios.ForcedRefreshCanHit`), but only as a follower;
  whether it is follows from the call that it joins (`Followers.ForcedRefreshHitsIff`). It gets a response
  from before it asked exactly when that call is storing or returning already (`Followers.ResponseIsNewIff`).
- An exchange for a key that is cached, forced or after expiry, is reported as activity only if it ends
  with a 304 for the cached record; a 200 for such a key is not reported (`Activity.ExchangeIsReportedIff`).
- A limited listing of active keys keeps the keys with the oldest hits (`ActivityTracker.LimitKeepsTheOldest`).
- A worker keeps to its configured rate in every second exactly when the rate divides 10^9 or exceeds it
  (`RefreshWorkers.RateIsKeptIff`). For other rates the rounded interval lets more refreshes into some
  seconds: four more at 70000, and 10^9 in all at 600000000 (`RefreshWorkers.RoundingExamples`,
  `RefreshWorkers.BusySecond`).
- A larger budget does not always hold what a smaller one holds (`RecencyTheorems.LargerBudgetMayHoldLess`);
  the smaller cache stays a prefix exactly as long as no Get tells the two apart (`RecencyTheorems.InclusionIff`).
- Canonical URLs are a fixed point of canonicalisation except when a pair of brackets is left around a
  hostname without colon (`CanonicalKey.NormalizeIdempotentIff`, `CanonicalKey.BracketsAreStripped`). The
  URL parser of the Go version that the module asks for accepts brackets only around IPv6 addresses, so
  such a host takes a URL value that was built by hand; for all parsed ones canonicalisation is idempotent
  (`CanonicalKey.BracketedAddressesAreIdempotent`).
- The fallback of the expiry rule for records without an expiry instant is never reached
  (`Freshness.ExpiryIsSinceLastCheck`).

## Model

| member | source | states |
|---|---|---|
| Freshness.BoundedStaleness | internal/service/version/service.go:176-214 | in every interleaving a positive hit at time t carries a payload that was the upstream's current one at some moment in (t - HardTTL, t] |
| Freshness.CacheTransparency | internal/service/version/service.go:153-420 | with a fixed upstream every response that is neither cancelled nor a transport failure has the status and JSON of a service without a cache |
| Freshness.EveryResponseIsDirect | internal/service/version/service.go:153-420 | with a changing upstream every such response is what a cacheless fetch would have shown at one moment of the window its cache status allows |
| Freshness.EveryRecordIsSound | internal/service/version/service.go:292-406 | every cached record has status 200, 404 or 410, a URL validated for its key, timestamps that agree with the TTLs, and comes from one answer of one resource of its key: body and ETag of a 200 with bounded valid JSON, or the rendered error of a 404 or 410 with the decoded body as its message if there is one |
| Freshness.RefreshesFetchValidatedUrls | internal/service/version/service.go:680-697 | a background exchange only ever asks for a URL that request preparation produced for its key |
| Freshness.ExpiryIsSinceLastCheck | internal/service/version/service.go:621-648 | a cached positive record is expired exactly when HardTTL has passed since its last check |
| Freshness.ForcedRefreshHitsOnlyAsFollower | internal/service/version/service.go:187-222 | a forced refresh is answered with a hit only by joining a call led by a request without force |
| Followers.ForcedRefreshHitsIff | internal/service/version/service.go:187-222 | a forced refresh that leads, or joins a call that is forced or past its decision without a hit, never gets a hit; one that joins an undecided call gets a hit exactly if that call has read a live record where it decides |
| Followers.SettledOnce | internal/service/version/service.go:174-222 | whether a call answers from the cache is settled in the one step in which it decides |
| Followers.ResponseIsNewIff | internal/service/version/service.go:797-825 | the response that a caller gets is decided after it joined exactly when the joined call was neither storing nor returning; otherwise it is the one that call had |
| Scenarios.ForcedRefreshCanHit | internal/service/version/service.go:187-222 | a reachable state behind a conforming upstream in which a forced refresh received a hit |
| Freshness.CacheAnswersIff | internal/service/version/service.go:176-214 | the cache answers exactly the unforced requests for a record whose TTL since its last check has not run out |
| Exchanges.ReceiveEnds | internal/service/version/service.go:244-419 | response and record of a foreground exchange, for every transport failure, status, body and cached record |
| Exchanges.RefreshReceiveEnds | internal/service/version/service.go:713-757 | the outcome of a background exchange: not modified by a 304, updated by a usable 200, failed by anything else |
| Exchanges.FastPathServes | internal/service/version/service.go:174-216 | exactly which cached records are served without asking, and as what |
| Exchanges.CountsAsErrorIff | internal/service/version/service.go:360-362 | transport failures and statuses from 400 on are errors |
| Newest.NewestRecordWins | internal/service/version/service.go:292-347 | a record stored by a call, or saved by a refresh, while no exchange of the other kind is under way for its key is only ever replaced by records checked, and for a conforming upstream current, later |
| Newest.OlderCanFollowIff | internal/service/version/service.go:292-347 | by timestamps: in every reachable state, a cached record can be replaced by one checked earlier exactly when a call or refresh of its key with an older clock reading has its record or may still be answered with one |
| Newest.OverlapLosesTheNewest | internal/service/version/service.go:722-750 | in every reachable state, a refresh that has an outcome checked earlier than the record a call of its key stores brings the older record back in its next step |
| Scenarios.NewestCanBeLost | internal/service/version/service.go:699-757 | a reachable state behind a conforming upstream after which a forced request stores the current version and a refresh replaces it by the previous one |
| Scenarios.RevalidationHappens | internal/service/version/service.go:292-311 | a reachable state behind a conforming upstream in which a 304 has left a record with a later check and its payload is returned as revalidated |
| Outdated.OutdatedCanFollowIff | internal/service/version/service.go:292-406 | by payloads: in every reachable state behind a conforming upstream, what is cached for a key can give way to another record that the upstream has at no moment from now on exactly when a call or refresh of the key holds such a record, ready to be stored |
| Scenarios.EqualReadingsCanLose | internal/service/version/service.go:699-757 | a reachable state in which nobody has an older clock reading and the cached payload is current, and whose next step brings back an outdated one |
| Provenance.ProvenanceHolds | internal/service/version/service.go:153-757 | the invariant behind these theorems holds in every reachable state |
| Provenance.ReceiveOk | internal/service/version/service.go:244-419 | the write and the response of a foreground exchange are sound, and behind a conforming upstream, a 304 included, both show it at the moment the exchange ended |
| Provenance.RefreshReceiveOk | internal/service/version/service.go:699-757 | the record of a background exchange is sound, and behind a conforming upstream it was current at the moment the exchange ended |
| Provenance.NotModifiedShows | internal/service/version/service.go:292-311 | a conforming 304 says that the cached payload and ETag are the upstream's current ones |
| Coalescing.ProtocolHolds | internal/service/version/service.go:789-916 | in every reachable state a key is in flight exactly while one unfinished call serves it, waiters wait for calls of their key, and the refreshing keys are those of the running refreshers, one each |
| Coalescing.ProtocolStep | internal/service/version/service.go:789-916 | every step of every process keeps that invariant |
| Cooperation.NoLostWakeup | internal/service/version/service.go:797-825 | a waiter's call is in flight under its key and can go on, or the response is there to be taken |
| Cooperation.WaitingEnds | internal/service/version/service.go:800-825 | at most six steps of the joined call and one of the caller are enough to lead any waiting caller to its response |
| Cooperation.EveryFairRunEndsWaiting | internal/service/version/service.go:800-825 | in every run in which the joined call takes the at most six steps that it has left, the call is closed and a caller that still waits can take its response |
| Cooperation.ReceivedFromJoinedCall | internal/service/version/service.go:797-825 | a caller that was not cancelled got the response of a call of its key that closed after it joined |
| Cooperation.CallsMoveOn | internal/service/version/service.go:800-812 | a call passes through its phases in order and at most once, so it runs once, closes once and keeps its response |
| Cooperation.CancellationIsInvisible | internal/service/version/service.go:814-824 | had a cancelled caller kept waiting, the same run would have led to the same state of everything else |
| Cooperation.UpstreamConcurrencyBound | internal/service/version/service.go:872-916 | per key at most one foreground and one background exchange are under way |
| Accounting.BalancedAlways | internal/service/version/service.go:237-242 | the counters balance against the processes under way in every reachable state |
| Accounting.BalancedStep | internal/service/version/service.go:680-757 | every step keeps that balance |
| Accounting.ConservationAtQuiescence | internal/service/version/service.go:699-757 | with nothing under way requests = misses + updated + not modified + failed, errors are at most requests, every refresh body is counted once, and processed plus detached refreshes are bodies plus deduplicated ones |
| Accounting.WorkersConserve | internal/service/version/refresh_worker.go:174-177 | when only workers refresh, processed refreshes are the four outcomes plus the deduplicated ones |
| Ledger.CountersTellTheRun | internal/service/version/service.go:526-581 | in every reachable state each counter is what the run has done: misses and requests are the requests sent, errors the exchanges that failed or ended with a status from 400 on, a refresh is not modified by a 304, updated by a usable 200 and failed by anything else, skipped are the loads that asked for nothing, hits the answers from the cache |
| Activity.ExchangeIsReportedIff | internal/service/version/service.go:292-406 | exactly which exchanges are reported as activity |
| Activity.ReportedAlways | internal/service/version/service.go:187-311 | every hit and every revalidation is reported with the clock reading that decided it |
| Activity.AnsweredKeysAreCandidates | internal/service/version/service.go:519-524 | every key answered from the cache, or after a 304, is listed by every later sweep that looks back far enough |
| Service.Service.constructor | internal/service/version/service.go:98-138 | a new service is the machine's initial state |
| Service.Service.Handle | internal/service/version/service.go:153-222 | among other goroutines the code of handle is a stretch of a run of the machine: it answers from what was cached for the key exactly if that may be served and no refresh is forced, an invalid request gets a 400, and any other caller gets its call's response, a 504 if it was cancelled, or is left waiting for a call that is open |
| Service.Service.AnswerFromCache | internal/service/version/service.go:174-216 | the cache answers exactly as the fast path of the machine, and exactly those answers are counted as hits and reported |
| Service.Service.AskUpstream | internal/service/version/service.go:224-420 | response and record are those of one exchange that ended while the method ran and was asked with the ETag of the cached record exactly if that is positive |
| Service.Service.SendForCall | internal/service/version/service.go:237-242 | one miss and one request are counted per exchange |
| Service.Service.Settle | internal/service/version/service.go:242-420 | response, record to store, activity and error count at the end of an exchange; the message of an upstream error is what the body decodes to if it is readable, bounded, not empty and no null, else the status line |
| Service.Service.Accept | internal/service/version/service.go:313-358 | an unreadable, oversized or malformed 200 is not stored; any other is stored with its ETag |
| Service.Service.Refuse | internal/service/version/service.go:364-419 | of all other replies exactly 404 and 410 are stored, without ETag and for NegativeTTL, with the decoded body or the status line as the message |
| Service.Service.StoreForCall | internal/service/version/service.go:304-304 | the record of the exchange is written under the call's key |
| Service.Service.HandleUncoalesced | internal/service/version/service.go:174-420 | the goroutine of a call answers from what was cached for the key if that may be served, and else with the outcome of one exchange that carried the ETag of what was cached |
| Service.Service.Join | internal/service/version/service.go:797-813 | a caller joins the call in flight for its key or leads a new one |
| Service.Service.Close | internal/service/version/service.go:803-810 | the call leaves the map and publishes its response in one step |
| Service.Service.RunCall | internal/service/version/service.go:801-811 | the goroutine of a leader runs the call and closes it |
| Service.Service.Await | internal/service/version/service.go:815-824 | either ready branch of the select may win: the published response or the cancellation |
| Service.Service.Do | internal/service/version/service.go:789-825 | a leader that is not cancelled gets the response of its own call, a follower that of the call in flight; a cancelled caller may leave with a 504 while its call runs on |
| Service.Service.Start | internal/service/version/service.go:902-910 | starts exactly when the key is not in flight |
| Service.Service.Load | internal/service/version/service.go:665-704 | exactly a missing record, a blank URL or a negative record skips the refresh and is counted; else the record and the given URL, or its own, are asked for |
| Service.Service.SettleRefresh | internal/service/version/service.go:713-757 | the outcome of a background exchange and the errors and failures counted for it, for every status and failure |
| Service.Service.SaveForRefresh | internal/service/version/service.go:729-754 | the outcome is written under the key of the refresh and counted as updated or not modified |
| Service.Service.RefreshCachedRecord | internal/service/version/service.go:699-757 | among other goroutines a background exchange asks with the ETag of the record, is answered while the method runs and leads the refresh to its end |
| Service.Service.RefreshOnce | internal/service/version/service.go:665-697 | the refresh asks with the ETag of a record that was cached for the key meanwhile, at the given URL or the record's own, or found a missing, negative or, without a URL, blank one and did not ask |
| Service.Service.ProcessKey | internal/service/version/service.go:490-498 | nothing happens for the empty key; while another refresh runs for the key two counters change and nothing else; else one refresh runs to its end and asks with the ETag of the record it found |
| Service.Service.RefreshInBackground | internal/service/version/service.go:466-487 | schedules exactly when the request is valid and no refresh runs for its key; the refresh asks at the validated URL with the ETag of the record it found |
| Service.OthersKeepMine | internal/service/version/service.go:789-916 | every step leaves all processes alone but the one whose step it is |
| L1Cache.Cache.constructor | internal/cache/l1/cache.go:40-51 | an empty cache with the given or the default budget |
| L1Cache.Cache.Get | internal/cache/l1/cache.go:54-69 | returns a fresh copy of the stored record and moves a hit to the front |
| L1Cache.Cache.GetReadonly | internal/cache/l1/cache.go:72-87 | returns the stored record with the stored array and moves a hit to the front |
| L1Cache.Cache.Set | internal/cache/l1/cache.go:90-119 | the contents become the trimmed list with the new record in front; map, ring and byte count keep describing the same contents |
| L1Cache.Cache.EvictToBudget | internal/cache/l1/cache.go:145-169 | the loop terminates, ends within the budget, and its three defensive branches cannot be reached |
| L1Cache.Cache.EvictOldest | internal/cache/l1/cache.go:147-167 | one pass removes exactly the least recently used entry from map, ring and byte count |
| L1Cache.CloneRecord | internal/cache/l1/cache.go:171-175 | a copy with the same contents in a fresh array |
| L1Cache.EstimateUsage | internal/cache/l1/cache.go:177-179 | the estimated size depends on contents alone |
| Recency.PutIsLongestFit | internal/cache/l1/cache.go:90-119 | a Set leaves exactly the longest prefix of the updated recency order that fits the budget, nothing if the new entry alone is too big |
| Recency.TrimIsLongestFit | internal/cache/l1/cache.go:145-169 | eviction drops no more than it has to |
| RecencyTheorems.SetsInclude | internal/cache/l1/cache.go:90-119 | after any Sets a smaller cache holds a prefix of the recency order of a larger one |
| RecencyTheorems.InclusionIff | internal/cache/l1/cache.go:54-119 | a smaller cache is a prefix of a larger one throughout a run exactly when every Get hits in both or in neither, or finds the smaller one empty |
| RecencyTheorems.PrefixStepIff | internal/cache/l1/cache.go:54-119 | the same for one operation |
| RecencyTheorems.Inclusion | internal/cache/l1/cache.go:54-119 | in particular the smaller cache is a prefix of the larger one after such a run |
| RecencyTheorems.LargerBudgetMayHoldLess | internal/cache/l1/cache.go:54-119 | after a Get that hits only in the larger cache, the smaller one can hold a key that the larger has lost |
| RecencyTheorems.Retention | internal/cache/l1/cache.go:54-119 | a touched key survives, with its last record, while it and the distinct keys touched since fit the budget |
| RecencyTheorems.RetentionIff | internal/cache/l1/cache.go:54-119 | a cached key stays cached throughout a run exactly when every Set of it leaves the key and the distinct keys touched since the key was, with their current sizes, within budget |
| RecencyTheorems.StaysWithLastSet | internal/cache/l1/cache.go:54-119 | while a key stays cached it has the record of its last Set |
| RecencyTheorems.SweepRealigns | internal/cache/l1/cache.go:54-69 | a sweep of Gets puts the cached keys in front, the last one first, and keeps the others in their order |
| RecencyTheorems.CacheRefinesStore | internal/cache/l1/store.go:20-43 | a Get does not change the key-value view, a Set writes it and evicts some keys |
| BoundedService.BoundedRunsAreRuns | internal/cache/l1/store.go:20-43 | every run of the service over a cache with any budget, sweeps included, is a run of the state machine, whose store is the view of a recency list within the budget |
| BoundedService.StepsTouchAndTrim | internal/cache/l1/cache.go:54-119 | a lookup moves the item of a cached key to the front, a write puts its record there and drops no more than it has to |
| L1Aliasing.Perform | internal/cache/l1/cache.go:53-119 | any run of cache calls does to the cache what it does to the list of items, and writes to no array that holds or held a stored payload |
| L1Aliasing.SharedPayloadIsStable | internal/service/version/service.go:297-304 | the bytes of a payload returned by GetReadonly stay the same through overwriting, rewriting with new timestamps and eviction |
| L1Aliasing.PrivatePayloadIsPrivate | internal/cache/l1/cache.go:95-103 | writing anything to a payload passed to Set, before and after any further calls, or to one returned by Get does not reach the cache |
| ActivityTracker.Tracker.RecordActivity | internal/service/version/activity_tracker.go:22-37 | a hit is recorded unless a later one is known; the zero time means now |
| ActivityTracker.Tracker.ActiveKeysSince | internal/service/version/activity_tracker.go:40-81 | the listing depends on the tracked hits alone, not on the iteration order of the map |
| ActivityTracker.Tracker.PruneActiveKeysBefore | internal/service/version/activity_tracker.go:84-96 | exactly the hits before the cutoff go |
| ActivityTracker.ActiveKeysFacts | internal/service/version/activity_tracker.go:52-80 | the listing holds exactly the recently hit keys, once each, strictly sorted by (last hit, key) |
| ActivityTracker.LimitKeepsTheOldest | internal/service/version/activity_tracker.go:67-69 | a limited listing is a beginning of the unlimited one, and every key it leaves out was hit after every key it has |
| ActivityTracker.PruningIsInvisible | internal/service/version/activity_tracker.go:84-96 | a listing that starts no earlier than any prune is that of a tracker that never prunes |
| ActivityTracker.RecordingOrderIrrelevant | internal/service/version/activity_tracker.go:22-37 | runs of the same hits in any order and number track the same times |
| ActivityTracker.TracksLatest | internal/service/version/activity_tracker.go:31-35 | the tracked time of a key is its latest hit |
| Sequences.SortedUnique | internal/service/version/activity_tracker.go:61-66 | every correct sort gives the same list |
| Ordering.LessIff | internal/service/version/activity_tracker.go:63-63 | strings are compared at the first character in which they differ |
| RevalidateScheduler.Sweep | internal/service/version/revalidate_scheduler.go:128-194 | prunes what is older than the lookback, enqueues as many as the queue has room for of exactly the recently hit cached keys whose last check plus interval is not after now, by (last hit, key), counts the others that are cached as not stale, and evicts nothing |
| RevalidateScheduler.Select | internal/service/version/revalidate_scheduler.go:160-182 | exactly the cached candidates with last check plus interval not after now are due, in the order of the candidates; the cached others are counted as not stale |
| RevalidateScheduler.EnqueueAll | internal/service/version/revalidate_scheduler.go:186-192 | enqueued is the minimum of due and free, enqueued + dropped is due |
| RevalidateScheduler.SweepOrdersByActivity | internal/service/version/revalidate_scheduler.go:140-182 | after a sweep the recency order is the cached active keys by descending (last hit, key), then all others |
| RevalidateScheduler.TouchAllKeepsRecords | internal/service/version/revalidate_scheduler.go:165-176 | the sweep changes no record and no total size |
| RefreshQueue.Queue.constructor | internal/service/version/refresh_queue.go:23-31 | an open, empty queue with the given or the default capacity |
| RefreshQueue.ChannelKeepsOrder | internal/service/version/refresh_queue.go:45-70 | sending and receiving keep the order and the bound, and what was received is a beginning of what was sent |
| RefreshQueue.Queue.Enqueue | internal/service/version/refresh_queue.go:34-51 | accepts exactly a non-empty key on an open queue with room, at the end |
| RefreshQueue.Queue.Dequeue | internal/service/version/refresh_queue.go:54-71 | hands out the oldest job, or nothing when cancelled or closed and drained |
| RefreshQueue.Queue.Close | internal/service/version/refresh_queue.go:74-86 | closing keeps the pending jobs |
| RefreshWorkers.RunWorker | internal/service/version/refresh_worker.go:151-180 | exactly the turns with a job lead to a refresh, each started when its job has come and the interval has passed since the previous one ended; the loop ends early only in a wait that is cancelled |
| RefreshWorkers.PromptStartsAtTheLater | internal/service/version/refresh_worker.go:165-178 | undisturbed, a refresh starts at the later of the arrival of its job and the end of the interval |
| RefreshWorkers.PacingBound | internal/service/version/refresh_worker.go:165-178 | a worker starts at most ceil(T / m) refreshes in any half-open window of length T |
| RefreshWorkers.PoolBound | internal/service/version/refresh_worker.go:126-142 | W workers start at most W times as many |
| RefreshWorkers.PacingBoundIsTight | internal/service/version/refresh_worker.go:151-180 | every run of a worker that is always busy and never held up reaches the bound in its first window |
| RefreshWorkers.RateIsKeptIff | internal/service/version/refresh_worker.go:67-84 | for every configured rate: the bound for one second is within the rate exactly when the rate divides 10^9 or exceeds it, and equal to it exactly when it divides 10^9 |
| RefreshWorkers.BusySecond | internal/service/version/refresh_worker.go:151-180 | a busy run of the worker loop starts exactly as many refreshes in a second as the bound allows |
| RefreshWorkers.RoundingExamples | internal/service/version/refresh_worker.go:81-84 | the bound is 70004 at rate 70000 and 10^9 at rate 600000000 |
| Shutdown.NothingAfterClose | internal/service/version/refresh_queue.go:34-86 | in every interleaving nobody sends on the closed channel, it is closed once, dequeued jobs are a prefix of accepted ones and the rest is the bounded buffer |
| Shutdown.WorkersStay | internal/service/version/refresh_worker.go:151-180 | no worker leaves before it is cancelled or the queue is closed, and each refreshes only what was dequeued |
| Shutdown.WorkersTerminate | internal/service/version/refresh_worker.go:151-180 | once nobody enqueues, the workers take a bounded number of steps even if every choice falls on a job |
| Shutdown.ShutdownCompletes | internal/app/app.go:36-43 | after cancellation such a run ends with every worker gone |
| TokenProvider.RoundRobinTokenProvider.constructor | internal/upstream/github/token_provider.go:40-71 | the tokens are the non-empty ones in order of first appearance |
| TokenProvider.DedupFacts | internal/upstream/github/token_provider.go:59-68 | every non-empty token is kept exactly once |
| TokenProvider.DedupKeepsOrder | internal/upstream/github/token_provider.go:59-68 | the tokens are kept in the order of their first appearance |
| TokenProvider.RoundRobinTokenProvider.NextToken | internal/upstream/github/token_provider.go:74-98 | the token is the first one from the counter that is out of cooldown when it is looked at and whose observed count is not below the threshold, else the first one out of cooldown, else the one at the counter; if some token qualifies throughout, the one returned qualifies; the counter wraps at 2^64 |
| TokenProvider.ExhaustedIsAvoided | internal/upstream/github/token_provider.go:100-112 | a token observed below the threshold is not returned while another one qualifies |
| TokenProvider.RateLimitedIsAvoided | internal/upstream/github/token_provider.go:115-123 | a rate-limited token is not returned before its cooldown has passed while another one qualifies |
| TokenProvider.ScanClass | internal/upstream/github/token_provider.go:83-97 | whatever cooldowns end during the scans, a token of the better class is chosen if there is one throughout |
| TokenProvider.RoundRobinTokenProvider.ClassesGrow | internal/upstream/github/token_provider.go:132-153 | with a clock that does not go back tokens only become preferred or available during a scan |
| TokenProvider.RoundRobinTokenProvider.SteadyClock | internal/upstream/github/token_provider.go:147-153 | while no cooldown ends between the readings the choice is that of one moment |
| TokenProvider.RoundRobinTokenProvider.ObserveTokenRemaining | internal/upstream/github/token_provider.go:101-112 | records a non-negative count for known tokens only |
| TokenProvider.RoundRobinTokenProvider.ObserveRateLimitedToken | internal/upstream/github/token_provider.go:115-123 | starts a cooldown for known tokens only |
| TokenProvider.PickClass | internal/upstream/github/token_provider.go:83-97 | the token is preferred if any is, else out of cooldown if any is, else the one at the index |
| TokenProvider.FullRound | internal/upstream/github/token_provider.go:74-98 | in as many calls as there are tokens every token that is out of cooldown and not below the threshold is returned as often as its cyclic distance from the previous such one, and no other token is |
| TokenProvider.PreferredShare | internal/upstream/github/token_provider.go:79-88 | the same for every window of counter values |
| TokenProvider.OthersNever | internal/upstream/github/token_provider.go:83-88 | while a token is preferred, no other class is chosen in any window |
| CanonicalKey.NormalizeParsedURL | internal/cache/key.go:61-78 | the canonical form is the function of the parsed URL that the following theorems are about |
| CanonicalKey.SortValues | internal/cache/key.go:71-74 | every value list is sorted whatever the iteration order of the map |
| CanonicalKey.ParseQuery | internal/cache/key.go:71-71 | pairs are grouped by key in order of appearance |
| CanonicalKey.EncodeOrder | internal/cache/key.go:75-75 | the encoded pairs come in the order of the sorted keys, whatever the iteration order |
| CanonicalKey.SameCanonicalForm | internal/cache/key.go:61-99 | two URLs have one canonical form exactly when scheme and hostname agree up to ASCII case, the ports agree but for 443 of https and 80 of http, and path, other fields and the multiset of query pairs agree |
| CanonicalKey.NormalizeIdempotentIff | internal/cache/key.go:61-99 | canonicalisation is idempotent exactly when no bracketed hostname without colon remains |
| CanonicalKey.BracketsAreStripped | internal/cache/key.go:61-99 | the host [[a]] becomes [a] and then a |
| CanonicalKey.BracketedAddressesAreIdempotent | internal/cache/key.go:61-99 | canonicalisation is idempotent whenever a bracketed host holds a colon |
| CanonicalKey.CanonicalQueryIff | internal/cache/key.go:71-75 | canonical queries are equal exactly when the pairs are equal as multisets |
| CanonicalKey.CanonicalQueryKeepsPairs | internal/cache/key.go:71-75 | no pair is lost, added or merged |
| CanonicalKey.CanonicalQueryIsSorted | internal/cache/key.go:71-75 | the pairs come in the order of their keys, those of one key in the order of their values |
| CanonicalKey.EncodedQueryIff | internal/cache/key.go:75-75 | the same for the encoded text, for any injective escape function free of separators |
| CanonicalKey.NormalizeHostIff | internal/cache/key.go:80-99 | canonical hosts are equal exactly when hostnames agree up to ASCII case and the ports agree but for 443 of https and 80 of http |
| CanonicalKey.DefaultPortsAreDropped | internal/cache/key.go:86-88 | exactly 443 is dropped for https and 80 for http |
| CanonicalKey.LowerIff | internal/cache/key.go:63-81 | lower case forgets exactly the case of ASCII letters |
| CanonicalKey.GitHubUrl | internal/cache/key.go:61-78 | HTTPS://API.GITHUB.COM:443 becomes https://api.github.com/ |
| RequestPrepCache.Memo.GetOrPrepare | internal/service/version/request_prep_cache.go:33-57 | whatever others publish between its regions, a call returns the preparation of its URL, which is then held unless the memo is full |
| RequestPrepCache.Memo.Publish | internal/service/version/request_prep_cache.go:45-56 | keeps an entry that another call stored first and never exceeds the limit |
| RequestPrepCache.HoldsTheFirstPublished | internal/service/version/request_prep_cache.go:33-57 | the memo holds exactly the first distinct URLs published, up to its limit, each with its own preparation |
| RequestPrepCache.EveryCallGetsItsPreparation | internal/service/version/request_prep_cache.go:33-57 | in every interleaving of any number of calls each returns the preparation of its URL, and the memo is what the write-locked regions left in their order |
| RequestPrepCache.MemoisedIsReturned | internal/service/version/request_prep_cache.go:38-43 | a memoised URL is answered at once |
| RequestPrepCache.MemoIsMonotone | internal/service/version/request_prep_cache.go:45-54 | an entry is never replaced or dropped, and none holds a foreign preparation |

## Left out

- HTTP handlers, routing, health and metrics text, the JSON logger and configuration parsing: presentation and plumbing.
- The HTTP client, dialing, DNS and address checks: an exchange is a step that ends with a transport error or with a status, ETag and body.
- Service.Service.AskUpstream: token choice and rate-limit observations inside an exchange are not steps of the service; they are modelled in `TokenProvider`.
- Service.Service.Do: a follower whose call is open in the end is left waiting where the source blocks; that its waiting ends is `Cooperation.EveryFairRunEndsWaiting`. The goroutine of a leader runs to its end at one of two places, before the leader waits or after a cancelled leader has left; all other orders of its steps and the leader's are covered by the state machine alone.
- Service.Service.Handle: as for `Service.Service.Do`, no response stands for a caller that still waits.
- Service.Service.Others: its body lets time pass and evicts; what its callers rely on is its contract alone.
- Service.Service.ProcessKey: the processed and deduplicated counts are taken together with the end or the refusal of the refresh, not in a later atomic operation.
- Counter updates and activity reports of the state machine happen in the same step as the neighbouring action; deduplicated and detached refreshes are counted by the model only.
- The 30 second limit of a shared exchange: a transport error carries whether it timed out.
- A body that fails while it is read is part of what the upstream answers at a moment.
- Cache store errors, nil receivers and optional collaborators that are absent: the L1 store never fails and the service is fully wired.
- Cancellation inside the listing of active keys; the sweep runs to its end.
- RefreshWorkers.RunWorker: the clock is part of the surroundings of a pass, and the start of a refresh is read from it without rounding.
- RevalidateScheduler.Sweep: no other cache access happens during the sweep; concurrent recency changes are not modelled.
- L1Cache.Cache.Set: each method is one locked region and sizes are unbounded, so overflow of 64-bit byte counts is not modelled; neither is the conversion of a budget in GiB.
- CanonicalKey.NormalizeParsedURL: starts from a parsed URL whose query is already a list of pairs; URL parsing, percent escaping, the final rendering as text, SHA-256 and non-ASCII lower case are not modelled.
- Blank URLs are recognised for ASCII and Latin-1 white space only.
