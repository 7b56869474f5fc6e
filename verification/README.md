# funkyd: connection pool, response cache and pipeline budget

funkyd forwards DNS queries over TLS. Its logic is the shared mutable state behind a query:
a pool of upstream connections used by concurrent queries under a semaphore, a response
cache whose records are rewritten by reads and deleted by an asynchronous "trashman", and a
retry budget that travels inside a query. This project models the three and proves what they
guarantee over every interleaving.

`dafny verify dfyconfig.toml` checks everything.

## Layout

| module | what it holds |
|---|---|
| `Text` | the `"%s:%d"` keys of both maps |
| `PoolSpec` | upstreams, connection entries and every pool operation, on values |
| `ConnPool` | the pool as a class with the source's loops, each method proved against `PoolSpec` |
| `Counting` | counting connections over lists, maps and queries |
| `MutexSystem` | the mutex server and its pool as a transition system, and its invariant |
| `MutexInvariant` | the invariant holds in every state of every run |
| `MutexRuns` | pool bound, conservation, order of the upstream list, cooldown, weights |
| `MutexCascade` | termination of the purge cascade, the accounts of one query |
| `MutexSelection` | which upstream and which connection the queries of a run get |
| `MutexFlagged` | when a failure severs the connections to its upstream, and who gets a flagged one |
| `MutexLedger` | what each step does exactly, and idle lists, cooldowns and connections in terms of the whole run |
| `MutexServer` | the server as a class; a ghost history makes its methods extend a run of `MutexSystem` |
| `MutexScheduler` | any number of queries on the objects, interleaved as a scheduler pleases |
| `MutexProgress` | admission, steps that are never blocked, and a bound on the steps of a query |
| `CacheSpec` | TTL arithmetic of one read |
| `CacheSystem` | cache, evictions and trashman as a transition system |
| `CacheEvictions` | when an added response is safe from the trashman |
| `CacheLedger` | what is evicted, flushed and deleted, exactly |
| `RecordCache` | record objects, the cache and the trashman as classes |
| `CrewedCache` | cache and crew together; its methods extend a run of `CacheSystem` |
| `Pipeline` | the connector and querier cycle and its dial budget |

## How the source is read

* Each section under the pool's lock is one step; so is each goroutine that a purge starts,
  each `Evict` goroutine and each turn of the trashman's loop. A step reads a clock that never
  goes back once. A query takes separate steps for `Get`, the dial, the exchange and the close
  or return that follows, so other queries can come between any two of them.
* `Upstream.ref` stands for the identity of a Go pointer, `Conn.id` for that of a socket: it
  counts successful dials. A null `ConnEntry` stands for the empty `&connEntry{}`.
* Time and durations are integers in nanoseconds, with the source's truncations written out
  (milliseconds in the weight, seconds and the uint32 cast in the TTL). Weights are reals.
* Results of the network (dial, exchange) and the clock are parameters. So is whether a
  response cache answers a query of the mutex server.
* The configuration is fixed; timeout, cooldown and retries are not negative, 0 means the
  default where the source says so. There is at least one upstream and every upstream has a
  name. All are added at start-up, with weight 0 and never cooled. A round trip takes no
  negative time, a response is not created in the future, and the records of a response that is
  added belong to no entry under another key.

## Where the code differs from what it says

The model follows the code.

* `getBestUpstream` is described as ignoring cooling upstreams and falling back on the lightest
  one (connpool.go:202-204, 230-232), but looks only at those whose address is a key of the map
  (connpool.go:213), so an upstream never used before is chosen only as the head of the list
  (connpool.go:238). `CoolingChosenIff` and `LightestChosenIff` say exactly when it fails,
  `CoolingChosen` is an instance, and `OnlyFirstTried` the consequence: while the first upstream
  does not answer, no other is ever tried.
* A failure is meant to sever all connections to its upstream (connpool.go:428-429), and a
  connection flagged for a slow exchange to be treated as a bogus one next time
  (connpool.go:121-123). But `Add` of a flagged connection cools and purges the upstream and then
  appends that very connection (connpool.go:268-271, 314-319). `SeversIff` says that this is the
  only failure that leaves a connection, and which. `FlaggedIff` says exactly when a query is
  handed a flagged connection, `FlaggedAfterCooldown` that this happens only once the cooldown is
  over or as a last resort, and `FlaggedHandedOut` is an instance.
* `Add` also appends when the address is unknown (connpool.go:301-303). A purged errored connection
  cools and purges again when it is closed (connpool.go:424, 450-452). `ErrorsStayAtHead` and
  `CascadeTerminates` hold all the same.
* `updateTtl` promises the accurate TTL (cache.go:179) but leaves the creation time alone
  (cache.go:191-202). A read returns the accurate TTL exactly when no earlier read came later than
  the creation instant (`AccurateIffUnread`, with `SecondReadInaccurate` as an instance): a read
  one nanosecond after it already takes a second off.
* The expiry check runs after that update (cache.go:265-266), so it asks the stored TTL to
  cover the elapsed time twice. `TurnedAwayEarly` says exactly which live records it rejects.
* The trashman deletes by key (cache.go:445-450), so a response added while an eviction under
  its key is on its way can be lost. `AddedLastsIffNotPending` says that this is exactly when an
  added response is not sure to stay; `FreshResponseLost` is an instance from an empty cache.
* `PipelineQuerier` counts a failed exchange as a retry but fails the query it was given, not
  the one with the count (pipeline_server.go:260-263, 291), so only dials use up the budget: a
  failed exchange costs nothing exactly when its connection was an idle one (`RunRound`).
* The connection of a failed exchange is neither closed nor returned, and the next assignment
  overwrites it (pipeline_server.go:219, 279-292). `Life` says that these are the only connections
  a query loses.

## Model

| member | source | states |
|---|---|---|
| Text.KeyInjective | cache.go:155-157 | the text key determines name and number, and the other way round, even for names with colons |
| Text.KeyReads | cache.go:155-157 | a key is the name, a colon and decimal digits that denote the number |
| PoolSpec.Periods | connpool.go:117-121 | timeout and cooldown in nanoseconds, as configured in milliseconds, 500 ms for 0 |
| PoolSpec.AddressFaithful | upstream.go:26-32 | addresses are equal exactly for equal names and effective ports, port 0 meaning 853 |
| PoolSpec.ExchangesTotal | connpool.go:114-128 | after any sequence of exchanges the counters are sum and number, and the error flag is set exactly when one was over the limit |
| PoolSpec.WeightBound | connpool.go:145-151 | an unerrored connection weighs at most the RTT timeout |
| PoolSpec.WeightIsMean | connpool.go:145-151 | the weight times the number of exchanges is the total duration in whole milliseconds, rounded down |
| PoolSpec.ChooseIs | connpool.go:205-239 | which record is chosen, also among equal weights: the first with a key that is awake and has an idle connection, else the first with a key that is awake, else the head |
| PoolSpec.SelectionTiers | connpool.go:205-239 | selection and `Get` together: oldest idle connection of a lightest awake upstream that has one, else a dial to a lightest awake one with a key, else the lightest of all; a cooling one only in the last case |
| PoolSpec.CoolingChosenIff | connpool.go:202-239 | with some upstream awake, a cooling one is chosen exactly when it heads the list and no awake one has a key |
| PoolSpec.LightestChosenIff | connpool.go:202-239 | with no idle connection to an awake upstream, a lightest awake one is chosen exactly when one of those has a key, or no awake one has and the head is awake |
| PoolSpec.CoolingChosen | connpool.go:205-239 | an instance: two upstreams never used, the cooling head is chosen |
| PoolSpec.FirstAt | connpool.go:182-190 | the first upstream with an address, or the length of the list when there is none |
| PoolSpec.AddLists | connpool.go:296-323 | `Add` appends at the end of its address, after the purge if the connection is flagged and the address known; every other list and key stays |
| PoolSpec.ReplacedMembers | connpool.go:249-273 | an update keeps the length of the list, its addresses and every other record |
| MutexInvariant.InvStep | mutex_server.go:90-193 | every step of every query and of every spawned goroutine keeps the whole invariant |
| MutexInvariant.RunInv | mutex_server.go:227-282 | every state of every interleaved run satisfies the invariant |
| MutexRuns.PoolBound | connpool.go:379-400 | for every address, connections idle, held or being dialed never exceed the concurrency limit, and the pool holds at most that many for each distinct address |
| MutexRuns.Conservation | connpool.go:421-457 | every connection ever dialed is in exactly one place: idle under its address, held, awaiting a close, closed; it is closed at most once |
| MutexRuns.IdleExclusively | connpool.go:296-323 | an idle connection is idle once, under its own address, held by nobody, not about to be closed and open |
| MutexRuns.TakenExclusively | connpool.go:389-396 | `Get` never hands out a connection that is held, about to be closed or closed, and its taker is the only holder |
| MutexRuns.AddressesKnown | connpool.go:182-190 | in a run, looking up an upstream by the address of a connection never fails |
| MutexRuns.ErrorsStayAtHead | connpool.go:296-323 | in every reachable state an errored idle connection is the head of its list |
| MutexRuns.TouchesOne | connpool.go:249-273 | a step changes at most the one record of the address it reports, and its identity stays |
| MutexRuns.SortedPermutation | connpool.go:242-246 | the list is always in weight order and a permutation of the registered upstreams |
| MutexRuns.WakeupMonotone | upstream.go:43-51 | along a run the wakeup time of an upstream never goes back |
| MutexRuns.FailureCools | connpool.go:431-441 | a failed dial or the report of an errored connection sets the wakeup to one period later |
| MutexRuns.CoolsAfterFailure | connpool.go:346-357 | after such a failure the upstream is cooling during the whole period, whatever other queries do |
| MutexRuns.WeightHistory | connpool.go:194-261 | a weight is that of the last weighted connection reported for the upstream; above the RTT timeout it was errored and that update put the upstream to cooling |
| MutexCascade.AsyncCloseDecreases | connpool.go:445-457 | an asynchronous close takes one connection away and lowers twice the idle plus the pending ones, even when it purges again |
| MutexCascade.AsyncCloseEnabled | connpool.go:450-452 | a pending close can always run |
| MutexCascade.CascadeTerminates | connpool.go:421-457 | with no query step there are at most idle plus pending closes, and when none is pending every connection that was is closed |
| MutexCascade.QueryAccounts | mutex_server.go:130-193 | in every interleaving: at most retries + 1 attempts, answered exactly when one succeeded, then one connection returned, one closed for each failed exchange |
| MutexCascade.CloseEffect | mutex_server.go:103-113 | the close after a failed exchange closes a flagged connection, cools its upstream and leaves its idle list empty |
| MutexCascade.SortExists | connpool.go:242-246 | a sort by weight always exists |
| MutexSelection.RunSelection | mutex_server.go:49-69 | what a query gets at every `Get` of a run, tier by tier, the fallback on the head included |
| MutexSelection.OnlyFirstTried | connpool.go:205-239 | until some dial succeeds every query dials the first upstream of the list and none is answered |
| MutexSelection.ReturnOrder | connpool.go:314-319 | each idle list is in the order in which its connections were returned |
| MutexSelection.OldestTaken | connpool.go:389-396 | a query gets the connection that was returned before all others to its address |
| ConnPool.ConnEntry.AddExchange | connpool.go:114-128 | the entry becomes the specified one |
| ConnPool.ConnectionPool.GetUpstreamByAddress | connpool.go:182-190 | the loop finds the first record with the address, or none |
| ConnPool.ConnectionPool.GetBestUpstream | connpool.go:205-239 | the loop with its candidate returns the specified choice |
| ConnPool.ConnectionPool.SortUpstreams | connpool.go:242-246 | the list becomes sorted by weight and a permutation |
| ConnPool.ConnectionPool.PurgeUpstream | connpool.go:445-457 | the list becomes empty and one goroutine is spawned for each connection, in order |
| ConnPool.ConnectionPool.CoolAndPurgeUpstream | connpool.go:431-441 | the record cools from now for the period and its list is purged |
| ConnPool.ConnectionPool.UpdateUpstream | connpool.go:249-293 | the pool moves as the report of the connection says, the unknown address included |
| ConnPool.ConnectionPool.Add | connpool.go:296-323 | report first, then append; false exactly for an unknown address |
| ConnPool.ConnectionPool.CloseConnection | connpool.go:421-426 | report, and the socket is closed once |
| ConnPool.ConnectionPool.RunSpawned | connpool.go:450-452 | one goroutine of a purge closes its connection and may spawn more |
| ConnPool.ConnectionPool.NewConnection | connpool.go:326-375 | success gives a fresh entry with the dial as its first exchange; failure cools and purges |
| ConnPool.ConnectionPool.Get | connpool.go:379-400 | the object pool and the specified `Get` agree on result and new state |
| ConnPool.ConnectionPool.Size | connpool.go:404-413 | the number of idle connections over all addresses |
| MutexFlagged.SeversIff | connpool.go:428-441 | a failure leaves no idle connection to its upstream exactly when it is not the return of a flagged connection; after such a return that one is left, alone |
| MutexFlagged.IdleAsReturned | connpool.go:314-319 | in every reachable state every idle connection is what it was at its last return, its flag included |
| MutexFlagged.FlaggedIff | connpool.go:121-123 | a query is handed a flagged connection exactly when the last return of that connection was itself a failure of its upstream |
| MutexFlagged.FlaggedAfterCooldown | connpool.go:379-396 | when the upstream chosen is the one that the return of a flagged connection put to cooling, that connection is handed out only after the whole cooldown, or when no upstream is open |
| MutexFlagged.FlaggedHandedOut | connpool.go:121-123 | an instance: a slow dial, an answered exchange, a return, and the next query gets the flagged connection from an awake upstream |
| MutexLedger.ListsStep | connpool.go:445-457 | a step empties the list of an address that fails, appends what it returns, pops what it hands out, leaves every other list alone and takes no key away |
| MutexLedger.KeyIffReturned | connpool.go:445-457 | over any run an address has a key exactly when some connection to it was returned: a purge keeps the key |
| MutexLedger.IdleIff | connpool.go:379-400 | over any run a returned connection is idle exactly until it is handed out or its upstream fails |
| MutexLedger.PendingStep | connpool.go:450-452 | the connections given to goroutines are those that were idle at the failing address, in order |
| MutexLedger.WakeupStep | connpool.go:268-271 | a failure sets the wakeup of the one record found to one period from now; nothing else changes any wakeup, so a good return leaves its upstream awake |
| MutexLedger.CoolingIff | upstream.go:43-51 | over any run an upstream is cooling exactly when it failed less than one period ago |
| MutexLedger.ExchangeBooks | server.go:140-163 | an exchange books its duration on the connection, and flags it exactly when it failed or took too long |
| MutexLedger.ConnHistory | connpool.go:114-128 | over any run the counters of every connection are sum and number of the durations of its dial and exchanges, and it is flagged exactly when one was too long or an exchange failed |
| MutexLedger.ReportHistory | connpool.go:145-151 | the weight a report gives is the mean of these durations |
| MutexServer.Server.Take | mutex_server.go:49-56 | the pool's `Get` extends the run by one step |
| MutexServer.Server.Exchange | server.go:140-163 | the duration is booked before the error is looked at; the run goes on |
| MutexServer.Server.AttemptExchange | mutex_server.go:90-128 | one attempt, undisturbed, extends the run and ends holding a connection or ready for the next attempt |
| MutexServer.Server.RecursiveQuery | mutex_server.go:130-193 | the retry loop, undisturbed, extends the run and leaves the account of the query settled |
| MutexServer.Server.HandleDNS | mutex_server.go:227-282 | a query that finds a slot, undisturbed, extends the run and gives its slot back |
| MutexServer.Server.HeldDistinct | connpool.go:389-396 | two queries never hold the same connection |
| MutexServer.Server.HeldApart | mutex_server.go:90-128 | the object a query holds is neither in the pool nor with a goroutine |
| MutexServer.Server.PoolSize | connpool.go:404-413 | `Size()` is at most the concurrency limit times the number of distinct addresses |
| MutexScheduler.Turn | mutex_server.go:90-193 | a task goes on by exactly the step of the retry loop that its phase asks for, none once it is released; no other task moves and the objects follow the run |
| MutexScheduler.Happen | mutex_server.go:227-282 | an event extends the run by exactly what it does in the present state; a query that finds no slot waits |
| MutexScheduler.Schedule | mutex_server.go:227-282 | any interleaving of arriving queries, their steps and purge goroutines on the objects is a run, and the run consists of the steps of its events in order |
| MutexScheduler.Fates | connpool.go:421-457 | after any schedule every socket was closed at most once, those of idle, held and waiting connections never; every finished query is settled |
| MutexProgress.WaitsIff | mutex_server.go:227-282 | a query that arrives waits exactly when as many are active as the limit allows |
| MutexProgress.NeverStuck | mutex_server.go:90-193 | in every reachable state every unfinished query can take its next step whatever the network does, goes where the outcome sends it, and moves no other |
| MutexProgress.StepsBounded | mutex_server.go:130-193 | in every interleaving a query takes at most 4 * retries + 7 steps, and has finished when it took that many |
| CacheSpec.RefreshSubtracts | cache.go:180-203 | an update takes the elapsed seconds, rounded up, off the stored TTL; never negative before the cast |
| CacheSpec.TurnedAwayEarly | cache.go:265-266 | exactly which live records the check after the update rejects, with an instance |
| CacheSpec.WalkRecords | cache.go:254-287 | the loop updates the records up to the first failing one, leaves the rest, and hits exactly when none fails |
| CacheSpec.LowestTtlRule | cache.go:254-287 | a hit exactly when the answer is empty or its lowest stored TTL survives (section 5.2 of RFC 2181) |
| CacheSpec.MissLeavesDead | cache.go:266-284 | a miss leaves a response with an expired record, and such a response is always a miss |
| CacheSystem.TrashmanAccounts | cache.go:429-508 | unless paused fewer than max(1, batch) responses are queued; evictions are pending sends plus queued plus merged plus flushed |
| CacheSystem.DeletesEvicted | cache.go:435-451 | the trashman deletes a key only if it was evicted and that eviction is queued or being received |
| CacheLedger.EvictsIffDead | cache.go:266-287 | a `Get` or `Clean` evicts an entry, once, exactly when it leaves it expired; a hit evicts nothing, and no live entry is swept |
| CacheLedger.EvictionsCounted | cache.go:353-381 | over any run a key was evicted as often as its entry was found dead |
| CacheLedger.TurnFlushesIff | cache.go:485-505 | a turn of the trashman flushes exactly when it is not paused and a full batch waits, and then exactly what waits |
| CacheLedger.PausedIffTold | cache.go:500-505 | it is paused exactly when it was last told to be |
| CacheLedger.FlushesFullBatches | cache.go:485-505 | over any run a flush takes at least a batch and never happens during a pause |
| CacheLedger.GoneIff | cache.go:435-451 | an entry goes exactly when it is removed or in a flush for which its key waits; reads, sweeps and other additions never take it |
| CacheEvictions.DeletesByKey | cache.go:445-450 | a turn of the trashman deletes what is stored under a queued key, old or new, exactly when it empties its queue |
| CacheEvictions.StaysUnlessEvicted | cache.go:385-392 | with no eviction of the key on its way, an entry stays over any run until it is evicted or removed itself |
| CacheEvictions.PendingEvictionLoses | cache.go:445-450 | from any reachable state with such an eviction on its way, for any batch size, some continuation deletes the key without evicting it again |
| CacheEvictions.StoredIsAdded | cache.go:210-215 | while no other response is added under its key, what is stored there is the added response, with TTLs that have at most come down |
| CacheEvictions.AddedLastsIffNotPending | cache.go:210-215 | an added response, up to lowered TTLs, is sure to stay until it is evicted, removed or replaced exactly when no eviction of its key is on its way at the call |
| CacheEvictions.FreshResponseLost | cache.go:445-450 | an instance from an empty cache: a response added during the eviction of its dead predecessor is lost in one turn at batch size 1 |
| CacheSystem.ExactTtls | cache.go:180-203 | over any run a stored TTL is the original minus the sum of the rounded elapsed times of the reads that updated it |
| CacheSystem.HitReturnsLastAdded | cache.go:217-288 | a hit returns the response last added for name and type, only with lower TTLs, none of them stale |
| CacheSystem.TypesMatch | cache.go:240-243 | the branch for a mismatched type is never taken |
| CacheSystem.MissMeansDead | cache.go:266-284 | a `Get` of a present entry misses exactly when it leaves it expired, and then evicts it |
| CacheSystem.ExpiryIsPermanent | cache.go:353-381 | an expired entry stays expired over any run until a new response is added: every `Get` misses, every `Clean` evicts |
| CacheSystem.AccurateIffUnread | cache.go:179-203 | a hit gives the accurate TTL exactly when the entry was not read before at a time later than its creation |
| CacheSystem.SecondReadInaccurate | cache.go:191-202 | a run in which a second read reports 70 seconds where 80 are left |
| RecordCache.RecordCache.Refreshed | cache.go:254-285 | the loop over record objects does the specified walk in place, and evicts on a miss |
| RecordCache.RecordCache.Get | cache.go:217-288 | result, rewritten records and eviction are those of the specified lookup; other entries keep their records |
| RecordCache.RecordCache.RemoveSlice | cache.go:311-317 | exactly the keys of the given responses go |
| RecordCache.RecordCache.HasExpired | cache.go:364-379 | true exactly when some record has expired |
| RecordCache.RecordCache.Clean | cache.go:336-382 | exactly the entries with an expired record are evicted, each once, and counted |
| RecordCache.TrashMan.FlushResponses | cache.go:435-451 | the queue is emptied and exactly its keys leave the cache |
| RecordCache.TrashMan.OnEvicted | cache.go:485-498 | the message case moves cache and queue as the specified turn does |
| RecordCache.TrashMan.OnPause | cache.go:500-505 | so does the pause case |
| RecordCache.TrashMan.Start | cache.go:468-510 | the loop is the fold of its turns up to the cancellation, with a bounded queue at every head |
| RecordCache.ReactIsStep | cache.go:485-505 | a turn of the loop is a step of the transition system |
| CrewedCache.HitReports | cache.go:217-288 | a lookup that goes on from a run reports the response last added |
| CrewedCache.CrewedCache.Get | cache.go:217-288 | a hit on the objects is the response last added for name and type, with TTLs lowered by the elapsed seconds; the run goes on |
| CrewedCache.CrewedCache.Add | cache.go:210-215 | adding extends the run by that response |
| CrewedCache.CrewedCache.Clean | cache.go:336-382 | cleaning extends the run and counts the expired entries |
| CrewedCache.CrewedCache.Receive | cache.go:385-392 | any waiting eviction may reach the trashman next; the run goes on and the queue stays bounded |
| Pipeline.FailUntil | pipeline_server.go:194-211 | where the dials of one assignment end: all before fail, and it is the first success or the end of the budget |
| Pipeline.DialsEnd | pipeline_server.go:190-211 | all dials of an assignment but the last fail, and the last fails only with the budget spent, which is 2 for 0 |
| Pipeline.FailTwice | connpool.go:346-357 | a second failed dial to an address purges nothing more, and its cooldown takes the place of the first |
| Pipeline.PipelineConnector.AssignConnection | pipeline_server.go:184-220 | an idle connection, or dials within the budget; success without a connection once it is spent; and what the failed dials leave of the pool |
| Pipeline.QueryUpstream | pipeline_server.go:242-268 | the exchange is booked, and a failure counts as a retry in the copy it returns |
| Pipeline.RunRound | pipeline_server.go:157-293 | a round ends answered exactly when it got a connection and the exchange was answered, and sends the query back exactly when it got one and was not; the dials, the connection and the end of a round are those that the pool it meets and the network call for; a failed exchange costs nothing exactly when its connection was an idle one |
| Pipeline.ToldAnswered | pipeline_server.go:279-298 | no round of a story but the last was answered, and that one was if the query was |
| Pipeline.Cycle | pipeline_server.go:184-298 | a lone query comes to an end: its rounds, each told by the pool it met, make at most `budget` dials, and at most `pooled + budget` of them send it back |
| Pipeline.Life | pipeline_server.go:184-298 | over any number of rounds, with anything valid done to the pool between them, the dials of the rounds stay within the budget, and every connection they got is the one the query was answered on or was lost with the failed exchange of its round |

## Left out

* Sockets, TLS, dialer options, `dns.Client`: a dial or an exchange is a duration and an outcome.
* Contents of DNS messages other than names, types and TTLs: the rest of a message is one opaque value.
* Metrics, logging, configuration files, the HTTP interface, zone files, the blackhole server.
* The link from an upstream answer to `Cache.Add` (`processResults`, mutex_server.go:219): the
  mutex server and the cache are separate systems, and the former is told whether a cache answered.
* The pipeline's servfail route, its cacher and its finisher, and what becomes of a query whose
  budget is spent: there the code dispatches an empty connection entry.
* Evictions from the hosted cache and the pipeline's cache, for which no crew is started.
* The order of equal weights: `sort.Slice` is modelled as sorted and a permutation, and the loop
  that stands for it in `SortUpstreams` is an insertion sort.
* Data races on TTLs under the read lock, rounding of floating-point weights, overflow of durations.
* `AddUpstream` after start-up, and an empty list of upstreams, on which `getBestUpstream` panics.
* Negative retry counts, with which the retry loop is skipped and a nil connection is added.
* The janitor's timer and the `Stop` methods; `Clean` may come at any time.
* `Response.Ttl`, which nothing reads.
* MutexServer.Server.AttemptExchange: no step of another query comes between its own; `MutexScheduler` has each step apart and interleaves them.
* MutexServer.Server.RecursiveQuery: the same; `QueryAccounts` and `Fates` cover the retry loop among others.
* MutexServer.Server.HandleDNS: the same, and it starts when a slot is free instead of waiting for one.
* RecordCache.TrashMan.Start: nothing else touches the cache between its turns; `CrewedCache` has each turn as an operation of its own, in any order with the others.
* CrewedCache.CrewedCache.Add: asks that no record of the response occurs twice in it or in an entry under another key; the source would let them share TTLs.
* CrewedCache.CrewedCache.Get: the run so far is a ghost argument that the caller hands on, not a field of the object.
* Pipeline.Cycle: follows one query with no other query at work, for termination; `Life` covers the budget among others.
* Pipeline.Life: other work comes between the rounds of the query, not between the `Get` and the dials of one assignment, whose number and outcome do not depend on the pool.
