# SwitchYard, modelled and proved in Dafny

SwitchYard is a gateway in front of LLM providers. A request is authenticated, routed to a
model, charged against a token bucket and a monthly budget, answered from a cache if it can
be, and otherwise walked down a chain of candidates behind circuit breakers. This project
models the state machines on that path, and the histories kept beside it, and proves what
they guarantee over every sequence of calls by every number of requests and replicas.

`dafny verify dfyconfig.toml` checks the whole project.

| file | what it models |
|---|---|
| `BreakerMachine`, `BreakerRuns`, `BreakerProbes` | the breaker of one replica, what holds over all its runs, and who holds its probe slot |
| `BreakerStore`, `BreakerFleet`, `BreakerEpisodes`, `Breaker` | the Redis scripts, replicas sharing them, one shared episode across them, and the classes that refine all of it |
| `TokenBucket`, `RateLimiter` | the lazy bucket of the rate limiter |
| `BudgetLedger`, `Budget` | interleaved reservations, top-ups and settlements on shared counters |
| `FallbackOrder`, `FallbackWalk`, `RequestPath`, `LeakedProbe` | building the chain, walking it, the request around it, and what a walk can leave behind in a breaker |
| `CacheKey`, `CacheStore`, `CacheLookup`, `CacheListing` | the cache key stream, the two tiers in Redis, lookups, and what is kept and found again |
| `Similarities`, `VectorCodec` | the score of two embeddings, and how they are stored |
| `Sessions` | refresh-token rotation |
| `Retention` | the request log's retention and the spend read across both tables |
| `Ring`, `HealthStatus`, `HealthWindow`, `HealthMonitor` | ring buffers, passive statistics, status with hysteresis |
| `TeamRegistry` | the two indexes of the team registry |

State that the program updates in place is a class here; each of its methods is proved
equal to a function on values, and the guarantees are lemmas about runs of those
functions. A call to Redis or Postgres is one atomic step that may be delivered, lost, or
applied although the caller sees an error. Clocks, provider answers, breaker answers,
hashes and random identifiers are parameters, so every claim holds for all of them.

## Where the code differs from its comments, or from what one would expect

- A replica that failed to publish an Open episode works alone until `Reset`; the comment at
  internal/resilience/breaker.go:242-248 also names the next publish and the next local close,
  but those are guarded by the very flag (`BreakerFleet.DetachedIsLocal`).
- The probe success script never looks at the deadline, so a success that arrives after
  another replica reopened the breaker puts "half open" into a cache while the store is Open,
  and that replica admits a call (`BreakerFleet.LateSuccessAdmitsWhileOpen`). The three ways in
  which a cached verdict can disagree with the store are exactly those in
  `BreakerFleet.TruthfulExactlyWhenHonest`. Only two of them ever let a call out while the store is
  Open, a late success and a lost reset, and only for one cache lifetime and only on the replica that
  made the call: `BreakerFleet.CachedVerdictAdmitsIff` for one call, `BreakerFleet.AdmitsWhileOpenIff`
  over every run.
- The reply to a reported success carries no episode count, so a replica that acts on it and
  then fails publishes episode one and the base cooldown. Exactly which published numbers
  continue the store's count: `BreakerEpisodes.EpisodeCountContinuesIff` for one replica,
  `BreakerEpisodes.PublishedNumberContinuesIff` over every run of the fleet.
- `nextCooldown` shifts an int64 and can wrap (`BreakerMachine.CooldownWraps`; exactly when:
  `BreakerMachine.CooldownExact`).
- A late report of a call from before the episode frees the slot of the probe in flight, so
  two probes can be out (`BreakerProbes.StaleReportFreesTheSlot`). A second probe goes out if and
  only if the first has timed out or a report other than its own has come in
  (`BreakerProbes.SecondProbeIff`).
- A request that begins before the end of a month and falls back after it can leave the old
  month's counter above the cap for good (`BudgetLedger.StraddlingRequestPassesTheCap`; over all
  runs, exactly when the periods differ: `BudgetLedger.CapHoldsIffSamePeriod`).
- An allowlist is checked when the chain is built, the provider is looked up again when it is
  called; a configuration swap in between can reach a provider the team never listed
  (`RequestPath.ReloadEscapesAllowlist`; over all worlds, exactly when:
  `RequestPath.AllowlistHoldsIff`).
- A probe slot that a candidate claimed is left unreported when the budget refuses the candidate or
  nobody serves its model (`FallbackWalk.UnreportedIff`, `LeakedProbe.SlotLeaksIff`), and then that
  breaker refuses everyone until the probe timeout (`LeakedProbe.LeakedProbeBlocks`).
- Counting a hit on an entry that has just expired leaves a hash with nothing but the counter
  (`CacheStore.ExpiredHitLeavesRemnant`; exactly when: `CacheStore.RemnantIff`). A later lookup of
  that request fails to decode it and misses without asking the semantic tier
  (`CacheLookup.Cache.RemnantHidesBucket`).
- The role of the final message is not part of the cache key, and the smallest int64 is written
  as a bare minus sign; neither makes two different contexts share a key
  (`CacheKey.KeysEqualIff`, `CacheKey.ItoaInjective`, `CacheKey.ItoaRoundTrip`).
- Spend since a moment that is not the start of a day grows as rows of that day are rolled up
  (`Retention.ExactIffStartOfDay`). The one caller passes the start of a month.
- `Update` on a revoked team indexes the empty hash; it never authenticates anyone
  (`TeamRegistry.ResolveIsScan`).

## Model

| member | source | states |
|---|---|---|
| `BreakerMachine.CooldownExact` | internal/resilience/breaker.go:795-809 | the shifted cooldown is the configured one (doubled per episode, capped) if and only if the product fits int64 or wraps outside the open interval between zero and the cap |
| `BreakerMachine.CooldownWraps` | internal/resilience/breaker.go:795-809 | a valid configuration whose twenty-first cooldown wraps from about five hours to about a millisecond |
| `BreakerMachine.CooldownExactWithoutOverflow` | internal/resilience/breaker.go:795-809 | with base * 2^20 inside int64 every cooldown is the configured one |
| `BreakerMachine.CooldownDoubles` | internal/resilience/breaker.go:795-809 | the first configured cooldown is the base, and each later one double the one before, up to the cap and up to the twenty-first |
| `BreakerMachine.Wrap64Congruent` | internal/resilience/breaker.go:795-809 | the shift's truncation stays in the int64 range and differs from the product by a multiple of 2^64 |
| `BreakerRuns.WindowStep` | internal/resilience/breaker.go:814-820 | pruning the kept window for one more failure equals filtering the whole history of failures |
| `BreakerRuns.RunInv` | internal/resilience/breaker.go:403-851 | every run of calls on a forward clock keeps the breaker consistent with an outside observer's audit: window, episodes, cooldowns, streak, probe slot |
| `BreakerRuns.OpensExactlyAtThreshold` | internal/resilience/breaker.go:676-707 | a failure while Closed opens the breaker exactly when enough failures since it last became Closed or was reset are inside the window |
| `BreakerRuns.ClosedAdmits` | internal/resilience/breaker.go:425-441 | a Closed breaker admits every call and is not changed by it |
| `BreakerRuns.OpenRefusesForItsCooldown` | internal/resilience/breaker.go:425-441 | in the j-th Open episode in a row a call is admitted if and only if the j-th cooldown has passed |
| `BreakerRuns.EpisodesSpanTheirCooldowns` | internal/resilience/breaker.go:747-809 | n consecutive episodes span at least the sum of their cooldowns |
| `BreakerRuns.ClosesExactlyAtStreak` | internal/resilience/breaker.go:600-630 | a breaker that is not Closed closes exactly on the success that completes the streak of this HalfOpen episode |
| `BreakerRuns.HalfOpenAdmissions` | internal/resilience/breaker.go:548-576 | admissions of a HalfOpen episode are at most one, plus its successes, plus its elapsed probe timeouts |
| `BreakerRuns.NeverWedges` | internal/resilience/breaker.go:403-441 | in every reachable state a call made the longest cooldown and the probe timeout after the last one is admitted |
| `BreakerProbes.SecondProbeIff` | internal/resilience/breaker.go:548-576 | over every run, while the newest probe is out a further call is admitted if and only if that probe has been out for the timeout or a report other than its own has come in since |
| `BreakerProbes.HalfOpenAdmitsIff` | internal/resilience/breaker.go:548-576 | over every run a HalfOpen breaker admits a call if and only if its newest probe has been out for the timeout or any report has come in since |
| `BreakerProbes.AtMostOneProbe` | internal/resilience/breaker.go:548-576 | if every report made while probing names a probe that is out, and nobody asks once a probe has timed out, at most one probe is out |
| `BreakerProbes.SlotMirrorsOutstanding` | internal/resilience/breaker.go:548-576 | under that discipline the slot holds exactly the probe that is out |
| `BreakerProbes.StaleReportFreesTheSlot` | internal/resilience/breaker.go:574-576 | a run, disciplined up to a stale report and not beyond, that ends with two probes out |
| `BreakerProbes.AbandonedProbeHoldsSlot` | internal/resilience/breaker.go:548-568 | a probe that is never reported, with no other report either, keeps the slot for the probe timeout and no longer |
| `BreakerFleet.FailedPublishDetaches` | internal/resilience/breaker.go:719-738 | opening an episode applies locally in any case and detaches the replica exactly when the publish was not confirmed |
| `BreakerFleet.DetachedIsLocal` | internal/resilience/breaker.go:403-441 | over every later sequence of calls and every content of the store, until Reset, a detached replica answers like a breaker without a store, writes nothing and never rejoins |
| `BreakerFleet.AdmitsByVerdict` | internal/resilience/breaker.go:456-473 | an attached replica takes over the verdict it acts on, and admits the call if and only if that is Closed, or HalfOpen and it is told that it won the free slot |
| `BreakerFleet.ClosedStoreAdmits` | internal/resilience/breaker.go:403-473 | over every run, once the store has been Closed for a cache lifetime an attached replica whose reads succeeded in it admits every call |
| `BreakerFleet.ResetStartsAfresh` | internal/resilience/breaker.go:770-791 | a reset forgets failures, episodes and probe, attaches the replica again, and unless lost closes the store and frees its slot |
| `BreakerFleet.TruthfulExactlyWhenHonest` | internal/resilience/breaker.go:482-524 | a call caches the store's own verdict if and only if it is not a late success, not an episode shorter than a millisecond and not a reset lost on the way |
| `BreakerFleet.CachedVerdictAdmitsIff` | internal/resilience/breaker.go:403-524 | for every state and every call that installs a verdict, while it lasts and the store is Open the replica's next call goes out if and only if the installing call was a late success or a lost reset |
| `BreakerFleet.CacheHasOrigin` | internal/resilience/breaker.go:482-524 | over every run, what a replica has cached was written by one identified earlier move of its own |
| `BreakerFleet.VerdictsAreRecent` | internal/resilience/breaker.go:482-504 | over every run of any number of replicas, if none of a replica's own calls of the last cache lifetime was exceptional, the verdict it acts on is the store's own now or was at a moment less than one cache lifetime ago |
| `BreakerFleet.AdmitsWhileOpenIff` | internal/resilience/breaker.go:403-473 | over every run, once the store has been Open for a cache lifetime an attached replica whose reads succeeded in it admits a call if and only if it still acts on a lost reset of its own, or on a late success of its own and wins the free slot |
| `BreakerFleet.OpenStopsTheFleet` | internal/resilience/breaker.go:403-473 | so no attached replica admits a call while the store stays Open, unless a call of its own within the last cache lifetime was a late success or a lost reset |
| `BreakerFleet.LateSuccessAdmitsWhileOpen` | internal/resilience/breaker.go:637-662 | a run in which every call but one late success is honest, and after which an attached replica admits a call while the store is Open |
| `BreakerEpisodes.EpisodeStays` | internal/resilience/breaker_store.go:78-169 | as long as no call replaces it, every call of every replica leaves the store's episode as it is, apart from counting successes |
| `BreakerStore.EpisodeTimeline` | internal/resilience/breaker_store.go:78-130 | from the moment an episode is written the load script answers Open for its cooldown, HalfOpen until the key expires, and Closed after that |
| `BreakerStore.SuccessClosesIff` | internal/resilience/breaker_store.go:146-169 | a success on a live episode closes it, for the caller and for every later read, if and only if the count including it reaches the threshold; otherwise exactly the count grows; either way the slot is free |
| `BreakerStore.SharedSlotIff` | internal/resilience/breaker_store.go:278-290 | a slot that was won is refused to everyone for the lifetime of the claim and to nobody after it |
| `BreakerStore.NewEpisodeFreesSlot` | internal/resilience/breaker_store.go:111-130 | a new episode and a reset leave the slot free, and a reset reads as Closed |
| `BreakerEpisodes.ReplacesReplaces` | internal/resilience/breaker.go:719-753 | a call that replaces an episode leaves none, or writes the next number with its cooldown from now on, no success and a free slot |
| `BreakerEpisodes.SharedSuccessClosesIff` | internal/resilience/breaker.go:637-662 | a recorded success closes the store, the replica that is told and its cached verdict if and only if it completes the streak |
| `BreakerEpisodes.SuccessesAreCounted` | internal/resilience/breaker_store.go:146-169 | over every run the count of a live episode grows by exactly the successes recorded in it by all replicas |
| `BreakerEpisodes.ClosesExactlyAtSharedStreak` | internal/resilience/breaker_store.go:146-169 | over every run, of all successes recorded in one live episode by all replicas exactly the one that completes the streak closes it |
| `BreakerEpisodes.PublishedEpisodeTimeline` | internal/resilience/breaker.go:719-753 | over every run a published episode reads as Open for its replica's cooldown and as HalfOpen after it, with its number, until the key expires or a call replaces it |
| `BreakerEpisodes.ProbesOfOneEpisode` | internal/resilience/breaker_store.go:264-290 | over every run of any number of replicas the slot of one store episode is won at most once, plus once per success recorded in it, plus once per elapsed lifetime of a claim |
| `BreakerEpisodes.AdmitsWithoutSlotIff` | internal/resilience/breaker.go:456-543 | one cache lifetime into a live episode, with the reads since it began successful, an attached replica admits a call without winning the slot if and only if it still acts on a lost reset of its own |
| `BreakerEpisodes.AdmitsByWinning` | internal/resilience/breaker.go:456-543 | so it admits a call only by winning the slot, unless a reset since the episode began was lost |
| `BreakerEpisodes.FleetHalfOpenAdmissions` | internal/resilience/breaker_store.go:264-290 | from then on all admissions of all attached replicas obey that bound, late successes and void episodes included |
| `BreakerEpisodes.EpisodeCountContinuesIff` | internal/resilience/breaker.go:637-662 | after a reported success, a call and a failure, the published episode continues the store's count if and only if the call came after the cache lifetime or the count was zero |
| `BreakerEpisodes.PublishedNumber` | internal/resilience/breaker.go:719-753 | over every run, a published episode has the number after the one its replica took from its last source: a read, a reply, its own last episode, or none |
| `BreakerEpisodes.PublishedNumberContinuesIff` | internal/resilience/breaker.go:719-753 | within one live episode it continues the store's count if and only if the source had that count: always for a read of that episode and for the replica that opened it, only at zero for a reply |
| `BreakerFleet.FreshEpisodeVerdict` | internal/resilience/breaker_store.go:78-145 | an episode just written reads as Open, unless its cooldown truncates to zero milliseconds |
| `Breaker.RedisStore.Open` | internal/resilience/breaker_store.go:233-245 | the write, and what the caller learns, for each fate of the call |
| `Breaker.RedisStore.ProbeSuccess` | internal/resilience/breaker_store.go:250-262 | the counted success or the closed episode, and the reply, for each fate of the call |
| `Breaker.RedisStore.Claim` | internal/resilience/breaker_store.go:278-290 | a free slot is taken whenever the call arrives, and the caller proceeds only when told that it won |
| `Breaker.RedisStore.Clear` | internal/resilience/breaker_store.go:298-306 | both keys are gone unless the call was lost |
| `Breaker.CircuitBreaker.Prune` | internal/resilience/breaker.go:814-820 | the loop drops exactly the stale prefix |
| `Breaker.CircuitBreaker.Transition` | internal/resilience/breaker.go:825-851 | a state change frees the slot and stamps an opening, and changes nothing else |
| `Breaker.CircuitBreaker.AllowAlone` | internal/resilience/breaker.go:425-441 | refines the machine that the run lemmas are about |
| `Breaker.CircuitBreaker.Refresh` | internal/resilience/breaker.go:482-504 | reads the store at most once per cache lifetime, and remembers a failed read as well |
| `Breaker.CircuitBreaker.AllowWith` | internal/resilience/breaker.go:456-473 | mirrors the verdict and claims the shared slot only while half open |
| `Breaker.CircuitBreaker.Allow` | internal/resilience/breaker.go:403-421 | refines one step of the fleet, and of the machine when there is no store |
| `Breaker.CircuitBreaker.PublishSuccess` | internal/resilience/breaker.go:637-662 | refines the fleet's report of a probe, for each fate of the call |
| `Breaker.CircuitBreaker.RecordSuccess` | internal/resilience/breaker.go:592-630 | refines one step of the fleet, and of the machine when there is no store |
| `Breaker.CircuitBreaker.OpenBreaker` | internal/resilience/breaker.go:747-753 | opens the next episode with its cooldown and an empty window |
| `Breaker.CircuitBreaker.FailAlone` | internal/resilience/breaker.go:676-707 | refines the machine and tells whether an episode began |
| `Breaker.CircuitBreaker.RecordFailure` | internal/resilience/breaker.go:667-738 | refines one step of the fleet, and of the machine when there is no store |
| `Breaker.CircuitBreaker.Reset` | internal/resilience/breaker.go:770-791 | refines one step of the fleet; local state is cleared even if the store was not reached |
| `TokenBucket.BalanceComposes` | internal/ratelimit/bucket.go:96-141 | refilling to a moment and then on to a later one equals refilling to the later one |
| `TokenBucket.ChargeIsExact` | internal/ratelimit/bucket.go:96-141 | a charge is allowed if and only if the balance covers it, lowers the balance by exactly that, and reports the balance it leaves; only a refused one announces a wait |
| `TokenBucket.RefillIff` | internal/ratelimit/bucket.go:96-118 | a bucket left alone gains its rate, and is full if and only if the rate has made up what was missing; a minute's rate is the capacity |
| `TokenBucket.RunBound` | internal/ratelimit/bucket.go:82-175 | over every run, admitted less returned tokens are at most opening balance plus refill less closing balance |
| `TokenBucket.RateBound` | internal/ratelimit/bucket.go:82-175 | the same in any interval of any run, with the capacity for the opening balance; the balance never passes the capacity |
| `TokenBucket.BalanceStaysNonNegative` | internal/ratelimit/bucket.go:142-175 | if no request uses more than it reserved the balance is never negative |
| `TokenBucket.DeniedIsInvisible` | internal/ratelimit/bucket.go:96-141 | a denied request changes the result of no later sequence of operations |
| `TokenBucket.ExpiryIsInvisibleIff` | internal/ratelimit/bucket.go:82-141 | expiry after the idle lifetime goes unnoticed by every later sequence of operations the limiter sends if and only if the balance was at least minus the capacity |
| `TokenBucket.SettlingIsChargingIff` | internal/ratelimit/bucket.go:142-175 | reserving and settling equals charging the actual amount at once if and only if no more was used than reserved or the refill in between stayed below the capacity |
| `TokenBucket.RetryAfterIsExact` | internal/ratelimit/bucket.go:96-141 | a denied request retried alone succeeds if and only if it fits the capacity and the announced wait has passed |
| `RateLimiter.Limiter.Charge` | internal/ratelimit/bucket.go:214-257 | refines the bucket on one key, refuses bad arguments, touches no other key |
| `RateLimiter.Limiter.Reserve` | internal/ratelimit/bucket.go:289-303 | a handle exists exactly for an admitted charge |
| `RateLimiter.Limiter.Reconcile` | internal/ratelimit/bucket.go:317-341 | settles by the signed difference, exactly when there is a handle and a difference |
| `BudgetLedger.SpendIsConserved` | internal/budget/tracker.go:55-197 | over every interleaving of any number of requests of any teams, each with caps of its own, each counter is its opening value plus final costs settled plus everything still held |
| `BudgetLedger.SettledSpendIsFinalCost` | internal/proxy/handler.go:325-354 | when all have settled the counter has grown by exactly the sum of final costs, however many fallbacks were taken |
| `BudgetLedger.HoldsCoverCandidates` | internal/proxy/budget.go:139-172 | in every reachable state a request's base hold and top-ups cover every candidate it was allowed to try |
| `BudgetLedger.ReserveKeepsCap` | internal/budget/tracker.go:55-74 | a reservation let through fits the cap and one refused leaves every counter as it was |
| `BudgetLedger.ReserveIff` | internal/budget/tracker.go:55-74 | a reservation is granted if and only if it fits under the cap; every counter afterwards |
| `BudgetLedger.BeginIff` | internal/budget/tracker.go:130-167 | a request starts if and only if its estimate fits under the cap, whoever else is running, and then holds exactly that |
| `BudgetLedger.AdmitIff` | internal/proxy/budget.go:139-172 | a further candidate is let through if and only if it is no dearer than the base hold or the difference fits under the cap, and then exactly the difference is held |
| `BudgetLedger.EveryRequestCanEnd` | internal/proxy/budget.go:179-189 | from every state a running request can be settled with any cost and give every top-up back, and no other request is touched |
| `BudgetLedger.CapHolds` | internal/budget/tracker.go:55-74 | with final costs within estimates a counter passes the largest cap it was checked against by at most the top-ups still to be returned plus those taken in another period, whatever caps govern other counters |
| `BudgetLedger.SettleKeepsBoundIff` | internal/budget/tracker.go:180-197 | on a counter at its bound a settlement keeps the bound if and only if the final cost fits what the request holds on that counter |
| `BudgetLedger.FittingRunKeepsBound` | internal/proxy/budget.go:139-189 | if every settlement fits its counter the overshoot over the cap is just the top-ups still to be returned |
| `BudgetLedger.CapHoldsIffSamePeriod` | internal/proxy/budget.go:139-189 | for every cap, that bound holds over all priced runs if and only if top-ups are taken in the period the requests began in |
| `BudgetLedger.StraddlingRequestPassesTheCap` | internal/budget/tracker.go:130-197 | for every cap and top-up, a run with all costs within estimates that leaves the first period above its cap by that top-up with nothing left to return |
| `Budget.Tracker.Reserve` | internal/budget/tracker.go:130-167 | refines the ledger's reservation; bad arguments and an unreachable Redis fail closed and change nothing |
| `Budget.Tracker.Reconcile` | internal/budget/tracker.go:180-197 | replaces the hold by the actual amount on its own counter and touches no other |
| `Budget.Tracker.Reset` | internal/budget/tracker.go:233-238 | the whole cap of one team's period is free again, and no other counter changes |
| `Budget.ChainBudget.Admit` | internal/proxy/budget.go:139-172 | which of admitted, unpriced, unchecked and denied is answered, if and only if; the reported cost difference; exactly the difference is held, as the ledger's admission does; what is admitted is covered |
| `Budget.ChainBudget.ReconcileExtras` | internal/proxy/budget.go:179-189 | the loop returns exactly the top-ups whose writes succeed, counter by counter |
| `FallbackOrder.BuildChain` | internal/resilience/fallback.go:76-132 | the chain is exactly the eligible candidates once each, healthy before degraded, declared order otherwise; empty only if nothing is permitted |
| `FallbackOrder.ChainIsUnique` | internal/resilience/fallback.go:47-75 | the documented order determines the chain |
| `FallbackOrder.ChainReads` | internal/resilience/fallback.go:47-75 | read off the chain: nothing twice, nothing down while anything permitted is up and then everything that is up, all healthy before all degraded, declared order within a status, everything permitted when nothing is up |
| `FallbackOrder.Distinct` | internal/resilience/fallback.go:77-97 | the loop keeps each named candidate at its first place |
| `FallbackOrder.KeepPermitted` | internal/resilience/fallback.go:99-108 | the loop keeps exactly the permitted candidates, in order |
| `FallbackOrder.Band` | internal/resilience/fallback.go:113-127 | the loop keeps exactly the permitted candidates of one status, in order |
| `FallbackWalk.Retry` | internal/resilience/retry.go:135-173 | calls the candidate exactly up to the first answer, permanent error or departure of the caller, or as often as is allowed, and not less |
| `FallbackWalk.AdmitCandidate` | internal/proxy/budget.go:139-172 | a candidate passes if and only if it is affordable; the top-up is exactly the difference; what passes is covered |
| `FallbackWalk.AffordableIff` | internal/proxy/budget.go:139-172 | the budget turns a candidate away if and only if it is not the requested one and cannot be priced, or is dearer than the base hold and the difference cannot be held |
| `FallbackWalk.AdmissionIsLedger` | internal/proxy/budget.go:139-172 | when the tracker answers as the ledger does, the walk's admission and its top-up are the ledger's |
| `FallbackWalk.Screen` | internal/proxy/fallback.go:136-215 | breaker, budget and registry are asked in this order, and the first obstacle is the one reported |
| `FallbackWalk.CallCandidate` | internal/proxy/fallback.go:217-280 | the candidate is called until the first call that leaves no retry due, or as often as its own limit and the calls left allow, and one report follows saying how they ended |
| `FallbackWalk.Visit` | internal/proxy/fallback.go:134-294 | deals with one candidate exactly as the reference step does |
| `FallbackWalk.WalkFinishes` | internal/proxy/fallback.go:119-298 | every reference walk ends in order: calls within both limits; every call but a candidate's last ended in a transient error with the caller still there, and a last one that did used up a limit; failures[j] belongs to chain[j], which was reached with calls left and the caller still there, with its first obstacle; one report per called candidate and none otherwise, exact top-ups, served candidate covered, and giving up only when nothing is left to try |
| `FallbackWalk.RunChain` | internal/proxy/fallback.go:119-298 | for every pattern of refusals, denials and failures the loop is the reference walk, and so ends in order |
| `FallbackWalk.ExhaustedHasNoSuccess` | internal/proxy/fallback.go:296-298 | a walk that gives up had no candidate whose last call answered |
| `FallbackWalk.UnreportedIff` | internal/proxy/fallback.go:163-215 | a candidate that got past its breaker is left without a report if and only if the budget refused it or nobody serves its model |
| `LeakedProbe.SlotLeaksIff` | internal/proxy/fallback.go:163-215 | after a finished walk the probe slot it claimed for a candidate it gave up on is still taken if and only if the budget refused the candidate or nobody serves its model |
| `LeakedProbe.LeakedProbeBlocks` | internal/resilience/breaker.go:548-576 | such a slot makes the breaker refuse everyone who asks until the probe timeout, and nobody after it, as long as nobody reports |
| `RequestPath.SelectCandidate` | internal/proxy/route.go:129-158 | the best permitted candidate whose breaker is not open, or the best of all if every breaker is; unknown and empty tiers, if and only if |
| `RequestPath.Route` | internal/proxy/route.go:42-107 | a named model is left alone; only an inferred tier escalates, only upwards and only when it offers nothing; each refusal exactly when nothing is offered |
| `RequestPath.TiersOf` | internal/router/policy.go:19-90 | which names are routed; a tier named outright is never left, a prompt that looks simple starts in the simple tier and may move up to a different complex one, one that looks complex stays in the complex tier |
| `RequestPath.ServeModel` | internal/proxy/handler.go:240-290 | allowlist, resolution, chain and walk: not found and forbidden if and only if; served by the first candidate that met no obstacle; failed only when every candidate's obstacle is explained, every due retry was made and nothing was left to try |
| `RequestPath.Serve` | internal/proxy/handler.go:240-290 | whatever health, breakers, budget, routing and escalation do, every provider call is for a pair the team's allowlists permit; a named model is the one served, a routed one is the best choice of its tier or of the one above, and each refusal exactly when nothing is offered |
| `RequestPath.AllowlistHoldsIff` | internal/proxy/fallback.go:205-215 | for every chain of permitted models and whatever the registry answers during the walk, all providers called are permitted in all worlds if and only if every model of the chain is served, if at all, by a permitted provider |
| `RequestPath.UnsafePlaceIsCalled` | internal/proxy/fallback.go:205-215 | for every chain and every place where that fails, a world in which the walk calls the provider the team never listed |
| `RequestPath.ReloadEscapesAllowlist` | internal/proxy/fallback.go:205-215 | the same through the whole request, for every chain built from the registry as it was |
| `CacheKey.AppendInt` | internal/cache/key.go:166-185 | the digit loop fills its buffer with the decimal text, and with a bare minus sign for the smallest int64 |
| `CacheKey.ItoaRoundTrip` | internal/cache/key.go:161-185 | every int64 but the smallest is read back from its text, an optional sign and decimal digits without a leading zero |
| `CacheKey.BigEndianRoundTrip` | internal/cache/key.go:144-151 | a length that fits its prefix is read back from it, most significant byte first |
| `CacheKey.ItoaInjective` | internal/cache/key.go:161-185 | no two int64 values have the same text |
| `CacheKey.TempTextInjective` | internal/cache/key.go:187-194 | no two temperatures, nor a temperature and its absence, have the same text |
| `CacheKey.StreamInjective` | internal/cache/key.go:126-151 | a stream of length-prefixed fields decodes in one way only |
| `CacheKey.FieldsInjective` | internal/cache/key.go:77-123 | equal field lists mean equal scope, model, limits, stop list and earlier messages |
| `CacheKey.KeysEqualIff` | internal/cache/key.go:77-123 | without a digest collision, fingerprints are equal if and only if the contexts are, and entry identifiers if and only if the normalised queries are too |
| `CacheKey.LastMessageIsTheQuery` | internal/cache/key.go:96-106 | the messages are the earlier ones followed by one whose text is the query; without messages both are empty |
| `CacheKey.ScopeIdsEqualIff` | internal/cache/key.go:42-47 | scope identifiers are equal if and only if the tenants are: organisations and isolated teams never meet |
| `CacheKey.FeedStops` | internal/cache/key.go:92-94 | the loop feeds one field per stop sequence, in order |
| `CacheKey.FeedMessages` | internal/cache/key.go:96-106 | the loop feeds role and content of every earlier message, in order |
| `CacheKey.FeedFingerprint` | internal/cache/key.go:78-106 | what the hash is fed is exactly the stream of the fields |
| `CacheStore.EverythingHasAnOrigin` | internal/cache/store.go:185-275 | over every sequence of commands, whatever can be read was written, and whatever is listed was listed, by one of them |
| `CacheStore.ExactHitIsIsolated` | internal/cache/store.go:90-111 | what the exact tier finds was stored for the same tenant, context and normalised prompt |
| `CacheStore.SemanticHitIsIsolated` | internal/cache/store.go:116-181 | what the semantic tier finds, listed at one moment and fetched at a later one, was stored for the same tenant and context |
| `CacheStore.ExpiredHitLeavesRemnant` | internal/cache/store.go:279-287 | for every entry, a run that leaves nothing of it but a hit counter |
| `CacheStore.RemnantIff` | internal/cache/store.go:279-287 | after every sequence of commands an entry is such a remnant if and only if a hit was counted on it while absent and nothing has written, deleted or expired it since |
| `CacheLookup.Nearest` | internal/cache/lookup.go:165-181 | the first of the highest scoring candidates of the query's dimension, if any scores above the floor |
| `Similarities.Dot` | internal/cache/embed.go:184-195 | the loop computes the similarity, and zero for vectors of different dimensions |
| `Similarities.Symmetric` | internal/cache/embed.go:184-195 | similarity is symmetric |
| `Similarities.Additive` | internal/cache/embed.go:184-195 | similarity is additive in one argument |
| `Similarities.Homogeneous` | internal/cache/embed.go:184-195 | similarity is homogeneous in one argument |
| `Similarities.AxisShowsComponent` | internal/cache/embed.go:184-195 | the similarity with an axis is the component on it, so these laws leave only the dot product |
| `Similarities.UnitVectorsScore` | internal/cache/embed.go:184-195 | two unit vectors score between minus one and one, and exactly one if and only if they are equal |
| `CacheLookup.LoadVectors` | internal/cache/store.go:144-176 | the live identifiers newest first with their embeddings, and exactly the others as stale |
| `CacheLookup.ReachesIff` | internal/cache/lookup.go:135-150 | some loaded vector is near enough if and only if some live member of the bucket is |
| `CacheLookup.BestIsNearest` | internal/cache/lookup.go:112-181 | the chosen identifier has the nearest embedding of all live members of the bucket |
| `CacheLookup.ZRemovePrefix` | internal/cache/store.go:259-275 | removing the oldest members leaves exactly the newest, in order |
| `CacheLookup.ScopesStayTidy` | internal/cache/store.go:218-241 | every command keeps a tenant's index free of duplicates and ordered by age |
| `CacheLookup.Cache.Fetch` | internal/cache/store.go:94-111 | found, missing and undecodable, each if and only if |
| `CacheLookup.Cache.PutEntry` | internal/cache/store.go:194-212 | the entry is written; its bucket is what it was with the entry listed under its age, trimmed to its newest members |
| `CacheLookup.Cache.PutTenant` | internal/cache/store.go:213-232 | the tenant's indexes learn of it and no bucket changes |
| `CacheLookup.Cache.Put` | internal/cache/store.go:185-241 | the pipeline runs in order; the bucket lists the entry and is trimmed to its newest members, bucket and tenant end within their caps; the response can be read afterwards if and only if it is not among the tenant's oldest over the cap, and the newest never is |
| `CacheLookup.Cache.TrimScope` | internal/cache/store.go:259-275 | exactly the oldest entries over the cap are deleted, from the entries and from the tenant's index |
| `CacheLookup.Cache.Candidates` | internal/cache/store.go:116-140 | the newest live members of the bucket as read, with embeddings as read later; exactly the others are pruned from the bucket |
| `CacheLookup.Cache.Choose` | internal/cache/lookup.go:135-150 | a candidate is chosen if and only if some live one is near enough, and then the nearest |
| `CacheLookup.Cache.FetchChosen` | internal/cache/lookup.go:151-161 | what is under the chosen identifier by then is served, and was stored for the same tenant and context |
| `CacheLookup.Cache.Semantic` | internal/cache/lookup.go:127-161 | if its reads succeed and some live candidate is near enough, it serves the nearest one's entry unless that is gone by then, and otherwise nothing; what it serves was stored for the same tenant and context, whatever others did in between |
| `CacheLookup.Cache.Lookup` | internal/cache/lookup.go:112-161 | exactly what is answered: the entry under the request's own key, a miss on a remnant there, else the semantic tier; whatever either tier serves, in any run of stores, trims, purges and expiries, was stored for the same tenant and context |
| `CacheLookup.Cache.RemnantHidesBucket` | internal/cache/lookup.go:112-124 | while a remnant is under the request's key every lookup of it misses, for every vector and threshold |
| `CacheListing.HoldsIff` | internal/cache/store.go:185-287 | after every sequence of commands an entry can be read if and only if some command wrote it and none has since overwritten, deleted or expired it |
| `CacheListing.ListedIff` | internal/cache/store.go:116-241 | after every sequence of commands a bucket lists exactly the identifiers, with their ages, that some command put there and none has since replaced, trimmed, pruned or dropped |
| `CacheListing.BucketsAreTidy` | internal/cache/store.go:194-212 | after every sequence of commands a bucket lists an identifier once, oldest first |
| `CacheListing.KeepsTheNewest` | internal/cache/store.go:205-212 | a trim keeps as many members as it may, and none it drops is newer than one it keeps |
| `CacheListing.AddIff` | internal/cache/store.go:194-232 | listing an identifier replaces what was listed under it and keeps everything else |
| `CacheListing.ScopeStep` | internal/cache/store.go:213-275 | what each command does to a tenant's index, member by member |
| `CacheListing.TeamStep` | internal/cache/store.go:213-232 | what each command does to a team's index, member by member |
| `CacheListing.StoreThenLookup` | internal/cache/lookup.go:112-124 | the newest response of a tenant, once stored, answers its own request for as long as nothing touches it, whatever others do |
| `CacheListing.StoreThenParaphrase` | internal/cache/lookup.go:127-161 | and answers any other request of its bucket that is near enough, unless the bucket holds an answer that is nearer still |
| `VectorCodec.VectorRoundTrip` | internal/cache/store.go:293-307 | every vector is unpacked as it was packed |
| `VectorCodec.BytesRoundTrip` | internal/cache/store.go:293-307 | every byte string is kept up to its last whole component |
| `VectorCodec.LeastSignificantFirst` | internal/cache/store.go:293-299 | the four bytes of a component are its base-256 digits, least significant first |
| `VectorCodec.Pack` | internal/cache/store.go:293-299 | the loop fills the buffer with the packed form |
| `VectorCodec.Unpack` | internal/cache/store.go:301-307 | the loop fills the vector with the unpacked form |
| `Sessions.RunIsChained` | internal/identity/session.go:57-158 | over every run identifiers and hashes stay unique, rotated implies revoked, the successor is a later session of the same user, and no session succeeds two |
| `Sessions.ExchangedAtMostOnce` | internal/identity/session.go:83-146 | once a token has been exchanged, even if its holder saw an error, no later attempt exchanges it: each is a replay |
| `Sessions.ExchangeNeedsALiveSession` | internal/identity/session.go:83-146 | a token is exchanged if and only if a live, unexpired session has its hash and the new identifier and hash are free; the user stays the same |
| `Sessions.RotateOutcomes` | internal/identity/session.go:83-146 | each answer to a presented token, if and only if: unknown, spent, expired, or exchanged under the given name |
| `Sessions.LoginIff` | internal/identity/session.go:57-79 | a login is issued if and only if the user is known and neither identifier nor hash is taken; then exactly its row is added, and otherwise nothing changes |
| `Sessions.NewTokenWorks` | internal/identity/session.go:57-146 | a token just handed out by a login or an exchange is exchanged under free names if and only if it has not expired |
| `Sessions.RevokedExactlyBy` | internal/identity/session.go:83-158 | a live session is ended if and only if it is logged out, exchanged, or a spent token of its user is presented; nothing else about it ever changes but the link to its successor |
| `Sessions.TokenWorksUntilEnded` | internal/identity/session.go:57-158 | over every run, every token handed out can be exchanged exactly until it expires, for as long as none of these has happened to its session |
| `Sessions.LogoutSpends` | internal/identity/session.go:150-158 | a logout that is not lost spends its token and leaves every other session as it was |
| `Sessions.LoggedOutForGood` | internal/identity/session.go:150-158 | over every run, a token that has been logged out is never exchanged again: each attempt is a replay |
| `Sessions.ReplayRevokesTheUser` | internal/identity/session.go:110-123 | presenting a spent token leaves that user without a live session and touches nobody else |
| `Sessions.ReplayEndsEverySession` | internal/identity/session.go:110-123 | after a committed replay, told or not, no token that user had been given can ever be exchanged |
| `Sessions.LiveAtMostLogins` | internal/identity/session.go:57-158 | a user never has more live sessions than logins |
| `Sessions.OneLiveSessionPerLogin` | internal/identity/session.go:128-136 | of all sessions that descend from one login at most the newest is live |
| `Sessions.InsertedIffUnique` | internal/identity/session.go:61-79 | a new row is refused if and only if it would repeat an identifier or a hash; a row that is taken keeps the table chained, is where its token leads, and is one more live session |
| `Sessions.SessionStore.Create` | internal/identity/session.go:57-59 | refines the login transaction for each fate of the commit |
| `Sessions.SessionStore.Rotate` | internal/identity/session.go:83-146 | refines the exchange transaction for each fate of the commit |
| `Sessions.SessionStore.Revoke` | internal/identity/session.go:150-158 | refines the logout transaction the lemmas above are about, for each fate of the commit; an unknown token is no error |
| `Retention.BatchConserves` | internal/logstore/retention.go:28-68 | a batch changes no total of any column, over the whole log, any group, or any team from any day on |
| `Retention.GroupedRow` | internal/logstore/retention.go:38-64 | a row adds to every column of every part of the log the same once grouped as it does on its own: its day, team, provider and model decide which, its status whether it is an error |
| `Retention.NothingIsLost` | internal/logstore/retention.go:28-68 | over every run of writes and batches the two tables together hold, in every column and every part of the log, what the accepted requests themselves add up to |
| `Retention.MergeUnique` | internal/logstore/retention.go:38-64 | the upsert keeps one row per day, team, provider and model |
| `Retention.BatchDrift` | internal/logstore/query.go:192-199 | a batch changes a team's spend since a moment by exactly the rolled-up cost from earlier that day |
| `Retention.SpendIsExact` | internal/logstore/query.go:192-199 | over every run of writes and batches the spend is all that was ever logged since then plus what was rolled up from earlier that day |
| `Retention.SpendIsUnchangedByRetention` | internal/logstore/query.go:192-199 | from the start of a day it is exactly what was logged, whatever was rolled up |
| `Retention.UnalignedSpendDrifts` | internal/logstore/query.go:192-199 | from any other moment, a run in which it is not |
| `Retention.ExactIffStartOfDay` | internal/logstore/query.go:192-199 | the spend is exact over all runs if and only if the moment starts a day |
| `Retention.Doomed` | internal/logstore/retention.go:29-37 | a batch is the oldest expired rows: as many as the limit allows, or all |
| `Retention.RequestLog.Insert` | internal/logstore/writer.go:16-23 | a row whose identifier is present is ignored, any other is added |
| `Retention.RequestLog.SweepBatch` | internal/logstore/retention.go:28-68 | rolls up and deletes one such batch, keeps both keys unique, counts what it removed |
| `Retention.RequestLog.Sweep` | internal/logstore/retention.go:141-186 | no connection and no answer about the lock are errors, a lock held elsewhere is not, and all leave the log alone; with rows arriving before any batch it keeps every total and every row not yet expired; the count is what was removed unless it failed; without an error it leaves nothing expired or has used all its batches |
| `Retention.RequestLog.SpendByTeamSince` | internal/logstore/query.go:192-220 | the loop fills in exactly the teams with a row since then, each with its spend across both tables |
| `Ring.Buffer.Append` | internal/health/status.go:159-168 | the buffer goes on holding the last hundred of everything recorded |
| `Ring.Buffer.Recent` | internal/health/status.go:172-182 | the last hundred of everything recorded, newest first |
| `Ring.Buffer.Last` | internal/health/status.go:185-194 | the newest entry, if there is one |
| `Ring.Buffer.SlotOrder` | internal/health/passive.go:42-51 | read in storage order the slots are a rotation of the last hundred entries |
| `HealthWindow.DescribesIsUnique` | internal/health/passive.go:65-102 | count, rates and p99 as an order statistic determine the statistics |
| `HealthWindow.CountIsCardinality` | internal/health/passive.go:65-89 | what is counted are the samples at most a minute old for which the answer is yes, each once |
| `HealthWindow.SortedGivesP99` | internal/health/passive.go:90-101 | the entry at the computed index of the sorted latencies is that order statistic |
| `HealthWindow.Compute` | internal/health/passive.go:65-102 | the loop and the sort compute the statistics of the samples no older than a minute |
| `HealthWindow.WindowStats` | internal/health/passive.go:65-102 | the statistics are those of the last hundred samples no older than a minute |
| `HealthMonitor.VerdictIff` | internal/health/status.go:362-392 | over every run each verdict if and only if: Down on enough failed pings in a row or a hard error rate, else Degraded on an open breaker, a raised error rate or three times the smoothed latency, else Healthy |
| `HealthMonitor.ReasonIff` | internal/health/status.go:362-392 | over every run each recorded reason if and only if it is the first that applies |
| `HealthMonitor.RunRemembers` | internal/health/status.go:495-505 | over every run the failure counter is the number of pings failed in a row, and the baseline the first latency read with every later one smoothed in by a fifth |
| `HealthMonitor.ChangesAreReported` | internal/health/status.go:435-457 | a transition is recorded if and only if the status changed, with its moment, both statuses and its reason |
| `HealthMonitor.VerdictTakesEffect` | internal/health/status.go:406-430 | a verdict other than Healthy takes effect at once; a Healthy one with a failed ping changes nothing |
| `HealthMonitor.RecoversExactlyAfterStreak` | internal/health/status.go:406-430 | an unhealthy provider turns Healthy if and only if the last RecoveryStreak evaluations all found it unhealthy and clean |
| `HealthMonitor.StreakIsCleanTail` | internal/health/status.go:406-430 | in every run the counter counts evaluations at the end of the run that were all clean |
| `HealthMonitor.RecoveriesAreSparse` | internal/health/status.go:406-430 | recoveries times RecoveryStreak never exceed the evaluations made |
| `HealthMonitor.LogIsLinked` | internal/health/status.go:435-457 | each transition starts where the one before ended, and the last one ended at the current status |
| `HealthMonitor.TailReadsBackwards` | internal/health/status.go:172-182 | so do the retained ones, read newest first |
| `HealthMonitor.Monitor.constructor` | internal/health/status.go:247-305 | starts at the restored status, or Healthy |
| `HealthMonitor.Monitor.SetStatus` | internal/health/status.go:435-457 | records the change with its time and reason |
| `HealthMonitor.Monitor.Transit` | internal/health/status.go:406-430 | status, streak and log after a verdict |
| `HealthMonitor.Monitor.UpdateBaseline` | internal/health/status.go:495-505 | seeds the baseline with the first reading and smooths later ones into it |
| `HealthMonitor.Monitor.Judge` | internal/health/status.go:326-390 | refines one step of the run the lemmas above are about: counter, verdict, status, transition and baseline |
| `HealthMonitor.Monitor.Observe` | internal/health/status.go:326-356 | one more evaluation, of the statistics of the last hundred samples of the last minute |
| `HealthMonitor.Monitor.RecentTransitions` | internal/health/status.go:172-182 | the last hundred transitions newest first, linked, beginning at the current status |
| `HealthMonitor.Monitor.Record` | internal/health/passive.go:135-149 | adds one sample; only a failure can be a timeout |
| `TeamRegistry.Apply` | internal/auth/registry.go:149-180 | a patch is accepted if and only if all resulting limits are positive, and then sets exactly the limits it names |
| `TeamRegistry.StepKeepsAgreement` | internal/auth/registry.go:188-315 | every admin operation keeps the two indexes in step |
| `TeamRegistry.RunKeepsAgreement` | internal/auth/registry.go:188-315 | so does every sequence of them |
| `TeamRegistry.ResolveIsScan` | internal/auth/registry.go:87-101 | a hash resolves to a team if and only if a scan of the list finds that team under that non-empty hash |
| `TeamRegistry.KeysAfterUpdate` | internal/auth/registry.go:188-205 | after an update the team's key leads to the patched team, and every other key where it did |
| `TeamRegistry.KeysAfterRotation` | internal/auth/registry.go:223-249 | a rotation is done if and only if the team is known and the new key is nobody else's; then the new key leads to the team, the old one nowhere, all others where they did |
| `TeamRegistry.KeysAfterRevocation` | internal/auth/registry.go:255-273 | a revocation is done if and only if the team is known; then its key leads nowhere, the team stays listed, all other keys lead where they did |
| `TeamRegistry.KeysAfterAdding` | internal/auth/registry.go:278-297 | a team is added if and only if its identifier is free and its key nobody's; then its key leads to it and all others where they did |
| `TeamRegistry.KeysAfterRemoval` | internal/auth/registry.go:302-315 | a team is removed if and only if it is known; then its key leads nowhere and all others where they did |
| `TeamRegistry.DeadKeyStaysDead` | internal/auth/registry.go:188-315 | over every sequence of operations a key that leads nowhere does so until it is given to a team again |
| `TeamRegistry.LiveKeyStaysLive` | internal/auth/registry.go:188-315 | over every sequence of operations about other teams a key that works leads to the very same team |
| `TeamRegistry.BuildAgreesIff` | internal/auth/registry.go:62-84 | a built registry agrees if and only if no team with a key is followed by another of the same identifier |
| `TeamRegistry.AuthenticationIsScan` | internal/auth/registry.go:62-315 | over every sequence of operations from distinct identifiers, authentication equals the scan, and the team found is unique |
| `TeamRegistry.Registry.Load` | internal/auth/registry.go:62-84 | succeeds if and only if no two teams share a key, and then indexes them |
| `TeamRegistry.Registry.Authenticate` | internal/auth/registry.go:87-101 | returns a team exactly when the scan finds one, and then that one |
| `TeamRegistry.Registry.Get` | internal/auth/registry.go:118-127 | the listed team of that identifier, exactly when there is one |
| `TeamRegistry.Registry.List` | internal/auth/registry.go:106-115 | every listed team exactly once |
| `TeamRegistry.Registry.Update` | internal/auth/registry.go:188-205 | refines the patch step, keeps agreement, changes no published team |
| `TeamRegistry.Registry.RotateKey` | internal/auth/registry.go:223-249 | refines the rotation step, keeps agreement, changes no published team |
| `TeamRegistry.Registry.RevokeKey` | internal/auth/registry.go:255-273 | refines the revocation step, keeps agreement, changes no published team |
| `TeamRegistry.Registry.Add` | internal/auth/registry.go:278-297 | refines the insertion step, keeps agreement, changes no published team |
| `TeamRegistry.Registry.Remove` | internal/auth/registry.go:302-315 | refines the removal step, keeps agreement, changes no published team |

## Left out

- HTTP handlers, middleware, streaming, telemetry and logging; provider adapters, OAuth, the embedding client and the quality judge.
- Configuration loading, hot-reload wiring, admin views, cost charts, chaos rules and the console.
- Scheduling inside a locked section: each method call, with the store call it makes, is one step.
- Separate clocks: replicas and Redis read one clock that never runs backwards, where the program uses its own clock and the one of Redis.
- SHA-256 itself: claims about cache keys assume that it does not collide on the inputs of the run at hand; sessions and the registry need no such assumption.
- Floating point: bucket levels, rates, similarities and the latency baseline are reals, and the p99 index is the exact quotient; stored vectors are bit patterns.
- int64 wrap-around of budget counters, log totals and timestamps; it is modelled for the cooldown and for the decimal text of integers.
- Time to live of keys as durations: expiry is a command or a parameter that may come at any moment, which only adds runs.
- The back-off delays of retries and their jitter, and the classifier that decides whether a prompt looks complex.
- Whitespace normalisation of queries, which is an arbitrary function here.
- Deleting users together with their sessions; no code path does it.
- BreakerFleet.OpenStopsTheFleet: takes the replica's own reads of the last cache lifetime to succeed, because a failed read sends it back to its own machine; the calls it excludes are exactly those of BreakerFleet.AdmitsWhileOpenIff.
- BreakerEpisodes.FleetHalfOpenAdmissions: counts from one cache lifetime after the episode began, because a replica with an older verdict admits without the slot, and takes reads since then to succeed and no reset to be lost, because either admits without the slot (BreakerEpisodes.AdmitsWithoutSlotIff); BreakerEpisodes.ProbesOfOneEpisode needs none of this.
- LeakedProbe.LeakedProbeBlocks: a breaker without a store, as in BreakerProbes.
- BudgetLedger.CapHolds: takes final costs within the estimate of an admitted candidate, and settlement writes that succeed, because the program makes no promise otherwise.
- CacheLookup.Cache.Put: states the caps for a pipeline and a trim that nobody interleaves; the program calls its cap soft.
- CacheLookup.Cache.TrimScope: members of equal age are in order of insertion, where Redis orders them by name.
- HealthMonitor.Monitor.Observe: one provider; a name that is not tracked is ignored by the program, and persisting the status to Redis is not modelled.
- Sessions.SessionStore.Rotate: transactions are serial; row locks and isolation levels are not modelled.
