# A verified model of GoGo-BE's protocols and cost engine

Two families of code are modelled, each branch by branch, and proved to keep what
it is for.

**Protocols.** Any number of processes, jobs or requests interleave on shared rows.
Each SQL statement or transaction is one atomic step, each `await` splits a method
in two, and a run is any sequence of steps.

- `WorkerLease` — acquire, renew and release on one expiring, owner-matched row per
  job, with local `held` flags that learn late. Tokens are fresh per acquisition.
- `Idempotency` — claim, take over, complete, release and purge replay records; the
  bounded claim loop runs with arbitrary interference between its statements. The
  purge's shape test is modelled in SQL's three truth values.
- `Periodic` — the worker's job runner: timers, ticks in flight, failure streaks, stop,
  and the exit of a process whose tick rejects, whatever throws.
- `UsageLedger`, `UsageLedgerService` — the buffered usage ledger: first its events
  and what every run keeps, then the running object whose count objects are mutated
  in place, each method tied to the event it performs.
- `ProviderBudget`, `Scheduler` — ceilings, call caps and backoff over every sequence
  of reservations and ticks.

**The cost engine.** Integer micros, Gregorian days, keyed groupings.

- `Calendar`, `ManualCost`, `ManualPlan`, `ManualMaterialise` — the billing calendar,
  the rows and schedule it plans, and the table rebuild.
- `Budget`, `SpendPrecedence`, `Reconciliation`, `CostCenter` — which rows are money,
  and the groupings that must agree on it.
- `Forecast`, `ForecastFloor`, `ForecastSchedule` — landed rows against scheduled
  charges; `RecurringLaws` — their recurring half for rows of any source;
  `MaterialisedMonth` — the rebuilt table read back for them.
- `Pricing`, `Estimator`, `EstimateLaws`, `AllowanceLaws` — list prices by model, what
  each estimated row charges, free allowances consumed in order of days, and recomputing
  from a cut history.

Two scripts follow: `ContractGate` (one recorded exception admits one breaking
change) and `HistogramQuantile`. `Wrappers`, `Sums`, `Sorting` and `CostSources` hold
what the modules share.

Code that loops or updates fields is a method or a class here, and its `ensures` ties
it to a function or an event; the lemmas are about those. Main results quantify over
every input, every run and every reachable state.

Assumptions: one monotone clock, read by the database and by every process; job names
and collector ids are distinct; a statement either applies and answers or does
neither, except that a completion's answer may be lost; holder tokens never repeat; at
most one scheduler ticks at a time.

## What the proofs found

Each of these is a promise the code keeps only under a condition; the condition is
proved exact where an "if and only if" is stated in the table.

- `nextChargeDay` searches a bounded horizon, which its comment calls always enough.
  It answers null for a recurring item that starts past the horizon
  (`ManualCost.NextChargeExact`, `ManualCost.LateStartReportsNone`).
- `materialise` leaves exactly the planned rows only if no row under a kept source,
  service and day differs in operation, metric, SKU or basis
  (`ManualMaterialise.MaterialiseExact`, `ManualMaterialise.IntruderStays`).
- A key commits at most once a day unless a completed record is purged as unversioned,
  which is the only step that frees one; a rollout that mixes versions does that
  (`Idempotency.CommittedADayApart`, `Idempotency.OnlyPurgeFreesCompleted`,
  `Idempotency.RolloutCommitsTwice`).
- A superseded claimant can touch its successor's row only when both claims carry the
  same millisecond; with a purge, or a claim statement delayed by a day, it does
  (`Idempotency.StaleTouchesOnlySameMillisecond`, `Idempotency.LateReleaseDeletesSuccessor`,
  `Idempotency.LateCompletionTakesSuccessor`).
- The versioned-replay comment says any other shape under the key is purged and the
  request executes. A stored null, or an object with a body whose `v` is missing,
  null or textual, leaves the purge's condition unknown or false: such a record is
  neither replayed nor purged, and its key answers 409 until it expires
  (`Idempotency.PurgeMissesExactly`, `Idempotency.StuckUntilExpiry`). A versioned route
  whose handler returns nothing stores a record that the purge does match, so a retry
  executes again (`Idempotency.ReplayReturnsFirstAnswer`).
- Two workers report the same job held while one of them is overdue
  (`WorkerLease.LateRenewalLetsTwoHold`).
- A job body can start after `stop` was called, if its tick was waiting for the lock;
  `stop` waits for it (`Periodic.RunStartsAfterStop`).
- A tick is not awaited, so a metric call that throws out of it ends the worker; of the
  things a tick calls only the metrics can do that (`Periodic.OnlyMetricsEndIt`,
  `Periodic.RunRejectsExactly`, `Periodic.SkipRejectsExactly`, `Periodic.ExitExactly`).
- `drain` says the last error propagates: the first refused write already throws, so
  the pass budget only bounds a drain that increments keep refilling
  (`UsageLedgerService.DbUsageLedger.Drain`).
- The scheduler keeps a collector's trust window in rounded seconds; a status stored
  after a failure is the window's own only for whole seconds
  (`Scheduler.StoredWindowExactly`). A failure that cannot be written is not counted,
  and its throw ends the tick for the collectors behind it
  (`Scheduler.StepKeepsExactly`, `Scheduler.UnwrittenFailureRepeats`,
  `Scheduler.TickIsolates`).
- A reservation is priced on its own, so a rising tier lets a row reserve less than its
  units list at together (`ProviderBudget.CostedExactly`,
  `ProviderBudget.RisingTierUndercounts`).
- The ledger's comment gives an unregistered operation `calls` under its prefix's
  service; one that matches no prefix has no meter row at all (`UsageLedger.TablesAgree`).
- The contract gate takes the first exception that fits, so it may refuse findings that
  a different assignment would admit (`ContractGate.OrderCanRefuse`,
  `ContractGate.PartitionedExactly`).

## Model

| member | source | states |
|---|---|---|
| `WorkerLease.OwnershipIntervalsDisjoint` | libs/database/src/worker-lease.ts:75-103 | over any run of any number of holders, with crashes, late renewals and late releases: a token that owns a job at two moments owns it at every moment between, and no other token does |
| `WorkerLease.NeverReturns` | libs/database/src/worker-lease.ts:69-103 | a token that does not own a job, after it asked for it, never owns it again |
| `WorkerLease.LostForever` | libs/database/src/worker-lease.ts:87-103 | once a token has lost its job, its renewals and releases leave the table unchanged for the rest of the run |
| `WorkerLease.HeldOwnsUntilOverdue` | libs/database/src/worker-lease.ts:129-167 | in every reachable state a token that reports `isHeld()` owns the row if and only if its TTL has not run out since its last extension |
| `WorkerLease.TwoHeldMeansOverdue` | libs/database/src/worker-lease.ts:129-167 | two different tokens report held for one job only while one of them is overdue |
| `WorkerLease.AtMostOneHeld` | libs/database/src/worker-lease.ts:35-54 | in a run where no holder is ever overdue, at most one token per job reports held |
| `WorkerLease.LateRenewalLetsTwoHold` | libs/database/src/worker-lease.ts:139-159 | a concrete run without that: a holder that sleeps through its TTL and its successor both report held |
| `WorkerLease.HeldUntilLetGo` | libs/database/src/worker-lease.ts:131-171 | in every run a held token is still held at a later moment if and only if no renewal of it was answered without a row or not at all, and it asked for no release; once it is not, it never is again |
| `WorkerLease.AcquireTakesFreeJob` | libs/database/src/worker-lease.ts:75-85 | a fresh acquisition owns the job afterwards if and only if no unexpired lease stood |
| `WorkerLease.ReleaseFrees` | libs/database/src/worker-lease.ts:99-103 | the release of a token that owns its job frees it at once; any other changes nothing |
| `WorkerLease.CrashBlocksOneTtl` | libs/database/src/worker-lease.ts:16-22 | in every reachable state the row has a known holder, and it is free again one TTL after that holder last extended it |
| `WorkerLease.LeaseTable.Acquire` | libs/database/src/worker-lease.ts:75-85 | inserts or takes over exactly an absent or expired row, and answers a row exactly then |
| `WorkerLease.LeaseTable.Renew` | libs/database/src/worker-lease.ts:88-93 | extends exactly a row of this holder that has not expired |
| `WorkerLease.LeaseTable.Release` | libs/database/src/worker-lease.ts:99-103 | expires, and does not delete, exactly a row of this holder that has not expired |
| `WorkerLease.HeldLease.BeginRenewal` | libs/database/src/worker-lease.ts:139-147 | a fired timer sends a renewal exactly while held |
| `WorkerLease.HeldLease.FinishRenewal` | libs/database/src/worker-lease.ts:131-158 | an answer without a row, or no answer, leaves a lease that is not held and whose timer is cleared; one that was held is aborted and reported, once; an answer with a row changes nothing |
| `WorkerLease.HeldLease.BeginRelease` | libs/database/src/worker-lease.ts:166-171 | stops the timer and sends a release only if the lease was still held |
| `WorkerLease.HeldLease.FinishRelease` | libs/database/src/worker-lease.ts:171-177 | a release that fails is reported, and is no more than that |
| `WorkerLease.TryAcquire` | libs/database/src/worker-lease.ts:116-180 | null exactly when someone holds an unexpired lease; otherwise a fresh held lease whose token owns the row |
| `Idempotency.CommittedADayApart` | libs/modules/shared/idempotency.interceptor.ts:151-279 | at most once a day, over any interleaving of claims, takeovers, completions, releases, expiry and purges by instances of any versions: two mutations that committed under one key have claims at least 24 hours apart, as long as no completed record of the key is purged as unversioned |
| `Idempotency.OnlyPurgeFreesCompleted` | libs/modules/shared/idempotency.interceptor.ts:185-238 | in every reachable state, a step other than the passing of time makes the key of a completed, unexpired record claimable if and only if it is a purge of that key whose shape test matches the stored body |
| `Idempotency.OneVersionNeverPurges` | libs/modules/shared/idempotency.interceptor.ts:216-238 | that never happens in a run whose instances agree on the version and whose versioned handlers return a body |
| `Idempotency.StaleTouchesOnlySameMillisecond` | libs/modules/shared/idempotency.interceptor.ts:247-279 | a claimant superseded on its key changes the table by its completion or its release if and only if it may still send that statement, its successor's claim carries the same millisecond and the successor is in flight |
| `Idempotency.OneStatementEach` | libs/modules/shared/idempotency.interceptor.ts:327-346 | in every run a claimant that has completed completes nothing more, and one that has released sends nothing more |
| `Idempotency.LateStatementsTouchNothing` | libs/modules/shared/idempotency.interceptor.ts:327-346 | in every run with claims sent within a day and no purged record, whatever a superseded claimant may still send, one completion and then one release, changes nothing |
| `Idempotency.LateReleaseDeletesSuccessor` | libs/modules/shared/idempotency.interceptor.ts:333-346 | a concrete run with a purge: the release that follows a lost answer deletes the row of a successor with the same millisecond |
| `Idempotency.LateCompletionTakesSuccessor` | libs/modules/shared/idempotency.interceptor.ts:160-186 | a concrete run whose claim statement ran a day late: the first claimant completes its successor's row |
| `Idempotency.RolloutCommitsTwice` | libs/modules/shared/idempotency.interceptor.ts:54-66 | a concrete run: an unversioned record left by another instance is purged and the mutation commits again within a millisecond |
| `Idempotency.ReplayReturnsFirstAnswer` | libs/modules/shared/idempotency.interceptor.ts:315-351 | a completed record answers its retry with the first status and body exactly when the route is unversioned or its handler returned a body; otherwise the purge matches it |
| `Idempotency.RetryFollowsFirst` | libs/modules/shared/idempotency.interceptor.ts:281-288 | first request, completion and retry: within 24 hours a retry gets the first answer and another body is refused; after that, or after a release, the key is claimed anew |
| `Idempotency.PurgeMissesExactly` | libs/modules/shared/idempotency.interceptor.ts:220-238 | of the bodies that are not replayed as versioned, the SQL purge misses exactly: no body, or an object with a body whose `v` is missing, null or textual |
| `Idempotency.VersionedIsKept` | libs/modules/shared/idempotency.interceptor.ts:89-93 | the purge never matches a record the route would replay |
| `Idempotency.LegacyIsAdopted` | libs/modules/shared/idempotency.interceptor.ts:228-237 | a legacy record that is adopted answers this call and every later one before expiry with its status and the adopted body |
| `Idempotency.AdoptedIsReplayed` | libs/modules/shared/idempotency.interceptor.ts:220-237 | an adopted legacy record is replayed with the adopted body and the first status, keeps its claim and expiry, and is never purged or adopted again |
| `Idempotency.StuckExactly` | libs/modules/shared/idempotency.interceptor.ts:216-244 | alone, a call ends in a retryable 409 if and only if the key's record is unexpired, completed, of the same request, not adopted, and its body is none of the shapes that are replayed or purged, in terms of the stored body |
| `Idempotency.StuckUntilExpiry` | libs/modules/shared/idempotency.interceptor.ts:242-244 | then every later call before expiry gets that same 409 and leaves the table unchanged, and the first one at or after expiry claims the key |
| `Idempotency.IdempotencyTable.Begin` | libs/modules/shared/idempotency.interceptor.ts:151-245 | whatever others do between its statements, execution is granted only with the claim just installed; every other answer is the one the last row read calls for; alone, it is a function of the table |
| `Idempotency.IdempotencyTable.InsertOrTakeOver` | libs/modules/shared/idempotency.interceptor.ts:163-188 | claims exactly an absent or expired row |
| `Idempotency.IdempotencyTable.Release` | libs/modules/shared/idempotency.interceptor.ts:247-257 | deletes exactly its own row while it is in flight |
| `Idempotency.IdempotencyTable.CompleteWithin` | libs/modules/shared/idempotency.interceptor.ts:267-279 | completes exactly its own row while it is in flight, and says whether it did |
| `Idempotency.IdempotencyTable.PurgeExpiredKeys` | libs/modules/shared/privacy-jobs.ts:97-102 | deletes exactly the rows past their expiry |
| `Periodic.AlwaysPlaced` | apps/worker/src/periodic.ts:142-236 | in every run, whatever the lock, the job, the reporter, the release or the metrics throw: each job is in exactly one of timer pending, in flight or stopped |
| `Periodic.OnlyMetricsEndIt` | apps/worker/src/periodic.ts:128-224 | in every run in which no metric call throws, no tick ever rejects: the lock, the job, the reporter and the release cannot end the process |
| `Periodic.ExitExactly` | apps/worker/src/sentry.ts:31-52 | in every run the process is on its way out if and only if some tick has rejected, and unhandled rejections exit it |
| `Periodic.RunRejectsExactly` | apps/worker/src/periodic.ts:175-224 | the end of a run rejects its tick exactly when `observe` throws, or when the record in the catch does and the catch was entered by the job or by the try's own record; it leaves the lease unreleased exactly when `observe` throws, and always ends and reschedules the tick |
| `Periodic.SkipRejectsExactly` | apps/worker/src/periodic.ts:159-173 | a tick without a lease rejects exactly when its `lock_skipped` record throws |
| `Periodic.TicksNeverOverlap` | apps/worker/src/periodic.ts:155-224 | in the log of any run, between two tick starts of one job there is its tick end |
| `Periodic.OneCapturePerStreak` | apps/worker/src/periodic.ts:100-140 | in the log of any run, between two error captures of one job there is a run of it that ended well with the lease held |
| `Periodic.FailureIsCaptured` | apps/worker/src/periodic.ts:131-197 | in every run a job that throws with its lease held and a lock that cannot be reached leave a capture later than the job's last good run, and make it themselves, once, exactly if no capture has followed that run |
| `Periodic.LoggedExactly` | apps/worker/src/periodic.ts:142-233 | in every run each event starts, runs, reports and ends exactly what the log before it and the tick's stage call for |
| `Periodic.StopIsFinal` | apps/worker/src/periodic.ts:228-235 | after `stop` no tick starts, nothing enters flight, no timer returns, and a job runs only if its tick was already waiting for the lock |
| `Periodic.RunStartsAfterStop` | apps/worker/src/periodic.ts:157-176 | a concrete run: a job body starts after `stop`, because its tick was waiting for the lock |
| `Periodic.LeasesAreReleased` | apps/worker/src/periodic.ts:201-212 | in every run, until a tick rejects, a lease is held exactly while its job runs |
| `Periodic.PeriodicRunner.constructor` | apps/worker/src/periodic.ts:122-153 | every job is on a timer and nothing else has happened |
| `Periodic.PeriodicRunner.Tick` | apps/worker/src/periodic.ts:155-158 | a fired timer starts a tick exactly when the runner is not stopping and the job not in flight |
| `Periodic.PeriodicRunner.LockAnswered` | apps/worker/src/periodic.ts:159-173 | runs the job, or ends the tick, with an unreachable lock reported as a failure |
| `Periodic.PeriodicRunner.JobEnded` | apps/worker/src/periodic.ts:175-213 | judges the run by whether it threw and whether the lease is still held, through every combination of throwing metrics, and ends or leaves to its release a tick that will reject |
| `Periodic.PeriodicRunner.ReleaseSettled` | apps/worker/src/periodic.ts:207-223 | ends the tick whether or not the release failed, schedules the next unless stopping, and rejects if the body had thrown |
| `Periodic.PeriodicRunner.StopAll` | apps/worker/src/periodic.ts:229-232 | clears every timer and stops scheduling |
| `UsageLedger.LedgerConserves` | libs/cost-observability/application/usage-ledger.ts:105-121 | after any run of increments, flushes, committed and failed writes, persisted plus in-flight plus buffered counts of a slot equal what its increments add up to |
| `UsageLedger.CountsConserved` | libs/cost-observability/application/usage-ledger.ts:100-180 | attempts, successes and units each on its own: persisted plus in flight plus buffered is what the run recorded |
| `UsageLedger.CountedIsWorth` | libs/cost-observability/application/usage-ledger.ts:92-121 | what the branches of `increment` add is what a positive request or unit count is worth to its slot, and nothing else is worth anything |
| `UsageLedger.SucceededWithinAttempted` | libs/cost-observability/application/usage-ledger.ts:111-114 | in the table, in flight and in the buffer, successes never exceed attempts |
| `UsageLedger.TablesAgree` | libs/cost-observability/application/usage-ledger.ts:214-257 | after any run the `calls` meter of a registered operation equals its attempted calls and its billable meter its units; no other operation has a meter row |
| `UsageLedger.MeterRowsExact` | libs/cost-observability/application/usage-ledger.ts:318-362 | the meter rows of a slot are exactly its attempts under the calls meter, and its units under the billable one, of its own service |
| `UsageLedger.FlushRowsDistinct` | libs/cost-observability/application/usage-ledger.ts:318-357 | one flush never proposes two meter rows under one conflict key |
| `UsageLedger.PostRowsIsPost` | libs/cost-observability/application/usage-ledger.ts:239-250 | upserting the flattened meter rows one by one leaves the table the slot-by-slot definition gives |
| `UsageLedger.TwoPassesEmpty` | libs/cost-observability/application/usage-ledger.ts:168-174 | two flushes whose writes succeed leave nothing buffered or in flight; one does exactly when none was in flight or nothing had been buffered behind it |
| `UsageLedger.PassesConserve` | libs/cost-observability/application/usage-ledger.ts:168-191 | flushes, whatever their writes do, neither lose nor double a count |
| `UsageLedgerService.DbUsageLedger.Increment` | libs/cost-observability/application/usage-ledger.ts:105-121 | adds to one count object of the live buffer, never to an object a flush in flight owns |
| `UsageLedgerService.DbUsageLedger.BeginFlush` | libs/cost-observability/application/usage-ledger.ts:193-220 | drains the whole buffer and builds both statements from what it drained |
| `UsageLedgerService.DbUsageLedger.FinishFlush` | libs/cost-observability/application/usage-ledger.ts:222-281 | posts both tables or puts every drained count back into the buffer as it then stands |
| `UsageLedgerService.DbUsageLedger.Flush` | libs/cost-observability/application/usage-ledger.ts:183-191 | joins the flush in flight or runs one, and throws exactly when a write that carried counts is refused |
| `UsageLedgerService.DbUsageLedger.Drain` | libs/cost-observability/application/usage-ledger.ts:168-174 | stops at the first empty buffer, the first refused write or the pass budget; with no refused write it empties the buffer within two passes |
| `UsageLedgerService.DbUsageLedger.Stop` | libs/cost-observability/application/usage-ledger.ts:143-149 | with no refused write, everything ever recorded is in the table |
| `ProviderBudget.CeilingsHold` | libs/cost-observability/application/provider-budget.service.ts:116-189 | over any sequence of reservations with fixed ceilings per scope, a scope-day's calls, cost and units per operation never pass them, and an unconfigured scope or operation reserves nothing |
| `ProviderBudget.GrantedExactly` | libs/cost-observability/application/provider-budget.service.ts:124-169 | a reservation is granted if and only if every ceiling is configured, the price is known and the table with it still fits |
| `ProviderBudget.RefusedExactly` | libs/cost-observability/application/provider-budget.service.ts:116-189 | the refusal named is the first that applies of configuration, price, calls, units and cost; a grant reports the totals it leaves |
| `ProviderBudget.ListCostExact` | libs/cost-observability/application/provider-budget.service.ts:130-133 | the cost reserved is the price at list of the units asked for |
| `ProviderBudget.TotalsNeverFall` | libs/cost-observability/application/provider-budget.service.ts:45-47 | a refusal changes nothing and no total ever falls |
| `ProviderBudget.ReservedCoversListPrice` | libs/cost-observability/application/provider-budget.service.ts:130-133 | over any sequence of reservations under any price list: every row whose operation and day have prices that splitting a purchase does not lower has reserved at least the list price of all its units |
| `ProviderBudget.CostedExactly` | libs/cost-observability/application/provider-budget.service.ts:130-175 | for an operation and day, the rows cover their list price whatever is reserved if and only if no quantity lists for more than it does in two purchases |
| `ProviderBudget.RulesAreSubadditive` | libs/cost-observability/pricing/pricing-rules.ts:128-169 | every pricing rule meets that, other than a tiered one whose prices rise or whose tiers are not well formed |
| `ProviderBudget.RisingTierUndercounts` | libs/cost-observability/pricing/pricing-rules.ts:132-148 | a rising tier does not: two reservations of a free first unit leave a row of two units at no cost, which lists at 10 |
| `ProviderBudget.ProviderBudgetService.ReserveCall` | libs/cost-observability/application/provider-budget.service.ts:116-189 | answers as `GrantedExactly` says, the first failing test naming the refusal, and writes exactly a grant |
| `Scheduler.GuardrailsHold` | libs/cost-observability/application/collector-scheduler.service.ts:128-239 | over any sequence of ticks with a monotone clock, as long as no run of the collector gave up unwritten: a run comes at least 1, 2, 4 or 8 times the frequency after the one before it, for none, one, two or more failures in a row; its calls in a UTC day are at most its cap minus one plus one run's attempts; and its row says when it last succeeded and was last called, how many failed and today's calls |
| `Scheduler.RunsWhenDue` | libs/cost-observability/application/collector-scheduler.service.ts:145-180 | after any such sequence, the next tick that no write aborts runs the collector once if that time has passed, it is enabled, within budget and below its cap, and not at all otherwise |
| `Scheduler.SkipsExactly` | libs/cost-observability/application/collector-scheduler.service.ts:145-177 | which skip is named, and that a skip makes no call and changes no row but a paused one |
| `Scheduler.RunEndsExactly` | libs/cost-observability/application/collector-scheduler.service.ts:182-239 | a run calls until an attempt is stored or times out or its attempts are spent; the last one decides the outcome and the error code |
| `Scheduler.CallsNeverFall` | libs/cost-observability/application/collector-scheduler.service.ts:266-336 | within one day the stored number of calls never falls |
| `Scheduler.PauseKeepsFacts` | libs/cost-observability/application/collector-scheduler.service.ts:338-353 | a budget pause moves only the label, to stale, unless nothing is known |
| `Scheduler.StepKeepsExactly` | libs/cost-observability/application/collector-scheduler.service.ts:145-239 | one step keeps that, and the row's memory of its runs, if and only if it is not a run that gave up and whose failure row could not be written |
| `Scheduler.TickIsolates` | libs/cost-observability/application/collector-scheduler.service.ts:145-180 | a tick leaves each collector as its own step would, whatever the others do, unless an earlier write threw, which leaves it untouched |
| `Scheduler.ResultsExact` | libs/cost-observability/application/collector-scheduler.service.ts:143-180 | a tick reports every collector in order by its own step's outcome, up to a write that throws |
| `Scheduler.StoredStatusIsFreshness` | libs/cost-observability/application/collector-scheduler.service.ts:254-336 | the status a run stores is the domain status of the stored facts at that moment |
| `Scheduler.StoredWindowExactly` | libs/cost-observability/application/collector-scheduler.service.ts:318-330 | a failure's stored status is the one the collector's own trust window gives, for every last success, if and only if that window is a whole number of seconds |
| `Scheduler.OverBudgetRunsOnlyFree` | libs/cost-observability/application/collector-scheduler.service.ts:161-166 | over any sequence of ticks, every run made in a tick over budget is of an essential collector, which costs nothing |
| `Scheduler.KnownCostExact` | libs/cost-observability/domain/collector.ts:100-116 | only an enabled collector with a price counts towards the budget, at its price |
| `Scheduler.UnwrittenFailureRepeats` | libs/cost-observability/application/collector-scheduler.service.ts:221-222 | a failure that cannot be written is not counted: the collector is called again at once |
| `Scheduler.CollectorScheduler.Register` | libs/cost-observability/application/collector-scheduler.service.ts:90-109 | accepts exactly a declared collector with a new id that is free if it is essential |
| `Scheduler.CollectorScheduler.KnownMonthlyMicros` | libs/cost-observability/domain/collector.ts:100-116 | sums the known monthly cost of the enabled collectors |
| `Scheduler.CollectorScheduler.RunOne` | libs/cost-observability/application/collector-scheduler.service.ts:182-239 | the calls made, the outcome and the row left, for every way the attempts and the write can go |
| `Scheduler.CollectorScheduler.TickAll` | libs/cost-observability/application/collector-scheduler.service.ts:128-180 | the rows and results `TickIsolates` and `GuardrailsHold` are about, for one tick over every collector |
| `ManualCost.ChargeDaysExact` | libs/cost-observability/domain/manual-cost.ts:126-154 | `chargeDays` is strictly increasing and holds exactly the clamped anchors inside the range and the effective range |
| `ManualCost.ChargeDaysAdditive` | libs/cost-observability/domain/manual-cost.ts:126-154 | the charge days of [a, c] are those of [a, b] followed by those of [b+1, c] |
| `ManualCost.OneChargeAMonth` | libs/cost-observability/domain/manual-cost.ts:25-32 | no item is billed twice in one month |
| `ManualCost.NextChargeExact` | libs/cost-observability/domain/manual-cost.ts:157-166 | the bounded search answers the least charge day on or after today, or null when there is none, if and only if the item does not start past the horizon and ever charge |
| `ManualCost.LateStartReportsNone` | libs/cost-observability/domain/manual-cost.ts:163-165 | a monthly fee from 2027-01-01, asked on 2026-01-01: the code answers null although its first day is a charge |
| `ManualCost.ComputeChargeDays` | libs/cost-observability/domain/manual-cost.ts:126-154 | the month and year loops return, in order, exactly the days `ChargeDaysExact` characterises |
| `ManualCost.NextChargeDay` | libs/cost-observability/domain/manual-cost.ts:157-166 | returns the head of the charge days up to the horizon, the answer `NextChargeExact` judges |
| `Calendar.AddMonths` | libs/cost-observability/domain/manual-cost.ts:108-112 | month arithmetic with the year carried |
| `Calendar.AnchorDayInMonth` | libs/cost-observability/domain/manual-cost.ts:115-117 | the anchor day, clamped to the last day of a shorter month |
| `Calendar.AddDaysNumber` | libs/cost-observability/domain/manual-cost.ts:100-103 | adding n days moves the day number by n, across months, years and leap days |
| `Calendar.DayNumberOrder` | libs/cost-observability/domain/manual-cost.ts:126-136 | the order of days as text is the order of their day numbers |
| `ManualPlan.PlanRowsExact` | libs/cost-observability/domain/manual-cost.ts:202-249 | a row is planned if and only if it is a charge of one of the items due by today |
| `ManualPlan.PlannedRowSays` | libs/cost-observability/domain/manual-cost.ts:202-249 | and says its item's amount, kind, cadence and source |
| `ManualPlan.ScheduleExact` | libs/cost-observability/domain/manual-cost.ts:257-293 | the month's schedule holds exactly the items' charges of the month, each once, told apart by source |
| `ManualPlan.ScheduleTotal` | libs/cost-observability/domain/manual-cost.ts:257-293 | they add up to the month's manual money |
| `ManualPlan.ScheduleSays` | libs/cost-observability/domain/manual-cost.ts:257-293 | a charge is scheduled if and only if it says what some item is billed on a day of the month |
| `ManualPlan.CommitmentsExact` | libs/cost-observability/domain/manual-cost.ts:270-293 | the commitments are exactly the fees of the items active in the month |
| `ManualPlan.ActiveExactly` | libs/cost-observability/domain/manual-cost.ts:257-293 | an item is active in a month if and only if it is in force on some day of it |
| `ManualPlan.PlanManualCosts` | libs/cost-observability/domain/manual-cost.ts:232-249 | the rows `PlanRowsExact` characterises, and per item the days it may keep |
| `ManualPlan.ManualSchedule` | libs/cost-observability/domain/manual-cost.ts:257-294 | the sorted schedule `ScheduleExact` characterises, with the commitments in force |
| `ManualMaterialise.MaterialiseExact` | libs/cost-observability/application/manual-cost.service.ts:235-331 | one run leaves under the environment's manual sources exactly the planned rows with the planned values, and every other row untouched, if and only if the prior table held no row under a kept source, service and day with another operation, metric, SKU or basis |
| `ManualMaterialise.IntruderStays` | libs/cost-observability/application/manual-cost.service.ts:293-313 | a concrete such row, of a one-off item's day with an operation id, stays beside the planned one |
| `ManualMaterialise.RebuiltAt` | libs/cost-observability/application/manual-cost.service.ts:243-331 | what one run leaves at any key, from any prior table |
| `ManualMaterialise.PlannedRowsStand` | libs/cost-observability/application/manual-cost.service.ts:272-290 | every planned row is left with exactly the planned billing, and the confidence of the row it updates or HIGH |
| `ManualMaterialise.MaterialiseIdempotent` | libs/cost-observability/application/manual-cost.service.ts:241-242 | a second run with the same items and day leaves the table as it is, writes 0 and deletes 0 |
| `ManualMaterialise.WrittenExactly` | libs/cost-observability/application/manual-cost.service.ts:250-292 | `rowsWritten` is the number of planned rows that were missing or differed |
| `ManualMaterialise.PlanBillingSays` | libs/cost-observability/application/manual-cost.service.ts:250-271 | a planned row stores its item's money and its item |
| `ManualMaterialise.IntruderIsForeign` | libs/cost-observability/application/manual-cost.service.ts:303-309 | a row that breaks it is one no manual item can have written |
| `ManualMaterialise.CostTable.UpsertPlan` | libs/cost-observability/application/manual-cost.service.ts:250-292 | upserting in chunks is upserting the plan, and counts the rows that changed |
| `ManualMaterialise.CostTable.DeleteUnbilled` | libs/cost-observability/application/manual-cost.service.ts:293-313 | one delete per keep entry leaves exactly the rows no entry calls stale |
| `ManualMaterialise.CostTable.Materialise` | libs/cost-observability/application/manual-cost.service.ts:243-331 | leaves the table `MaterialiseExact` is about, counting the rows written and the rows deleted |
| `ForecastFloor.FloorIsMonthManual` | libs/cost-observability/domain/forecast.ts:164-262 | with the manual rows as of any day and any usage rows, the known part of the month's cash is the sum of all its manual charges: it does not move when a charge lands |
| `MaterialisedMonth.MaterialisedRowsAsOf` | libs/cost-observability/application/budget.service.ts:240-256 | the rows a month's query reads back after one run, in any order, are the month's rows as the floor needs them, if the table held no intruder, its planned rows were HIGH and its other rows are usage |
| `MaterialisedMonth.FloorAfterMaterialise` | libs/cost-observability/domain/forecast.ts:164-262 | so after one run of the materialiser the known part of the month's cash is the sum of its manual charges |
| `ForecastFloor.RecurringHalf` | libs/cost-observability/domain/forecast.ts:164-214 | landed plus remaining recurring money is the month's recurring charges |
| `ForecastFloor.OneTimeHalf` | libs/cost-observability/domain/forecast.ts:216-225 | a one-off is counted once, landed or still due |
| `ForecastSchedule.RunRateIsActiveFees` | libs/cost-observability/domain/forecast.ts:230-266 | with the same rows, the run-rate is the fees in force, monthly ones whole and yearly ones by the twelfth, on every day of the month |
| `ForecastSchedule.PendingIsAhead` | libs/cost-observability/domain/forecast.ts:202-228 | with the same rows, the pending list holds exactly the scheduled charges whose day is after today, each at its full amount |
| `ForecastSchedule.PendingInOrder` | libs/cost-observability/domain/forecast.ts:226-228 | the pending list is in day order, and by key within a day |
| `ForecastSchedule.LandedIffDue` | libs/cost-observability/domain/forecast.ts:164-225 | a scheduled charge has landed if and only if its day has come |
| `Forecast.ForecastMonth` | libs/cost-observability/domain/forecast.ts:146-294 | every figure of the month from the rows and the schedule; the projection is `Projects`' and cash and run-rate are withheld exactly for mixed currency or an unknown usage half |
| `Forecast.ProjectUsage` | libs/cost-observability/domain/budget.ts:183-205 | no projection exactly before the month's third day; inside the month its days at the average so far, rounded up; the actual money once it is past, and never below what is spent |
| `RecurringLaws.RecurringExact` | libs/cost-observability/domain/forecast.ts:164-214 | for any rows and schedule: landed recurring money is every recurring row once, and what is still to come is what each charge owes, each key once |
| `RecurringLaws.LandedIsTotal` | libs/cost-observability/domain/forecast.ts:164-178 | a key has landed the total of the rows that belong to it |
| `RecurringLaws.ChargesAt` | libs/cost-observability/domain/forecast.ts:178-200 | the charges are the schedule's, the last of a source, and for any other key that declares one its latest row's period amount |
| `RecurringLaws.RunRateExact` | libs/cost-observability/domain/forecast.ts:230-250 | the run-rate is every commitment once: monthly ones whole, others by a twelfth to the nearest micro |
| `RecurringLaws.CommittedAt` | libs/cost-observability/domain/forecast.ts:230-250 | the commitments are the schedule's, and the latest row of each key outside it that declares one |
| `Forecast.NormaliseRunRate` | libs/cost-observability/domain/forecast.ts:230-250 | the commitment map and its two totals |
| `Forecast.SettleRecurring` | libs/cost-observability/domain/forecast.ts:164-214 | recurring money landed and still to come, and the charges still to come, from the landed and latest maps |
| `Forecast.LandRecurring` | libs/cost-observability/domain/forecast.ts:165-178 | money landed per key, and the latest row that declares a commitment |
| `Forecast.OneTimeTotals` | libs/cost-observability/domain/forecast.ts:216-225 | one-offs landed, and the scheduled ones no landed row answers |
| `SpendPrecedence.WinningExact` | libs/cost-observability/domain/budget.ts:92-162 | the winning rows are exactly, each once: every FIXED or MANUAL row, the best ACTUAL of a key, the best ESTIMATED of a key without ACTUAL |
| `SpendPrecedence.ShadowedExact` | libs/cost-observability/domain/budget.ts:164-173 | the shadowed rows are exactly the best estimates of the keys an ACTUAL row answers |
| `SpendPrecedence.KeyIsSameSpend` | libs/cost-observability/domain/budget.ts:69-70 | rows are about one spend exactly when day, provider, service and meter agree, an absent column being an empty one |
| `SpendPrecedence.SpendOrderIndependent` | libs/cost-observability/domain/budget.ts:101-120 | `spend` does not depend on the order of the rows |
| `SpendPrecedence.SpendSplits` | libs/cost-observability/domain/budget.ts:101-120 | the spends of the classes of any split the spend key determines add up to the spend of the whole |
| `SpendPrecedence.PerServiceSpendsSum` | libs/cost-observability/application/budget.service.ts:193-206 | per-service spends add up to the total spend |
| `Budget.Spend` | libs/cost-observability/domain/budget.ts:101-120 | the total of the winning rows, split exactly by basis and by kind |
| `Budget.WinningRows` | libs/cost-observability/domain/budget.ts:152-162 | returns, group by group, the rows `WinningExact` characterises |
| `Budget.ShadowedRows` | libs/cost-observability/domain/budget.ts:165-173 | returns, group by group, the rows `ShadowedExact` characterises |
| `Budget.UsageGroups` | libs/cost-observability/domain/budget.ts:129-143 | groups by spend key in first-seen order, FIXED and MANUAL apart |
| `Budget.PickBest` | libs/cost-observability/domain/budget.ts:122-127 | the pick is a member no other is better than |
| `Reconciliation.ReconcileAgreesWithSpend` | libs/cost-observability/application/reconciliation.service.ts:47-98 | reconciled estimates are `spend`'s ESTIMATED plus shadowed, reconciled actuals its ACTUAL |
| `Reconciliation.LineSays` | libs/cost-observability/application/reconciliation.service.ts:57-95 | the variance takes the estimate to the actual and is there exactly if an ACTUAL row is; its share of the actual is to the nearest ten-thousandth; a key matches when it has both |
| `Reconciliation.BestAllTotals` | libs/cost-observability/application/reconciliation.service.ts:71-81 | over any rows, the best estimate of every key is what `spend` counts plus what it shadows |
| `Reconciliation.Reconcile` | libs/cost-observability/application/reconciliation.service.ts:47-98 | one line per provider and service, in service order, from the nested maps |
| `Reconciliation.ReconcileService` | libs/cost-observability/application/reconciliation.service.ts:57-95 | a service's totals, variance and matched keys |
| `CostCenter.MoneyMatchesLine` | libs/cost-observability/application/cost-center.service.ts:315-338 | a service's money facts state the same estimated and actual money as its reconciliation line |
| `CostCenter.ComputeMoneyFacts` | libs/cost-observability/application/cost-center.service.ts:315-338 | each part is `spend`'s, absent exactly when no row has that basis; the confidence is the lowest and the basis the only one that counts |
| `CostCenter.BasisOf` | libs/cost-observability/application/cost-center.service.ts:319-332 | one basis by name if and only if every row that counts has it |
| `CostCenter.FreshIffPlanned` | libs/cost-observability/application/cost-center.service.ts:482-507 | those are exactly the pairs the materialiser plans for the window |
| `CostCenter.ManualFreshness` | libs/cost-observability/application/cost-center.service.ts:482-508 | FRESH if and only if MANUAL rows are held for exactly the sources and days on which items are billed in the window, up to today |
| `Pricing.TieredIsUnitByUnit` | libs/cost-observability/pricing/pricing-rules.ts:132-148 | a tiered price is the sum of each unit's marginal price, and is unknown exactly past the last bound |
| `Pricing.DailyPriceIsCeiling` | libs/cost-observability/pricing/pricing-rules.ts:498-500 | with prices that do not rise, pricing day by day costs at least the marginal price of the total and at most its first-band price |
| `Pricing.PriceTiered` | libs/cost-observability/pricing/pricing-rules.ts:132-148 | returns the price `TieredIsUnitByUnit` characterises, unknown when units are left over |
| `Pricing.ListPriceExact` | libs/cost-observability/pricing/pricing-rules.ts:128-169 | a price at list is known exactly when the rule has what its model needs, and is then the model's: free, tiered, the fixed fee, or units times price per 1, 1,000, 1,000,000 or day of the month, rounded up |
| `Pricing.RuleInForceExact` | libs/cost-observability/pricing/pricing-rules.ts:172-190 | the rule used is the first that applies to the SKU and day |
| `Pricing.CeilNat` | libs/cost-observability/pricing/pricing-rules.ts:154-167 | rounds up by less than one micro |
| `Estimator.TruncationIsSound` | libs/cost-observability/application/cost-estimator.service.ts:203-221 | usage read from `allowanceWalkStart(from)` on plans the same rows and gaps for the range as all usage does, for any mix of allowances |
| `Estimator.WalkStartReaches` | libs/cost-observability/application/cost-estimator.service.ts:204-221 | the start is at or before the range and every allowance period it falls in |
| `Estimator.WalkStartNeeded` | libs/cost-observability/application/cost-estimator.service.ts:204-221 | the start is the range's own or the first day of some allowance's period |
| `Estimator.PeriodStartIsFirst` | libs/cost-observability/application/cost-estimator.service.ts:204-221 | that day is the first that shares the period with the range's first day |
| `Estimator.PlanEstimates` | libs/cost-observability/application/cost-estimator.service.ts:140-201 | the rows and gaps of the chronological walk that `PlannedRowsExact`, `EveryRowOnce` and `TruncationIsSound` are about |
| `EstimateLaws.PlannedRowsExact` | libs/cost-observability/application/cost-estimator.service.ts:140-201 | each positive row of the range whose rule knows its price is estimated in order: at list, the price of its whole quantity by pricing model, rounded up by less than a micro; charged, that same price without an allowance, and with one the price of the units it moves past it after the rows before |
| `EstimateLaws.EveryRowOnce` | libs/cost-observability/application/cost-estimator.service.ts:140-201 | every positive row of the range is estimated or a gap, once and never both |
| `EstimateLaws.SharedExactly` | libs/cost-observability/application/cost-estimator.service.ts:109-138 | two rows share an allowance if and only if source, scope and period agree |
| `Estimator.AllowanceWalkStart` | libs/cost-observability/application/cost-estimator.service.ts:204-221 | the start `WalkStartReaches` and `TruncationIsSound` are about |
| `AllowanceLaws.AllowanceConserved` | libs/cost-observability/application/cost-estimator.service.ts:166-175 | rows sharing an allowance of A units bill exactly max(0, total - A) units |
| `AllowanceLaws.UsedIsTotal` | libs/cost-observability/application/cost-estimator.service.ts:173-175 | what the walk records as consumed is exactly what drew on the allowance |
| `AllowanceLaws.RangeConserved` | libs/cost-observability/application/cost-estimator.service.ts:140-201 | of rows in day order, with any history before the range, those of the range bill exactly what is past the allowance at the range's end less what was past it before the range |
| `AllowanceLaws.ChargesAreBillables` | libs/cost-observability/application/cost-estimator.service.ts:140-198 | the amounts planned for the range, from any history, are the prices, row by row, of units that total exactly that |
| `AllowanceLaws.LinearChargesAreTight` | libs/cost-observability/pricing/pricing-rules.ts:154-155 | with a price per 1,000 and any history, the charges lie between the exact price of those units and less than one micro per row above it |
| `AllowanceLaws.TieredChargesAreCeiling` | libs/cost-observability/pricing/pricing-rules.ts:498-500 | with tiers that do not rise and any history, the charges are at most the first-band price of those units and, where it is known, at least their marginal price |
| `ContractGate.PassMeansEveryErrorAdmitted` | scripts/check-contract-compat.ts:142-317 | the gate passes only a completed, self-consistent report in which every error finding is matched to a recorded exception of its own |
| `ContractGate.JudgeExactly` | scripts/check-contract-compat.ts:142-317 | it cannot tell exactly for a report that is incomplete, contradicts itself or counts other findings than it opens; what it can read passes if and only if no error is refused and an expected exception admitted exactly one |
| `ContractGate.PassExactly` | scripts/check-contract-compat.ts:142-317 | with `PartitionedExactly`, it passes exactly what it can read and match |
| `ContractGate.FindingSays` | scripts/check-contract-compat.ts:89-121 | a finding's text is its opening line and its continuations up to the next opening |
| `ContractGate.LastSummaryExact` | scripts/check-contract-compat.ts:103-113 | the summary is the last one of the report |
| `ContractGate.PartitionedExactly` | scripts/check-contract-compat.ts:260-275 | whenever any two errors are covered by the same exceptions or by none in common, nothing is refused if and only if a one-to-one assignment of exceptions exists |
| `ContractGate.OverlapCanRefuse` | scripts/check-contract-compat.ts:262-275 | any two errors that break that, in the order that spends the shared exception first, are refused although an assignment exists |
| `ContractGate.OrderCanRefuse` | scripts/check-contract-compat.ts:266-275 | for one: errors reading AB and A, with exceptions for "A" and "AB" in that order |
| `ContractGate.LineBreaksAdmitAlike` | scripts/check-contract-compat.ts:123-134 | where the report breaks or indents its lines does not decide whether an exception admits a finding |
| `ContractGate.SpacesExactly` | scripts/check-contract-compat.ts:132-134 | white space is what the pattern `\s` matches, by code point |
| `ContractGate.NormalisedIsNormal` | scripts/check-contract-compat.ts:132-134 | what is compared has single spaces and none at its ends |
| `ContractGate.IncludesExactly` | scripts/check-contract-compat.ts:266-272 | a diagnostic is included wherever it stands in the text |
| `ContractGate.EachOpeningIsAFinding` | scripts/check-contract-compat.ts:82-121 | each severity's findings are as many as the lines that open one |
| `ContractGate.AdmitErrors` | scripts/check-contract-compat.ts:262-275 | what each error consumes, spliced out of the pool as `AdmittedOneToOne` counts it |
| `ContractGate.Evaluate` | scripts/check-contract-compat.ts:142-317 | the verdict `PassMeansEveryErrorAdmitted` is about, tool failures apart from refusals |
| `ContractGate.ParseReport` | scripts/check-contract-compat.ts:89-121 | the findings and last summary that `EachOpeningIsAFinding` is about |
| `HistogramQuantile.QuantileRises` | scripts/cost-baseline/metrics-text.ts:138-163 | a higher quantile is never a lower latency |
| `HistogramQuantile.QuantileBracketed` | scripts/cost-baseline/metrics-text.ts:147-163 | the answer is at or above every bound whose count is below the rank, and at or below every bound whose count reaches it |
| `HistogramQuantile.QuantileInterpolates` | scripts/cost-baseline/metrics-text.ts:147-163 | inside its bucket the answer is as far between the bounds as the rank is between the counts |
| `HistogramQuantile.QuantilePastAll` | scripts/cost-baseline/metrics-text.ts:147-163 | past every count it is the greatest finite bound |
| `HistogramQuantile.ComputeQuantile` | scripts/cost-baseline/metrics-text.ts:147-163 | the quantile that `QuantileRises` and `QuantileBracketed` are about, none for an empty histogram |

## Left out

- Idempotency.CommittedADayApart: covers completion inside the mutation's own transaction; the interceptor's automatic mode completes after the handler's commit by design and promises less.
- Idempotency.CommittedADayApart: requires that no completed record of the key is purged as unversioned; `OnlyPurgeFreesCompleted` and `RolloutCommitsTwice` show why.
- Idempotency.LateStatementsTouchNothing: requires that too, and that a claim statement runs within a day; the two runs beside it show why.
- WorkerLease.AtMostOneHeld: requires that no holder is overdue; `LateRenewalLetsTwoHold` shows why.
- Scheduler.GuardrailsHold: requires that no run of the collector gave up unwritten; `StepKeepsExactly` and `UnwrittenFailureRepeats` show why.
- UsageLedger.TablesAgree: requires that a billable meter names a billing SKU, which the registry's constructor checks, and that SKU ids are not empty.
- CostCenter.ManualFreshness: only the MANUAL kind of `costSource` with items; the other kinds are a table of comparisons.
- ManualMaterialise.CostTable.Materialise: `source_as_of`, `collected_at` and `updated_at` are not modelled.
- UsageLedgerService.DbUsageLedger.Flush: durations, flush metrics and timestamps are not modelled; the meter table keeps quantities, not the unit label its rows carry.
- Periodic.PeriodicRunner.JobEnded: loggers and `isHeld` do not throw.
- Scheduler.CollectorScheduler.Register: the registry lookups behind `declared` are a parameter.
- Scheduler.CollectorScheduler.RunOne: `sourceAsOf`, samples and durations are not modelled, and metrics do not throw; a success that cannot be stored carries the code `ERROR`.
- Budget.WinningRows: `localeCompare` is modelled as an order on code units, here and wherever names are sorted.
- ContractGate.ParseReport: the patterns that classify a line are a parameter of the model.
- HistogramQuantile.ComputeQuantile: exact rationals stand for floating point; parsing, diffing and merging snapshots are not modelled.
- Years outside four digits, where text order and calendar order part.
- Amounts and quantities are integers; fractional `by`, `calls` or `units` arguments are not modelled. Prices per unit round up exactly as `Math.ceil` does on exact rationals.
- Composite string keys are tuples, so a separator inside an id cannot join two of them.
- The definitions registry and the price list as data: their lookups are functions.
- The materialised monitoring-cost row, `usageLines`, `rowFreshness`, cost budget states and the estimator's delete-and-insert transaction: single formulas or one statement each.
- HTTP, dependency injection, logging, metrics endpoints, configuration from the environment, hashing and text scanning.
