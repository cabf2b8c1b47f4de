# Pubky Locks: verified model of its admission control, workers, supervisor and codecs

A Dafny model of the parts of Pubky Locks where correctness is hard to see from the code: the
rate limiters, the leased verification workers and their fenced publication, the snapshots and
reducers those workers drive, the deletion worker, the runtime supervisor, and the codecs and
exact arithmetic of the domain crate. `dafny verify dfyconfig.toml` checks everything.

| files | what they model |
|---|---|
| `RateLimitWindows`, `TokenBucket`, `LookupLimiter`, `LookupBounds`, `LookupWitnesses`, `SubmissionLimiter` | the two in-memory limiters of `rate_limit.rs`, as classes refining pure steps, and bounds over whole runs |
| `Publication`, `PublicationSafety`, `PublicationTheorems`, `PublicationLiveness`, `PublicationProgram` | any number of workers claiming, persisting and publishing, as a step system with crashes, lease reclaim and ambiguous writes; the publishing code itself as an imperative program shown to be a run of it |
| `GraphSnapshot`, `GraphObservations`, `GraphTick`, `GraphMeaning` | the graph task snapshot, its reducer, the recording of concurrent observations, one tick, and what it comes to for the answers given |
| `PaymentTask`, `PaymentMeaning`, `PaymentWorker`, `TaskLifetime` | the payment snapshot, reducer and tick, what a tick comes to for the provider's answer, the tick as in-place code, and how long a task of either kind can live |
| `Supervisor` | the shutdown protocol of `runtime.rs` over every order of task completions |
| `Deletion` | one iteration of the deletion worker, its backoff, attempt budget and readiness |
| `Crockford`, `LockResource`, `RequestUri`, `PaymentAmount`, `ResourceSet` | identifiers, lock resources, Nexus request URIs, decimal amounts, guarded-resource validation |
| `Common` | shared definitions |

Clocks, provider and Nexus answers, jitter draws, port errors and scheduling are inputs, so every
result holds for all of them. Instants are nanoseconds. Fixed-width integers are unbounded except
where the source's saturation, wrap or overflow check is written out.

Places where the code does not do what its surroundings suggest, each stated in the lemmas below:

- A lookup limit of zero requests still admits the call that opens a window;
  the submission limiter with that limit admits nothing, and only then breaks its `Retry-After`.
- Shutdown may arrive between a worker's look at it and the grant of its claim; such a claim is
  granted all the same, and then handed back.
- A graph snapshot is refused by the repository exactly when an observation carries the instant of
  the one it replaces and says something else; no run of retries reaches that case.
- An unanswered payment proposal past its expiry is an invalid response when read before the
  deadline and unavailability when read after it; no other verdict depends on the reading time.
- Deferring a deletion hands its attempt back, so `retry_max_attempts` bounds executions minus
  applied deferrals; the largest limit bounds nothing in the in-memory repository,
  whose count saturates there.
- An insert into the entitlement store is a read and then an unconditional write, so an entry that
  somebody outside the protocol creates in between is overwritten. Workers never do this to each
  other: handles are unique among tasks, so two of them at one path write the same payload.
- The v1 and v2 resource validators accept the same locks but name different errors when sizes
  overflow before the first malformed secondary.

## Model

| member | source | states |
|---|---|---|
| `Windows.ExpiryIsExact` | locks-server/src/rate_limit.rs:272-290 | a window is over exactly when its whole duration has passed, to the nanosecond, despite truncation to seconds |
| `Windows.RetryAfterIsLeast` | locks-server/src/rate_limit.rs:280-290 | the advertised wait is the least number of whole seconds after which the window is over |
| `TokenBucket.RefillAddsCredit` | locks-server/src/rate_limit.rs:164-189 | a refill adds elapsed * rate units of 1e-9 token, capped at the burst, and keeps the bucket valid |
| `TokenBucket.RefillSplits` | locks-server/src/rate_limit.rs:164-189 | refilling at t1 and then t2 leaves the same bucket as refilling once at t2 |
| `TokenBucket.OneSecondBuysAToken` | locks-server/src/rate_limit.rs:140-148 | one second at a rate of at least one leaves a token to spend |
| `LookupLimiter.Limiter.constructor` | locks-server/src/rate_limit.rs:88-100 | a new limiter has no windows and a full bucket |
| `LookupLimiter.Limiter.RefillTokenBucket` | locks-server/src/rate_limit.rs:164-189 | the u128/u64 saturating arithmetic leaves what exact integers would, for every u64 rate and burst |
| `LookupLimiter.Limiter.MinRetry` | locks-server/src/rate_limit.rs:109-124 | the loop over stored windows finds the soonest expiry |
| `LookupLimiter.Limiter.Check` | locks-server/src/rate_limit.rs:102-161 | the in-place check computes the state and decision of one step of the limiter |
| `LookupLimiter.RetainShrinks` | locks-server/src/rate_limit.rs:109-124 | eviction never grows the map, and makes room whenever something had expired |
| `LookupLimiter.StepKeepsInv` | locks-server/src/rate_limit.rs:102-161 | every call keeps the bucket bounds, the window quotas and the entry cap |
| `LookupLimiter.StepKeepsCap` | locks-server/src/rate_limit.rs:109-124 | no call grows the map past its entry cap, whatever either clock says |
| `LookupBounds.GlobalRateBound` | locks-server/src/rate_limit.rs:102-189 | over any run with a non-decreasing monotonic clock, however the wall clock jumps, any span [from, to] admits at most burst + floor(rate * (to - from) / 1e9) calls, whatever the keys |
| `LookupWitnesses.GlobalRateBoundIsTight` | locks-server/src/rate_limit.rs:102-189 | the global bound is attained over every span too short to fill the bucket again |
| `LookupBounds.PerKeySlidingBound` | locks-server/src/rate_limit.rs:109-160 | with a non-decreasing wall clock, whatever the other one does, any half-open span of one window admits at most 2 * quota - 1 calls per key, despite eviction |
| `LookupWitnesses.PerKeySlidingBoundIsTight` | locks-server/src/rate_limit.rs:109-160 | that bound is attained |
| `LookupBounds.ZeroLimitAdmitsOpeningCalls` | locks-server/src/rate_limit.rs:126-160 | with a limit of zero the call that opens a window is admitted and the next one refused |
| `LookupBounds.EntryCapHolds` | locks-server/src/rate_limit.rs:109-124 | after any calls at any times the map holds at most max_entries windows |
| `LookupBounds.RetryAfterIsAPromise` | locks-server/src/rate_limit.rs:109-160 | with room for an entry and a bucket that holds and earns tokens, a retry at the advertised time is admitted after a rejection by any of the three checks |
| `LookupWitnesses.PromisesAreKeptIff` | locks-server/src/rate_limit.rs:109-160 | over all runs the Retry-After promise is kept if and only if max_entries, rate and burst are all positive |
| `LookupBounds.RetryTooEarlyIsRejected` | locks-server/src/rate_limit.rs:109-143 | before that time a call the cap or the window rejected is rejected again |
| `SubmissionLimiter.Limiter.Check` | locks-server/src/rate_limit.rs:223-253 | the in-place check computes one step of the submission limiter, disabled or not; whom that step admits is pinned by the rows below |
| `SubmissionLimiter.SubmissionSlidingBound` | locks-server/src/rate_limit.rs:223-253 | over any run, a span of one window admits at most 2 * max_requests - 1 submissions of a key, none for a limit of zero |
| `SubmissionLimiter.WindowCounts` | locks-server/src/rate_limit.rs:223-253 | over any calls since one of a key opened its window, the window still starts there and its count is the number of that key's calls, up to max_requests |
| `SubmissionLimiter.NextIsAdmittedIff` | locks-server/src/rate_limit.rs:223-253 | within a window of a key a further call is admitted if and only if fewer than max_requests calls of that key came since the window opened, whatever other keys do |
| `SubmissionLimiter.OpeningIsAdmittedIff` | locks-server/src/rate_limit.rs:223-253 | a call that opens a window is admitted if and only if the limit is positive |
| `SubmissionLimiter.DisabledAdmitsAll` | locks-server/src/rate_limit.rs:228-230 | a disabled limiter admits every call of every run and remembers none |
| `SubmissionLimiter.SubmissionRetryIff` | locks-server/src/rate_limit.rs:223-253 | a rejected submission repeated after the advertised wait, whatever other keys do meanwhile, is admitted if and only if the limit is positive |
| `SubmissionLimiter.OthersLeaveWindow` | locks-server/src/rate_limit.rs:223-253 | calls of other keys leave a key's window alone |
| `PublicationSafety.PcOkIsStable` | locks-server/src/graph_worker.rs:318-409 | what a worker knows at each point survives every step of the others |
| `PublicationSafety.StepEvolves` | locks-service/src/infrastructure/memory/graph_tasks.rs:289-641 | tasks only move forward under claim token and revision, and entries stay, in every step that is not a contended outside write; how a task may end or be put back is pinned by `PublicationLiveness` |
| `PublicationSafety.StepMovesOnlyActor` | locks-server/src/graph_worker.rs:84-124 | a step moves at most its own worker |
| `PublicationSafety.SamePathSamePayload` | locks-service/migrations/0002_verification_task_public_handle.sql:39 | two publications to one path are of one task and one payload, because handles are unique among admitted tasks |
| `PublicationSafety.StepKeepsHarmless` | locks-service/src/infrastructure/pubky/entitlements.rs:109-143 | a store write under way, awaited or landing late, stays harmless under every step except an outside write to its path |
| `PublicationSafety.StepKeepsInv` | locks-server/src/graph_worker.rs:277-409 | the protocol invariant is kept by every step of every worker, every late write and every uncontended outside write |
| `PublicationTheorems.PublicationIsExact` | locks-server/src/graph_worker.rs:318-409 | in every state reached without contended outside writes a completed task's entry is exactly its durable payload, stands at the task's own path and names its creator, reader, lock, resource and evaluator, and every reported tick is true |
| `PublicationTheorems.PublishedIsForever` | locks-service/src/infrastructure/pubky/entitlements.rs:109-143 | although an insert is a read followed by an unconditional write that may land late, entries never change and payloads and completion are permanent |
| `PublicationTheorems.OutsideWriteIsSafeIff` | locks-service/src/infrastructure/pubky/entitlements.rs:129-143 | an outside write costs somebody an entry if and only if its path holds another entry, or a worker has found it free and not yet written to it |
| `PublicationTheorems.OutsiderIsOverwritten` | locks-service/src/infrastructure/pubky/entitlements.rs:129-143 | an entry created between the insert's read and its write is replaced |
| `PublicationTheorems.OverwriteIsReachable` | locks-service/src/infrastructure/pubky/entitlements.rs:129-143 | a run from the empty system does so |
| `PublicationTheorems.GuardReleasedExactlyOnce` | locks-server/src/graph_worker.rs:334-409 | in every run each acquired action guard gets exactly one release call unless its holder crashes |
| `PublicationTheorems.CompletedAtMostOnce` | locks-service/src/infrastructure/memory/graph_tasks.rs:597-641 | in every run, however many workers race, a task is completed at most once |
| `PublicationTheorems.ConflictNeverCompletes` | locks-server/src/graph_worker.rs:353-391 | a conflicting entry of either version stays and its task is never completed, in every run without contended outside writes |
| `PublicationTheorems.RecoveryCompletes` | locks-server/src/payment_worker.rs:396-481 | from any reachable state a worker can reclaim and finish an unblocked publication |
| `PublicationTheorems.PublicationRecoverableIff` | locks-server/src/payment_worker.rs:396-481 | a publishing task can still be completed, without disturbing anybody, if and only if no other entry occupies its path |
| `PublicationTheorems.ShutdownStopsPublication` | locks-server/src/graph_worker.rs:349-355 | once shutdown is requested and the publications and writes already past their last look at it are over, nothing is inserted, written, landed or completed |
| `PublicationTheorems.ShutdownStopsClaiming` | locks-server/src/graph_worker.rs:88-98 | after shutdown a worker makes at most the one claim call it was already about to make |
| `PublicationTheorems.LateClaimIsHandedBack` | locks-server/src/graph_worker.rs:104-109 | a claim granted after shutdown leads nowhere: its holder never evaluates or publishes, and hands the claim back unless it crashes or the release call has no effect |
| `PublicationLiveness.EndedOnlyByVerdict` | locks-service/src/infrastructure/memory/graph_tasks.rs:289-641 | in every run, however it crashes or loses replies, a task ends without publication only by a durable verdict against it |
| `PublicationLiveness.UndecidedCompletableIff` | locks-server/src/graph_worker.rs:84-124 | from every reachable state without shutdown a pending or in-progress task can still be completed, undisturbed and with any verification time, if and only if its path is free or holds that very entry |
| `PublicationLiveness.RunKeepsLeases` | locks-service/src/infrastructure/memory/graph_tasks.rs:289-641 | over every undisturbed run a task is in progress only with a claim, has none when pending or over, and is fenced exactly while publishing |
| `PublicationLiveness.RevisionCountsEvaluations` | locks-service/src/infrastructure/memory/graph_tasks.rs:486-493 | in every run a task's revision rises by one per stored evaluation and by nothing else |
| `PublicationLiveness.ReportsAreTrue` | locks-server/src/graph_worker.rs:277-316 | a tick that reports a retry has put its task back among the pending, one that reports an end has recorded it, and after any other report outside publication the task is as evaluated as before |
| `PublicationLiveness.AcknowledgedIsReported` | locks-server/src/graph_worker.rs:277-316 | an acknowledged retry or refusal is reported as such, and an acknowledged success goes on to publish |
| `PublicationProgram.Publisher.constructor` | locks-server/src/graph_worker.rs:318-324 | a publisher starts with an empty run from any reachable state |
| `PublicationProgram.Publisher.Turn` | locks-server/src/graph_worker.rs:334-343 | interference between two calls is a run of the protocol that keeps the invariant and this worker |
| `PublicationProgram.Publisher.InsertEntitlement` | locks-service/src/infrastructure/pubky/entitlements.rs:109-143 | the insert as code, with everybody else acting between its read and its write, leaves the worker where the protocol says |
| `PublicationProgram.Publisher.ConfirmAndComplete` | locks-server/src/graph_worker.rs:353-402 | the outcome block, as code, ends with the guard held and the outcome the protocol records |
| `PublicationProgram.Publisher.Publish` | locks-server/src/graph_worker.rs:318-409 | the publishing code is a run of the protocol for every interference that stays off contended paths and every answer, late writes included; it releases its guard once and reports the truth |
| `GraphSnapshot.TablesAgree` | locks-service/src/application/models/graph0conf.rs:420-480 | at the deadline the reducer's table and the snapshot's own terminal table agree |
| `GraphSnapshot.DecidedIsCertain` | locks-service/src/application/graph0conf_reducer.rs:16-113 | before the deadline a decided value is what every completion of the open predicates gives |
| `GraphSnapshot.UndecidedIsOpen` | locks-service/src/application/graph0conf_reducer.rs:16-113 | an undecided value has two completions that end differently |
| `GraphSnapshot.ReducerDecidesExactly` | locks-service/src/application/graph0conf_reducer.rs:16-113 | the reducer never fails on a valid snapshot, ends every task at its deadline, and before it ends one if and only if the outcome is already certain |
| `GraphSnapshot.SatisfiedMeansTrue` | locks-service/src/application/models/graph0conf.rs:278-331 | the root is satisfied if and only if every predicate (AND), or some predicate (OR), was seen true |
| `GraphObservations.JoinObservations` | locks-server/src/graph_worker.rs:190-209 | the join loop applies the timely observations in arrival order |
| `GraphObservations.RecordIsLocal` | locks-service/src/application/models/graph0conf.rs:163-202 | recording an observation succeeds and changes the snapshot according to its own predicate only |
| `GraphObservations.RecordNexusIsLocal` | locks-service/src/application/models/graph0conf.rs:204-252 | so does recording a Nexus observation with its operational fields |
| `GraphObservations.TerminalizeIsLocal` | locks-service/src/application/models/graph0conf.rs:254-276 | so does recording a malformed answer |
| `GraphObservations.ApplyOneIsLocal` | locks-server/src/graph_worker.rs:440-534 | an observation is accepted if and only if its own predicate allows it, and touches nothing else |
| `GraphTick.JoinIsPointwise` | locks-server/src/graph_worker.rs:190-209 | a tick's observations are all accepted if and only if each is, and each lands in its own predicate |
| `GraphTick.JoinOrderIrrelevant` | locks-server/src/graph_worker.rs:190-209 | the snapshot after a tick does not depend on the order the concurrent checks join in |
| `GraphTick.TickOutcome` | locks-server/src/graph_worker.rs:125-223 | a tick fails exactly when told of a failure beyond the u32 limit; it ends the task at the deadline and reschedules only within it, with a storable snapshot, whose content is pinned by `GraphMeaning` |
| `GraphTick.TickCounts` | locks-service/src/application/models/graph0conf.rs:204-252 | a rescheduling tick adds at most one failure to each predicate's total |
| `GraphTick.NextDueIsGood` | locks-server/src/graph_worker.rs:536-549 | the next due time is in the future, within the deadline, and a millisecond away or the deadline itself |
| `GraphTick.SettledIsUntouched` | locks-server/src/graph_worker.rs:144-209 | a true or terminally invalid predicate, and one observed too late, is left as it was |
| `GraphTick.ProgressAcceptedIff` | locks-service/src/application/models/graph0conf.rs:333-384 | the repository accepts a tick's snapshot if and only if no observation rewrites a stored instant |
| `GraphTick.SameInstantIsRefused` | locks-service/src/application/models/graph0conf.rs:333-384 | such a rewriting tick exists |
| `GraphTick.TickIsAccepted` | locks-service/src/application/models/graph0conf.rs:333-384 | a tick that starts after everything stored was observed is never refused |
| `GraphMeaning.TickStoresAnswers` | locks-server/src/graph_worker.rs:125-223 | the snapshot a tick stores is the old one with every timely answer recorded in its own predicate, and nothing else changed but the root |
| `GraphMeaning.TickGrantsIff` | locks-server/src/graph_worker.rs:190-223 | before the deadline a tick that asks persists Satisfied if and only if every predicate (some, under OR) was seen true before or is by a timely true answer of this tick |
| `GraphMeaning.LateTickGrantsIff` | locks-server/src/graph_worker.rs:129-142 | at the deadline a tick grants exactly on what was seen before |
| `GraphMeaning.DeadlineRootMeans` | locks-service/src/application/graph0conf_reducer.rs:16-113 | the root at the deadline from the evidence: which of satisfied, invalid, unavailable and not observed, for AND and OR |
| `GraphMeaning.AnswerMeans` | locks-server/src/graph_worker.rs:440-534 | field by field what an answer does to its predicate: a server's Retry-After up to a minute is honoured unjittered, failures back off 1, 2, 4, 8, 16, 30 seconds, a false answer is asked again in five, and nothing is put off past the deadline |
| `GraphMeaning.AskedIff` | locks-server/src/graph_worker.rs:144-156 | a predicate is asked about exactly when it is open and no later time is set for it |
| `GraphMeaning.RetryIsAtSoonest` | locks-server/src/graph_worker.rs:536-549 | the next attempt is at the soonest time set for an open predicate, at least a millisecond away and at the deadline at the latest |
| `GraphMeaning.TickRetriesWhenDue` | locks-server/src/graph_worker.rs:157-170 | every tick that ends in a retry asks for it at that time |
| `PaymentTask.PaymentReducer` | locks-service/src/application/payment_v2_reducer.rs:8-98 | the reducer never fails, ends every task at its deadline, and grants payment if and only if valid threshold evidence is there on a live request |
| `PaymentTask.VerdictIsTimeless` | locks-service/src/application/payment_v2_reducer.rs:8-98 | a verdict does not depend on when the evidence is read, except for an expired unanswered proposal read on either side of the deadline |
| `PaymentTask.ReadingTimeMatters` | locks-service/src/application/payment_v2_reducer.rs:8-98 | the exception occurs: one valid snapshot, two reading times, two verdicts |
| `PaymentTask.ErrorOutcome` | locks-server/src/payment_worker.rs:255-335 | handling any provider error leaves an outcome the repository accepts |
| `PaymentTask.PayTickOutcome` | locks-server/src/payment_worker.rs:101-253 | whatever the provider answers, a tick persists only terminal snapshots, reschedules only pending ones in time, and writes only legitimate progress; what it stores is pinned by `PaymentMeaning` |
| `PaymentMeaning.VerdictPerRequest` | locks-service/src/application/payment_v2_reducer.rs:8-98 | the verdict and its reason for every state of the request, with and without evidence, before and after expiry and deadline |
| `PaymentMeaning.CreateMeans` | locks-server/src/payment_worker.rs:117-197 | a fitting invoice is stored as it came and its status asked for a millisecond later, or ends the task when it came too late; one that does not fit ends the task |
| `PaymentMeaning.StatusMeans` | locks-server/src/payment_worker.rs:199-251 | a fitting status is stored with the failures in a row cleared and the verdict it implies, and asked for again in five seconds while that is to wait; one that does not fit ends the task |
| `PaymentMeaning.PollPaysIff` | locks-server/src/payment_worker.rs:199-251 | before the deadline a poll pays if and only if the status fits the task, keeps evidence already on record, is of a live request and carries threshold evidence |
| `PaymentMeaning.OtherwisePaysIff` | locks-server/src/payment_worker.rs:101-197 | no other tick pays, except on evidence already on record when the deadline has come |
| `PaymentWorker.Worker.HandleProviderError` | locks-server/src/payment_worker.rs:255-335 | a retryable error is counted once with saturation, keeps the first failure on record and is rescheduled exactly before the deadline, after the provider's own wish between one second and a minute or 1, 2, 4, 8, 16, 30 seconds; any other error only ends the task with its reason; nothing fails from a stored task |
| `PaymentWorker.Worker.RunOnce` | locks-server/src/payment_worker.rs:101-253 | the tick as code computes the specified tick; from a stored task its outcome is acceptable, a polled status that fits is on record afterwards, and the task is paid if and only if that status is of a live request with threshold evidence |
| `TaskLifetime.RetrySpendsBudget` | locks-service/src/infrastructure/postgres/graph_tasks.rs:520-593 | a retry stored on the repository's clock keeps the delay asked for unless the deadline cuts it, and uses up at least one of the milliseconds left |
| `TaskLifetime.GraphRetriesAreBounded` | locks-server/src/graph_worker.rs:129-170 | a graph task stored at its due time is rescheduled at most once per millisecond left to its deadline |
| `TaskLifetime.RetriesAreAccepted` | locks-service/src/infrastructure/postgres/graph_tasks.rs:520-593 | over any run of retries every snapshot passes the repository's checks: legitimate progress, pending, and observed no later than its clock |
| `TaskLifetime.NoTickOfANewTaskFails` | locks-service/src/application/models/graph0conf.rs:386-400 | no tick of any run of retries from a newly admitted task fails |
| `TaskLifetime.PayRetriesAreBounded` | locks-server/src/payment_worker.rs:104-180 | a payment task is rescheduled at most once per millisecond left |
| `TaskLifetime.GraphRetriesFitTheWindow` | locks-server/src/graph_worker.rs:536-558 | never more retries than the window has milliseconds, so at most 604 800 000 |
| `TaskLifetime.PayRetriesFitTheWindow` | locks-server/src/payment_worker.rs:292-333 | the same for payment tasks |
| `Supervisor.FirstOffenceIsFirst` | locks-server/src/runtime.rs:394-408 | the recorded failure is the earliest offending completion and absent exactly when there is none |
| `Supervisor.ErrorPerExit` | locks-server/src/runtime.rs:394-416 | a failure keeps its message, a panic is reported as one, a cancellation as an unexpected exit, each under the task's label; success is no error |
| `Supervisor.LabelsIdentify` | locks-server/src/runtime.rs:158-176 | no two tasks share a label, and exactly the workers are labelled so |
| `Supervisor.VerdictIsExact` | locks-server/src/runtime.rs:245-287 | success, timeout and failure verdicts each hold exactly under their stated conditions |
| `Supervisor.CountIsAlive` | locks-server/src/runtime.rs:302-317 | the running worker count is the number of live worker roots |
| `Supervisor.OutlivesIffCounted` | locks-server/src/runtime.rs:334-365 | a worker outlives a completion exactly when the count is positive after it |
| `Supervisor.Runtime.constructor` | locks-server/src/runtime.rs:178-243 | after spawning, the task map holds every root |
| `Supervisor.Runtime.JoinNext` | locks-server/src/runtime.rs:302-317 | a join returns the owner of the next completion, never an unknown task, and keeps map and count exact |
| `Supervisor.Runtime.StopWorkers` | locks-server/src/runtime.rs:341-357 | the worker loop ends with no worker alive unless the timeout strikes |
| `Supervisor.Runtime.Drain` | locks-server/src/runtime.rs:418-428 | draining joins everything within the limit and keeps the first failure |
| `Supervisor.Runtime.StopWorkersThenDrain` | locks-server/src/runtime.rs:334-365 | services are signalled between the two phases |
| `Supervisor.Runtime.Supervise` | locks-server/src/runtime.rs:178-288 | for every completion order the verdict is exact, services are signalled only with no worker alive, and every root is joined on return, the index of roots being exact unless a timeout aborted them |
| `Deletion.RetryCap` | locks-server/src/deletion_worker.rs:701-710 | the doubling loop with overflow fallback and early exit computes min(maximum, initial * 2^(max(n,1)-1)) |
| `Deletion.CapIsMonotone` | locks-server/src/deletion_worker.rs:701-710 | the cap never shrinks with more attempts and never exceeds the maximum |
| `Deletion.RetryOrExhaust` | locks-server/src/deletion_worker.rs:643-687 | at the attempt limit the job is finished as exhausted, below it retried within the cap, with the claim's own job and token |
| `Deletion.RunOnce` | locks-server/src/deletion_worker.rs:346-474 | an iteration does what its log says and reports what `Reported` says: at most one mutation, with its own claim; a sticky shutdown starts no external action; a refused mutation is reported as a lost claim |
| `Deletion.ReportPerAnswer` | locks-server/src/deletion_worker.rs:346-474 | the reported outcome for every executor answer, for shutdown at either look, for an empty or broken claim and for a write that applied or broke |
| `Deletion.LostIsLost` | locks-server/src/deletion_worker.rs:346-474 | a lost claim is reported if and only if the write was refused or the executor lost it, and exhaustion only at the attempt limit |
| `Deletion.LogIsDisciplined` | locks-server/src/deletion_worker.rs:346-474 | what an iteration may call: retries within the cap, deferrals by the poll interval, or at once on shutdown, and every write under its own claim |
| `Deletion.LogRuns` | locks-server/src/deletion_worker.rs:401-423 | an iteration runs the executor at most once, exactly when its claim is within the budget and shutdown was not seen |
| `Deletion.RisingClaimsAreBounded` | locks-server/src/deletion_worker.rs:346-474 | over claims with strictly rising attempt counts the iterations run the executor at most retry_max_attempts times |
| `Deletion.RunsAreBounded` | locks-service/src/infrastructure/memory/content_lock_deletions.rs:517-605 | over every history of a job between resets, the iterations' logs hold at most retry_max_attempts executions more than deferrals were applied |
| `Deletion.UndeferredRunsAreBounded` | locks-service/src/infrastructure/memory/content_lock_deletions.rs:517-605 | with no applied deferral, at most retry_max_attempts executions between resets |
| `Deletion.BoundIsAttained` | locks-service/src/infrastructure/memory/content_lock_deletions.rs:579-605 | for every number of deferrals a history reaches that bound, so the plain limit fails as soon as one applies |
| `Deletion.LargestLimitIsNone` | locks-service/src/infrastructure/memory/content_lock_deletions.rs:534-535 | with the limit 2^32 - 1 the in-memory repository's saturating count allows any number of executions without a deferral |
| `Deletion.EndedIsNotRun` | locks-service/src/infrastructure/memory/content_lock_deletions.rs:517-605 | over every history without a reset an ended job is never run again |
| `Deletion.ExhaustionEndsTheJob` | locks-service/src/infrastructure/memory/content_lock_deletions.rs:696-729 | the final write of an exhausted job, under the current token, ends it |
| `Deletion.ReadinessRecovery.constructor` | locks-server/src/deletion_worker.rs:262-266 | nothing is degraded at the start |
| `Deletion.ReadinessRecovery.RecordOutcome` | locks-server/src/deletion_worker.rs:268-292 | a source is degraded exactly when the last outcome that mentioned it said unavailable, and the worker exactly when some source is |
| `Deletion.OtherSourcesStay` | locks-server/src/deletion_worker.rs:268-292 | evidence on one source never clears another |
| `Crockford.DecodeEncode` | locks-core/src/ids.rs:64-67 | every byte string survives encoding and decoding, in ceil(8n/5) symbols |
| `Crockford.ParseIdExact` | locks-core/src/ids.rs:547-569 | exactly the texts of the right length over the decoding alphabet parse, to the encoding of the bytes they decode to |
| `Crockford.EncodeParses` | locks-core/src/ids.rs:117-120 | every encoded value parses to itself |
| `Crockford.ParseIdIdempotent` | locks-core/src/ids.rs:95-101 | parsing a parsed identifier changes nothing |
| `Crockford.SameIdIffSameBits` | locks-core/src/ids.rs:153-159 | two texts name the same identifier if and only if they agree on every bit that is kept |
| `Crockford.AlphabetIsInOrder` | locks-core/src/ids.rs:64-67 | the thirty-two symbols are the digits and the capital letters without I, L, O and U, in that order |
| `Crockford.ReadsAsCanonical` | locks-core/src/ids.rs:547-569 | every character reads as its canonical form does, capitals for small letters, 0 for O, 1 for I and L, and is written back as that |
| `Crockford.SpellingIsFree` | locks-core/src/ids.rs:547-569 | of two texts that differ only in case and in O/0, I/L/1, whenever one parses the other does, to the same identifier |
| `LockResource.PathRoundTrip` | locks-core/src/ids.rs:411-457 | every displayed content-lock path parses back |
| `LockResource.ParsePathExact` | locks-core/src/ids.rs:439-457 | exactly the texts /pub/app.locks/, 52 symbols, .json are paths, each of an identifier of 32 bytes |
| `LockResource.ResourceRoundTrip` | locks-core/src/ids.rs:497-545 | parse(display(r)) = r for every addressed lock resource |
| `LockResource.ResourceParseCanonical` | locks-core/src/ids.rs:509-545 | parsing is idempotent through display, and texts parse alike exactly when they display alike |
| `RequestUri.DecodeEncode` | locks-server/src/nexus_http_client.rs:23-42 | percent encoding with either set loses nothing |
| `RequestUri.EncodeIsSegment` | locks-server/src/nexus_http_client.rs:23-42 | the encoded text is a segment of section 3.3 of RFC 3986: plain characters and, for every percent sign, an escape of two hexadecimal digits |
| `RequestUri.LabelIsOneSegment` | locks-server/src/nexus_http_client.rs:460-509 | an encoded valid label is one non-empty well-formed segment that is never a dot segment and decodes to the label |
| `RequestUri.UriFaithful` | locks-server/src/nexus_http_client.rs:460-509 | for distinct participants two valid predicates give the same URI if and only if they are equal; which question each asks is pinned by `RequestUri.UriAsks` |
| `RequestUri.UriAsks` | locks-server/src/nexus_http_client.rs:460-509 | the segment after /v0/user/ decodes to the subject's key, the last segment or viewer_id to the actor's, the label segment to the label, and a relationship answer is expected exactly for a follow |
| `RequestUri.LabelTravelsNormalized` | locks-server/src/nexus_http_client.rs:489-494 | any label travels trimmed and in lower case, and decodes to that |
| `RequestUri.PlainIff` | locks-server/src/nexus_http_client.rs:23-42 | exactly which characters travel unescaped |
| `PaymentAmount.ToAtomicIsExact` | examples/js-sdk/payment-amount.js:11-21 | exactly which texts are accepted, each as its value scaled by 10^digits without rounding |
| `PaymentAmount.AmountRoundTrip` | examples/js-sdk/payment-amount.js:11-33 | every amount from 1 to 2^64 - 1, formatted and stripped of its mark, reads back as itself |
| `PaymentAmount.FormattedReadsBack` | examples/js-sdk/payment-amount.js:23-33 | whatever the formatter accepts is shown as a text that reads back as the same number |
| `PaymentAmount.ShownIsInjective` | examples/js-sdk/payment-amount.js:23-33 | different amounts are never shown alike |
| `ResourceSet.TotalResourceSize` | locks-core/src/lock_policy.rs:90-104 | the checked sum is the true total or an overflow error, exactly when it does not fit |
| `ResourceSet.ValidateV1` | locks-core/src/lock_policy.rs:125-165 | the v1 loops give the verdict that checks all descriptors before the total |
| `ResourceSet.ValidateV2` | locks-core/src/lock_policy.rs:426-468 | the v2 loop gives the verdict of a single pass |
| `ResourceSet.ValidatorsAgree` | locks-core/src/lock_policy.rs:125-165 | both validators accept exactly the acceptable locks, whose total then fits 64 bits |
| `ResourceSet.ValidatorsDifferIff` | locks-core/src/lock_policy.rs:426-468 | their errors differ exactly when sizes overflow before the first flawed secondary |
| `ResourceSet.ValidatorsCanDiffer` | locks-core/src/lock_policy.rs:426-468 | such a lock exists |
| `ResourceSet.FlawMeans` | locks-core/src/lock_policy.rs:638-668 | a descriptor is sound if and only if its path lies properly under the prefix without two dots or two slashes in a row, its type parses and its size is positive; the first thing wrong is the one named |
| `ResourceSet.AcceptedIsSafe` | locks-core/src/lock_policy.rs:125-165 | every resource of an accepted lock is of that kind |
| `ResourceSet.LookupIsExact` | locks-core/src/lock_policy.rs:107-123 | in an accepted lock a lookup finds exactly the one resource at the path, and it is sound |
| `ResourceSet.CountIsExact` | locks-core/src/lock_policy.rs:86-88 | the resource count of an accepted lock is the number of its distinct resources |

## Left out

- HTTP clients, TLS, timeouts, response bodies and Paykit signing: network and library code.
- The entitlement store is assumed to perform each read and each write at one instant, and to perform a write that was given up on at most once, at any later time. Deletion of entries is not modelled, nor is a homeserver that loses them.
- The advisory lock behind the action guard: its mutual exclusion is not modelled, because nothing proved here needs it; acquiring and releasing it is.
- The homeserver reads a v1 entry at a v2 path as an error, the in-memory store as absent: `Publication` allows both.
- Postgres: the port contracts follow the in-memory repositories, except that a retry time is clamped to the deadline as the SQL does; the in-memory graph repository refuses it instead.
- BLAKE3, canonical JSON, serde, MIME and Pubky key parsing: library code, taken as parameters where needed.
- Unicode trimming, lower-casing and scalar counts in graph labels: parameters of `RequestUri`.
- Routing, CORS, bearer parsing, DTO checks, configuration, PKARR publishing and the demo applications.
- `client_ip`: the limiter keys are taken as given.
- Error message texts, and the admission binding fields that never change after a task is created.
- Lease timing in `Publication`: a lease may be reclaimed at any moment, which allows more runs than the code.
- Readiness evidence recorded by the supervisor, and the deletion phases behind the executor's outcome.
- The wave and polling loops around the ticks of both verification workers.
- GraphObservations.JoinObservations: the graph snapshot is a value that the loop replaces, so aliasing of its predicates is not modelled.
- The retry bounds in `TaskLifetime` take the worker's clock and the repository's to agree: a tick starts no earlier than the stored due time and writes no earlier than it ended. With a worker clock that lags behind, a task due at its deadline is rescheduled to the deadline again, and the bound does not hold.
- The Postgres deletion repository counts attempts without saturation and fails to read a count beyond u32; `Deletion` follows the in-memory one.
- Clocks that run backwards where a result names the clock as non-decreasing: preconditions.
- LookupBounds.RetryTooEarlyIsRejected: says nothing of a call rejected by the empty bucket, whose advertised second is not the least wait.
