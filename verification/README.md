# Collection engine: model and proofs

This project models the flight-price collection engine and proves what its moving parts keep over
whole runs: the adaptive rate limiter, the batched result writer and its table, the worker pools,
the retry rounds, the proxy rotator, the refresh back-off, and the proxy URL normaliser.

Each stateful part has the same shape. A datatype holds the fields the Python class updates, step
functions say what the code between two awaits does to them, and a `Run` (or `Repo`, `Pool`,
`Batch`, `Loop`) adds the history that the claims are about. Lemmas about runs quantify over every
sequence of steps, so over every interleaving. Beside them stands a class whose methods are written
as the source writes them, with its loops and early returns; its `Valid` says that the fields are the
last state of a reachable history, so the lemmas hold of every object. The clock, random draws, what
each search attempt meets, probe outcomes and commit outcomes are parameters of the steps.

| file | source |
|---|---|
| `RateWindow.dfy`, `RateLimiter.dfy`, `RateBounds.dfy`, `RateSpacing.dfy`, `RateExact.dfy` | `collector/services/rate_limiter.py` |
| `BatchWriter.dfy`, `WriterRefinement.dfy`, `WriterLiveness.dfy`, `FlushOutcome.dfy`, `Repository.dfy`, `ResultStore.dfy` | `collector/repository.py` |
| `TaskBuilder.dfy`, `TaskFields.dfy`, `SearchBatch.dfy`, `RetryLoop.dfy`, `RetryLadder.dfy`, `RetryCounts.dfy`, `RetryWriter.dfy`, `WholeRun.dfy`, `WholeRunExists.dfy`, `RetryDecided.dfy`, `RetryExamples.dfy` | `collector/services/search_pipeline.py`, `collector/routes.py` |
| `Rotator.dfy`, `RotatorHistory.dfy`, `ValidationPool.dfy` | `collector/proxy/rotator.py` |
| `RefreshState.dfy` | `collector/proxy/refresh_state.py` |
| `ProxySources.dfy`, `ProxyTexts.dfy` | `collector/proxy/sources.py`, `collector/proxy/validation.py` |
| `Prelude.dfy`, `Subsequences.dfy`, `Workers.dfy` | shared vocabulary |

Times are `real`, dates are day numbers (ISO dates of four-digit years sort the same way), and the
clock never goes back.

## What the proofs found

- **Retry rounds 2 and 3 read a lagging table.** `_retry_loop` never flushes between rounds, and the
  writer commits only full batches of 500 on its own (`LagIsRemainder`). Whatever the lag, rounds 1 and
  2 miss no failure, the failures left for round r carry retries 3r, and every round that reads a
  drained store is exact (`FreshLadder`). What the lag does break: a round reads the latest results if
  and only if, for every key in play with a pending result, that result is worth a retry exactly when
  the committed row is, and each half of that decides whether failures are missed and whether keys are
  searched needlessly (`RoundReadsIff`). After a round of fewer than 500 keys the next one searches
  them all again, found or not (`SmallRoundRepeats`); a success can be overwritten by a later failure
  of the same run (`SuccessOverwritten`); and with 251 to 499 keys round 3 can miss failures it should
  retry (`RetryMissed`). What the last flush leaves is always each key's outcome in the last pass that
  searched it (`WholeRunOutcome`).
- **Throughput can reach twice the configured rate.** A reservation empties the bucket but not the
  refill clock, so tokens and reserved slots both flow at full rate. The bound is the sum of the two
  (`ThroughputBound`), and at one call a second it is attained in windows of every length
  (`ThroughputIsTight`). Both kinds together keep to the configured rate if and only if it is below one
  call a second (`SingleRateIff`); from there on they can come twice as fast for as long as one
  likes (`DoubledRate`).
- **The documented spacing of calls rarely holds.** `docs/architecture.md` says that `acquire` waits until
  `1/rate` after the last request, and that 429s halve the rate. That holds of a configuration if and
  only if its rate is below one call a second and can never change (`DocumentedSpacingIff`): otherwise
  a call that meets a halved rate can follow the one before it by the old gap (`HalvedTooClose`). A gap
  of 1/maxRate, whatever the rate does, holds if and only if maxRate is below one call a second
  (`SpacingIff`).
- **Closing can hang.** It ends if the commit made for STOP succeeds or its batch is empty, and with one
  call of `close` only then (`CloseEnds`, `CloseEndsIff`). Otherwise the writer waits on an empty queue
  and `close` never returns (`CloseHangs`). Upserts accepted behind STOP are never written
  (`NothingAfterStop`).
- **A failed commit is not atomic.** The docstring of `_commit` says one transaction, but the
  connection is opened with `isolation_level=None`, which is autocommit, so a failed commit can leave
  any first rows of its batch in the table (`CommitNotAtomic`). The table is unchanged if and only if it
  already held the last of those rows for each of their keys (`FailedCommitLeaves`).
- **`retries` is not always cumulative.** The documents call it the attempts consumed so far. A stored
  row meets that if and only if it is the success of a key never searched before, or the failure of a
  key that every pass so far searched three times (`RetriesCumulativeIff`); in a continue run no failure
  meets it (`ContinueRetriesIff`). Failures that rounds pick from drained stores do
  (`DrainedRetriesCumulative`); in `SuccessOverwritten` a key searched 7 times carries 9.
- **The weight cache can be stale.** Its only key is the pool's length; a park that ends and an eviction
  leave the length equal and the members different (`CacheHitExact`, `StaleWeights`).
- **Some normalised hosts are not the ones probed.** `tcp_alive` strips every bracket at both ends, so it
  connects to the bare host if and only if that has no bracket of its own at an end
  (`StripsToBareIff`); the normaliser lets "a]" through, and the probe connects to "a"
  (`BracketHostLost`).
- `docs/architecture.md` says a low but non-empty pool is fetched anew after 30 minutes and that a
  starved pool bypasses the refill gap; the code orders a refetch only for an empty pool, and the
  bypass ends at the first empty refill (`ForceDecisionFromHistory`, `ApprovalFromHistory`).

## Model

| member | source | states |
|---|---|---|
| RateBounds.ThroughputBound | collector/services/rate_limiter.py:37-54 | In every run, whatever 429s and successes are reported, a closed window of T seconds holds at most maxRate * (T + 1) immediate grants and at most maxRate * T + 1 reserved wake-ups, so at most the sum of both in all. |
| RateBounds.ThroughputIsTight | collector/services/rate_limiter.py:47-53 | That sum is attained: at one call a second some run grants 2T + 2 calls in T seconds, for every whole T. |
| RateSpacing.SpacingIff | collector/services/rate_limiter.py:37-54 | Every run of a configuration keeps all grants at least 1/maxRate apart, whatever the rate does, if and only if maxRate is below one call a second. |
| RateSpacing.DocumentedSpacingIff | collector/services/rate_limiter.py:37-75 | Every run lets each call through no sooner than 1/rate after any call before it, at the rate it meets, if and only if maxRate is below one call a second and minRate equals maxRate. |
| RateSpacing.HalvedTooClose | collector/services/rate_limiter.py:47-75 | For any minRate < maxRate < 1, a run of three calls and enough 429s at one instant in which the third call, at the halved rate, comes only 1/maxRate after the second. |
| RateSpacing.SingleRateIff | collector/services/rate_limiter.py:37-54 | Every closed window of T seconds of every run holds at most maxRate * T + 1 grants of both kinds together if and only if maxRate is below one call a second. |
| RateSpacing.DoubledRate | collector/services/rate_limiter.py:37-54 | At any maxRate of one call a second or more, for every n some run grants 2n + 1 calls in n / maxRate seconds. |
| RateBounds.BurstSchedule | collector/services/rate_limiter.py:40-54 | Of n calls at one instant on a new limiter the first floor(maxRate) return at once and the others wake exactly 1/maxRate apart. |
| RateBounds.BoundedWait | collector/services/rate_limiter.py:47-54 | A waiting caller's wake-up is later than every earlier one, and with m wake-ups still ahead it sleeps more than 0 and at most (m + 1) / minRate, through any rate changes. |
| RateExact.CallFromHistory | collector/services/rate_limiter.py:37-54 | Every call of every run is decided by the calls before it and the rate it meets: it returns at once exactly if it finds a token, and otherwise wakes when the missing part will have been earned, but not before the slot after the latest reservation. |
| RateExact.BurstAtAnyRate | collector/services/rate_limiter.py:40-54 | At whatever rate a run has come to, of n calls at one instant at most floor(rate) return at once, and exactly the first floor(rate) if no call was made in the second before. |
| RateExact.SteadyBound | collector/services/rate_limiter.py:40-46 | While the rate stays at q, at most q * (T + 1) calls return at once in T seconds, from any reachable state on. |
| RateExact.SpacedCallerPasses | collector/services/rate_limiter.py:40-46 | A call made 1/q after the one before it, at a rate q of one call a second or more, returns at once, whatever was reported between. |
| RateExact.RateFromHistory | collector/services/rate_limiter.py:56-93 | The rate becomes max(minRate, rate / 2) exactly when a 429 makes more than 6 * rate in the last 30 seconds of the full history, min(maxRate, 2 * rate) exactly when a success finds none in the last 60, and nothing else moves it. |
| RateWindow.WindowExact429 | collector/services/rate_limiter.py:60-65 | The deque that both methods prune counts exactly the 429s of the full history in the last 30 seconds. |
| RateWindow.WindowExactSuccess | collector/services/rate_limiter.py:80-84 | The pruned deque is empty exactly when the full history has no 429 in the last 60 seconds. |
| RateBounds.PruningIsInvisible | collector/services/rate_limiter.py:56-93 | Over any run the limiter has the same rate, tokens and reservations as one that never prunes and decides on windows of the full history. |
| RateLimiting.InvReaches | collector/services/rate_limiter.py:37-93 | Every step of every run keeps minRate <= rate <= maxRate, 0 <= tokens <= maxRate, grant blocks within their budget and wake-ups at least 1/maxRate apart. |
| RateLimiting.RateLimiter.Create | collector/services/rate_limiter.py:20-35 | Building raises unless both rates are positive and minRate <= maxRate. |
| RateLimiting.RateLimiter.TakeOrReserve | collector/services/rate_limiter.py:40-53 | The body under the lock does what the acquire step says, field by field; `CallFromHistory` says which calls that lets through. |
| RateLimiting.RateLimiter.Acquire | collector/services/rate_limiter.py:37-54 | An acquire extends the object's reachable history by one step and returns the grant recorded for the new call, which `CallFromHistory` decides. |
| RateLimiting.RateLimiter.PopExpired | collector/services/rate_limiter.py:62-63 | The popping loop leaves exactly the pruned deque. |
| RateLimiting.RateLimiter.Report429 | collector/services/rate_limiter.py:56-75 | A 429 report extends the history by one step. |
| RateLimiting.RateLimiter.ReportSuccess | collector/services/rate_limiter.py:77-93 | A success report extends the history by one step. |
| WriterRefinement.WriterRefines | collector/repository.py:188-222 | Without a failed commit, for every interleaving, the accepted upserts are the committed ones, then the batch, then the queue; the table is the last-write-wins fold of the committed prefix and the rest completes it to the fold of all. |
| WriterRefinement.RefinesFrom | collector/repository.py:188-222 | From any state on, what lands in the table is a first part of what was pending and has been accepted since, in order, and the rest is what is pending now. |
| WriterRefinement.FlushGuarantee | collector/repository.py:224-233 | In every reachable state, also after failures, a flush that returned normally has every upsert accepted before it in the table, in order. |
| WriterRefinement.FailureSticks | collector/repository.py:206-212 | Once a commit has failed no upsert is accepted, and no flush that had not yet returned ever returns normally. |
| FlushOutcomes.FlushOutcome | collector/repository.py:224-281 | Over any run from opening, a flush that goes on returns normally if no commit has failed so far and raises if one has, and changes nothing else; an upsert is queued or refused by the same rule. |
| FlushOutcomes.FlushReturns | collector/repository.py:188-233 | From any state of a repository in use there is a run in which a flush called now returns, with everything accepted in the table. |
| FlushOutcomes.UpsertsThenFlush | collector/repository.py:188-233 | Any upserts after opening and a flush: a run in which it returns, and then the table is the fold of the upserts. |
| WriterLiveness.FlushesUnblock | collector/repository.py:191-233 | In any run from opening, whatever fails, the writer makes at most two steps for each call; once it has none left, nothing is unfinished and every flush has been woken, unless it has returned and left items behind STOP. |
| WriterLiveness.StepsBounded | collector/repository.py:191-214 | From any state, the writer's steps plus the work it has left are at most the work it had plus two for each call. |
| WriterLiveness.CloseEnds | collector/repository.py:191-246 | From any reachable state with STOP ahead, over every run, producers included, in which the commits made for STOP succeed, a writer that has no step left has returned; and it has only finitely many steps. |
| WriterLiveness.CloseEndsIff | collector/repository.py:191-246 | With a single call of close, a writer at rest has returned if and only if the commit made for STOP succeeded or was not needed. |
| WriterLiveness.CloseHangs | collector/repository.py:194-214 | A run from opening in which the commit that STOP triggers fails and the writer waits on an empty queue for good. |
| WriterRefinement.FailedCommitLeaves | collector/repository.py:206-222 | A failed commit leaves the first rows of its batch and drops the others; the table is unchanged if and only if it already held the last of those rows for each of their keys. |
| WriterRefinement.CommitNotAtomic | collector/repository.py:216-222 | A run in which one of two flushed rows is in the table, the other is lost, and the flush raises. |
| WriterLiveness.NothingAfterStop | collector/repository.py:235-246 | Once the writer has returned nothing more is committed, whatever is queued behind STOP. |
| WriterRefinement.LagIsRemainder | collector/repository.py:202-205 | n upserts after the table was up to date, a writer that has caught up holds back exactly the last n % 500, so the table is complete exactly when 500 divides n. |
| BatchWriter.InvReaches | collector/repository.py:188-246 | Every reachable state accounts for each queued item exactly once, keeps flush sentinels behind the upserts they cover, and keeps the table equal to its operation log. |
| Repository.SearchRepository.Upsert | collector/repository.py:248-281 | Queues the write, or raises exactly when a commit has failed. |
| Repository.SearchRepository.BeginFlush | collector/repository.py:226-231 | Puts a sentinel covering every upsert accepted so far. |
| Repository.SearchRepository.EndFlush | collector/repository.py:232-233 | Raises exactly when a commit has failed, and the call is recorded as raised or returned accordingly. |
| Repository.SearchRepository.BeginClose | collector/repository.py:239-240 | Puts STOP behind everything queued. |
| Repository.SearchRepository.TakeItem | collector/repository.py:192-205 | One turn of the writer loop up to its next await is the take step of the history. |
| Repository.SearchRepository.EndCommit | collector/repository.py:206-222 | A commit ends with the whole batch in the table, or with a first part of it and the error kept; either way the item is marked done once. |
| Repository.SearchRepository.WriterTurn | collector/repository.py:191-214 | Every turn is one writer step of the history and leaves less work. |
| Repository.SearchRepository.WriterLoop | collector/repository.py:188-214 | Run alone, for any commit failures, the loop comes to rest with nothing unfinished and every flush woken unless it meets STOP; with STOP ahead it ends if the commits made for STOP succeed, and with a single STOP only then. |
| ResultStore.RowLifeCycle | collector/repository.py:283-306 | Over any stores, seeds and purges, a key ever stored holds its last outcome and never counts as unsearched; any other key has a row exactly if seeded since the latest purge, and it is the placeholder. |
| ResultStore.PurgeAndSeedExact | collector/repository.py:283-306 | Over any history a purge leaves exactly the keys ever stored, each with its last outcome; seeding hides no outcome and gives every other key of its own the placeholder; a purge right after a seeding undoes it. |
| ResultStore.FoldAt | collector/repository.py:51-57 | A key holds its last write, or what it held before. |
| ResultStore.FoldAnyOrder | collector/repository.py:51-57 | Writes to distinct keys leave the same table in any order. |
| ResultStore.CountsAddUp | collector/repository.py:339-365 | Successes and failures are the keys with and without success, a per-error group those filed under that error; the first two counts add up to the number of keys and the groups to the failure count. |
| ResultStore.GetFailedExact | collector/repository.py:308-337 | A key is selected if and only if its row is unsuccessful, is filed under a proxy, rate-limit, timeout, connection or data error, departs on or after the given day and is within the given retries, if there is a limit. |
| TaskBuilding.WindowExact | collector/services/search_pipeline.py:79-88 | The dates are the consecutive days from the later of start and today to end. |
| TaskBuilding.PlansExact | collector/routes.py:38-51 | A provider's plans are its supported one-way routes and its supported round trips with each offset, all distinct; 80 without a restriction. |
| TaskBuilding.TaskWindowExact | collector/services/search_pipeline.py:466-531 | With D days one provider gets exactly D * (one-way + 3 * round-trip) tasks, 80 * D for the whole catalogue, one for each supported plan and each day of the window and no others, all with distinct keys if the airports have distinct names without a '|'. |
| TaskFields.TasksExact | collector/services/search_pipeline.py:466-531 | For any providers, a task exists if and only if its departure is from the later of start and today to end and its provider supports its route: one of the sixteen destinations and SIN, either way without a return date, or from SIN with a return 7, 14 or 21 days after the departure. |
| TaskFields.SeedFields | collector/services/search_pipeline.py:496-506 | The i-th seed row has the two airport names of the i-th task joined by the separator, its dates and its type. |
| TaskFields.TasksInOrder | collector/services/search_pipeline.py:508-531 | The tasks come by provider, then the one-way routes in catalogue order, out and back, then the round trips in catalogue order, the shorter first, each with its days in order. |
| TaskBuilding.RouteKeyInjective | collector/services/search_pipeline.py:61-63 | Airport names without a '|', of any lengths, share a route key only if both names are the same. |
| TaskBuilding.BuildTasks | collector/services/search_pipeline.py:508-531 | The nested loops build exactly those tasks for every provider, which `TasksExact` and `TasksInOrder` give field by field, and tasks and seed rows agree index by index. |
| TaskBuilding.EmitDays | collector/services/search_pipeline.py:476-506 | The inner loop appends one matching task and seed row per day. |
| TaskBuilding.YieldSupported | collector/services/search_pipeline.py:66-76 | Yields the supported routes in catalogue order. |
| SearchBatch.ProcessTask | collector/services/search_pipeline.py:190-294 | Whatever the attempts meet, exactly one row is stored after at most three of them: the first flights found with their attempt number, or a failure naming the last error (OTHER after an exception) with retries 3 * (round + 1). |
| SearchBatch.TaskOutcome | collector/services/search_pipeline.py:134-294 | A task comes to what its first attempt to find flights or break, or else its third, meets: flights with the attempts they took, or a failure with 3 * (round + 1) retries, no proxy as NO_PROXY, a rate limit as RATE_LIMITED, a timeout as TIMEOUT, a lost connection as CONNECTION, no flights, a block or bad data as DATA, anything else as OTHER. |
| RetryCounts.RetriesCumulativeIff | collector/services/search_pipeline.py:216-245 | Counting the searches of a whole run, a stored row's retries are the attempts made for its key so far if and only if it is a success of a key never searched before or a failure of a key that every pass so far searched three times. |
| RetryCounts.ContinueRetriesIff | collector/services/search_pipeline.py:216-245 | In a continue run a stored row's retries are the attempts that run made for its key so far if and only if it is a success of a key the run had not searched before. |
| RetryCounts.DrainedRetriesCumulative | collector/repository.py:308-318 | While rounds read drained stores, a key of the run that round r picks has been searched exactly 3r times, as its retries say. |
| SearchBatch.BatchComplete | collector/services/search_pipeline.py:307-357 | For any tasks, worker count, interleaving and outcomes, when all workers have returned each task was taken and finished exactly once and stored exactly one row, the progress count is the total, and no key was searched more than 3 times for each of its tasks; with one task per key the rows are one per key, each going with its 1 to 3 searches. |
| SearchBatch.RunBatch | collector/services/search_pipeline.py:307-357 | The workers, whichever moves next, come to such a finished run over the given tasks, each stored as what it meets. |
| SearchBatch.PassDecided | collector/services/search_pipeline.py:307-357 | Two passes over the same keys in which every task meets the same leave the same table, each key with its own outcome, whatever the workers and their interleaving. |
| SearchBatch.QueueOrder | collector/services/search_pipeline.py:337-349 | A worker that looks for work gets the first task not yet begun and returns if all have been; one that finishes stores one row for its task's key, which is what the task came to. |
| SearchBatch.ConcurrencyBound | collector/services/search_pipeline.py:351-353 | At any moment no more tasks are under way than the concurrency limit or the number of tasks allows, and with both positive there are as many workers as both allow. |
| SearchBatch.BatchProgress | collector/services/search_pipeline.py:337-353 | Every worker that has not returned can move, and every move leaves less to do. |
| SearchBatch.FirstPassLeavesNoPlaceholder | collector/services/search_pipeline.py:587-605 | After purge, seeding and a complete first pass, every key of the run has a row and no row of the whole table is an unsearched placeholder. |
| RetryLadder.FreshLadder | collector/services/search_pipeline.py:601-610 | In a fresh run, whatever older runs left in the table and however far it lags: round 1 is exact, rounds 1 and 2 miss none of the run's failures, the failures left for round r carry retries 3r, and a later round is exact whenever it reads a drained store. |
| RetryWriter.FirstPassDrains | collector/services/search_pipeline.py:587-605 | After purge, seeding, a first pass under any interleaving of workers and writer, and a flush that returns, the store is drained and holds exactly what the pass found, and no row of it is an unsearched placeholder. |
| RetryWriter.RunBegins | collector/services/search_pipeline.py:587-608 | So a run of the writer and the pool begins as the fresh run of the model. |
| RetryWriter.RunGoesOn | collector/services/search_pipeline.py:398-453 | And a round that reads the writer's table and hands over its rows while the writer runs on, on any schedule, is one more round of the model's run. |
| RetryWriter.RoundOfWriter | collector/repository.py:188-222 | Between two reads the writer's rows join the pending ones and some first part of them all reaches the table. |
| WholeRuns.WholeRunOutcome | collector/services/search_pipeline.py:583-614 | A whole fresh run on the writer, with any schedule of workers and writer and any lag but no failed commit: after its last flush nothing is pending, every key of the run has a row, each row is the one stored by the last pass that searched its key or what an older run left, and no key was searched more than 12 times. |
| WholeRuns.LastPassDecides | collector/services/search_pipeline.py:583-614 | If pass p searched a key and no later pass did, the final table holds a row that pass p stored for it. |
| RunExistence.WholeRunExists | collector/services/search_pipeline.py:583-614 | A fresh run can always be brought to its end: from any table, over any distinct keys and whatever each task meets in each pass, a whole run exists in which both flushes return. |
| RetryLadder.LadderExact | collector/services/search_pipeline.py:392-453 | From a drained start, every round that reads a drained store, whatever the earlier ones read, searches exactly the run's covered, not departed keys whose latest outcome is a retryable failure, each with retries 3r, picks no other latest outcome, and every key not worth a search keeps its row. |
| RetryDecided.AttemptedExact | collector/services/search_pipeline.py:398-447 | A round searches a key if and only if its row is unsuccessful, is filed under a proxy, rate-limit, timeout, connection or data error, has at most 3r retries or the run continues an older one, and its departure is neither too early nor past, on a covered route. |
| RetryDecided.NextRoundDecided | collector/services/search_pipeline.py:398-447 | After pass i of a fresh run, a round that reads a drained store searches a key of that pass again if and only if its three attempts found nothing, the third failed in an expected way, and it is still in play. |
| RetryDecided.WholeRunRetries | collector/services/search_pipeline.py:398-453 | In a whole run such a key brings about another round, which searches it unless it has left or lost its provider; a key whose task found flights, failed unexpectedly or broke is not searched by it. |
| RetryLadder.LadderHolds | collector/services/search_pipeline.py:392-453 | From a drained start, whatever the lag, rounds 1 and 2 miss none of the run's failures, and the failures left for every round r carry retries 3r. |
| RetryLadder.FirstPassOnLadder | collector/services/search_pipeline.py:601-608 | After the first pass every failure of the run's own keys that is worth retrying carries retries 3. |
| RetryCounts.AttemptBudget | collector/services/search_pipeline.py:398-453 | With one provider, for anything the attempts meet, any interleaving and any lag, a fresh run searches a key at most 12 times. |
| RetryCounts.BudgetPerTask | collector/services/search_pipeline.py:398-453 | With any providers, a first pass and the rounds after it search a key at most 3 times for each of its tasks in the first pass, and 9 more. |
| RetryCounts.ContinueBudget | collector/services/search_pipeline.py:398-453 | And a continue run at most 9 times. |
| RetryExamples.BudgetIsUsedUp | collector/services/search_pipeline.py:398-453 | A run that searches a key 12 times. |
| RetryLadder.ReadsLatestIff | collector/services/search_pipeline.py:399-402 | When the committed failures are within the round's budget, a round reads the latest results if and only if, for every key in play with a pending result, that result is worth a retry exactly when the committed row is. |
| RetryLadder.CoversIff | collector/services/search_pipeline.py:399-402 | Under the same budget, a round misses no failure if and only if no pending failure is hidden by a committed row that does not show one, and searches nothing needlessly if and only if no committed failure has been settled by a pending result. |
| RetryLadder.RoundReadsIff | collector/services/search_pipeline.py:398-453 | In a fresh run all three hold of every round, with nothing assumed of the lag. |
| RetryWriter.SmallBatchStaysPending | collector/repository.py:202-205 | From a drained writer, a batch of fewer than 500 rows leaves the table as it was at the next read, on every schedule of the writer. |
| RetryWriter.SmallRoundRepeats | collector/services/search_pipeline.py:398-453 | So after a drained round storing fewer than 500 rows the next round searches again exactly its keys that have not departed, including those just found. |
| RetryWriter.SmallRoundReadsIff | collector/services/search_pipeline.py:398-453 | That next round agrees with the results if and only if no row of the small round for a key still in play is a success or a permanent failure. |
| RetryExamples.SuccessOverwritten | collector/services/search_pipeline.py:398-453 | A fresh run in which round 2 overwrites the success of round 1 with its own failure, whose retries say 9 after 7 searches. |
| RetryExamples.RetryMissed | collector/services/search_pipeline.py:398-453 | A fresh run, for any 251 to 499 keys, in which round 3 does not pick keys whose latest outcome is a timeout within the budget, because one full batch of 500 rows has landed. |
| RetryWriter.ViewStep | collector/repository.py:188-222 | Without failures, upserts join the pending results and commits move a first part of them into the table; nothing else changes what rounds read. |
| RetryWriter.FlushDrains | collector/services/search_pipeline.py:605-608 | A flush that returns after the last upsert leaves nothing pending and the table a sequential writer would have left. |
| RetryRounds.LatestAfterRound | collector/services/search_pipeline.py:392-453 | When a round's rows are committed never changes what the results add up to. |
| RetryRounds.RunRound | collector/services/search_pipeline.py:424-453 | The filter loop and the worker pool make a round over exactly the keys it should attempt. |
| RetryRounds.RetryLoop | collector/services/search_pipeline.py:392-453 | Whatever the attempts meet, the loop runs such rounds, at most three, and stops early only when nothing is selected. |
| Rotation.PoolInvariant | collector/proxy/rotator.py:328-380 | After any installs, picks and reports, also on proxies long gone, members have distinct URLs and fewer than three strikes of either kind. |
| Rotation.EvictsExactly | collector/proxy/rotator.py:334-380 | A dead-proxy report, a third 429 or a third stub removes exactly the member reported; an earlier strike removes nobody. |
| RotationHistory.FieldsFromHistory | collector/proxy/rotator.py:334-380 | Until the next install a proxy's stubs and 429s are those it came with plus those reported of it, its park is what its latest 429 among its first two says, and nothing else of it changes, least of all by a report on another proxy. |
| RotationHistory.MembershipFromHistory | collector/proxy/rotator.py:328-380 | Until the next install a member that came with a stubs and b 429s is in the pool if and only if it was never reported dead and a plus its stubs and b plus its 429s are both below three, if the others reported have other URLs. |
| RotationHistory.PoolFromHistory | collector/proxy/rotator.py:328-380 | So if reports are on installed proxies the pool is the installed list, in its order, less those reported dead or three times of one kind. |
| RotationHistory.EligibleFromHistory | collector/proxy/rotator.py:254-262 | And a member may be picked exactly from the end of its latest park on. |
| RotationHistory.InstallExact | collector/proxy/rotator.py:137-144 | After an install the pool is the installed list in its order, with the fields its objects came with; no other proxy changes. |
| RotationHistory.LimitReweighs | collector/proxy/rotator.py:371-374 | The pick after a 429 that does not evict goes by the current shares of the eligible members, whatever parks have ended. |
| RotationHistory.RoundRobin | collector/proxy/rotator.py:137-144 | After an install of proxies that all score 0 and are not parked, the k-th pick is the k-th of the list, over and over. |
| Rotation.EvictedStaysOut | collector/proxy/rotator.py:328-332 | A proxy that is out of the pool is not picked again until a later install. |
| Rotation.ParkLasts | collector/proxy/rotator.py:372-373 | A parked proxy is not picked before its park ends, whatever happens meanwhile. |
| Rotation.PickIsUsable | collector/proxy/rotator.py:254-274 | A pick is a member whose park has ended, there is none exactly if all are parked, the weights are as many as the eligible members, and the bisect index is in range without the clamp. |
| Rotation.CacheHitExact | collector/proxy/rotator.py:263-265 | When the lengths agree, the cached weights belong to the current members exactly if every eligible member was weighed, and so whenever no park ended since. |
| Rotation.SelectionPartition | collector/proxy/rotator.py:271-273 | A draw in (0, total] selects index i exactly if it lies in (cum[i-1], cum[i]]. |
| Rotation.PickIsWeighted | collector/proxy/rotator.py:254-274 | If no park ended since the last weighing, a pick returns the i-th eligible member exactly if the draw falls in that member's share of the scores. |
| Rotation.StaleWeights | collector/proxy/rotator.py:263-273 | A reachable state in which a draw inside the first member's share returns the second. |
| Rotation.ProxyRotator.RecomputeWeights | collector/proxy/rotator.py:163-171 | The loop leaves the prefix sums of the scores and their total. |
| Rotation.ProxyRotator.SetPool | collector/proxy/rotator.py:137-144 | An install extends the history by one step. |
| Rotation.ProxyRotator.ChooseUsable | collector/proxy/rotator.py:254-274 | The selection body does what the pick step says, field by field. |
| Rotation.ProxyRotator.PickProxy | collector/proxy/rotator.py:285-286 | A pick extends the history by one step and logs its choice. |
| Rotation.ProxyRotator.ReportFailure | collector/proxy/rotator.py:334-342 | A dead-proxy report extends the history by one step, after which that proxy is out and no field has changed. |
| Rotation.ProxyRotator.ReportStub | collector/proxy/rotator.py:344-355 | A stub report extends the history by one step: it counts one stub of that proxy, and only the third takes it out. |
| Rotation.ProxyRotator.ReportRateLimited | collector/proxy/rotator.py:357-380 | A 429 report extends the history by one step: it counts one 429 of that proxy, the third takes it out, and an earlier one parks it for the given seconds. |
| ValidationPool.NoWorkerStuck | collector/proxy/rotator.py:84-115 | In every reachable state every worker that has not returned can move: the sentinels never run out before the workers do. |
| ValidationPool.StepsRunOut | collector/proxy/rotator.py:84-115 | Every step of every schedule leaves less to do, so every validation ends. |
| ValidationPool.AtMostOnce | collector/proxy/rotator.py:88-99 | No candidate is validated twice, the accepted ones are exactly the good ones validated, each once, and at most target + n - 1 of them. |
| ValidationPool.AllValidated | collector/proxy/rotator.py:88-115 | If the target is absent or not reached, every TCP-alive candidate has been validated when the workers have returned. |
| ValidationPool.QueueOrder | collector/proxy/rotator.py:84-99 | A worker at the top of its loop returns if the target is met, else takes the first candidate not yet begun, and returns if all have been; a candidate is accepted exactly if its probe succeeds. |
| RefreshBackoff.ForceOrdersSpaced | collector/proxy/refresh_state.py:45-62 | Whatever recoveries lie between, force orders i and j are more than j - i minutes apart, and one that ends a streak of k empty refills comes more than the k-th rung after the order before it. |
| RefreshBackoff.ForceDecisionFromHistory | collector/proxy/refresh_state.py:51-62 | A refetch is ordered exactly if the outcome is empty and the latest order, if any, is older than 60, 120, 300 or 600 seconds for the first, second, third or a later empty refill in a row. |
| RefreshBackoff.CountersFromHistory | collector/proxy/refresh_state.py:51-62 | The counters are how many refills in a row left the pool empty and how many of those ordered a refetch. |
| RefreshBackoff.ApprovalFromHistory | collector/proxy/refresh_state.py:36-43 | A refill is approved exactly if 5 seconds have passed since the latest approval, or the pool is low and the latest refill was not empty. |
| RefreshBackoff.ApprovalsSpaced | collector/proxy/refresh_state.py:37-43 | While the latest refills were empty, approvals are at least the gap apart however starved the pool is. |
| RefreshBackoff.RefreshState.ShouldRefill | collector/proxy/refresh_state.py:29-43 | Extends the object's reachable history by one step and approves exactly when that records an approval. |
| RefreshBackoff.RefreshState.RefillResult | collector/proxy/refresh_state.py:45-62 | Extends the object's reachable history by one step and orders a refetch exactly when that records an order. |
| ProxySources.NormaliseIsCanonicalising | collector/proxy/sources.py:98-140 | Every result is a canonical URL, and a text is left alone, under any protocol, exactly if it is canonical. |
| ProxySources.NormaliseTwice | collector/proxy/sources.py:98-140 | Normalising a result again under any protocol returns it unchanged. |
| ProxyTexts.NormaliseExact | collector/proxy/sources.py:98-140 | A text, whatever blanks stand around it, is read as a URL if and only if what stands before its first "://", or the list's protocol if it has none, is http, https, socks4 or socks5, in any case before a "://", and the rest is a host, colons, a port from 1 to 65535 and slashes. |
| ProxyTexts.SpelledOut | collector/proxy/sources.py:98-140 | Blanks, a scheme in any case, "://", a host, colons, a port with or without leading zeros, slashes and blanks give the scheme in small letters, the host and the plain port. |
| ProxyTexts.PlainDecimal | collector/proxy/sources.py:140 | The port is printed without leading zeros. |
| ProxySources.ConnectRoundTrip | collector/proxy/validation.py:164-169 | The TCP probe's split of a normalised URL gives back exactly its host, bracketed hosts included, and a port from 1 to 65535, and it connects to the bare host at that port if and only if that has no bracket of its own at an end. |
| ProxySources.StripsToBareIff | collector/proxy/validation.py:169 | Stripping the brackets of a normalised host gives the bare host if and only if that has no bracket of its own at an end. |
| ProxySources.BracketHostLost | collector/proxy/validation.py:164-169 | The address "a]:80" normalises to "http://a]:80", and the probe connects to host "a" at port 80. |
| ProxySources.ParsedAreCanonical | collector/proxy/sources.py:154-166 | Every parsed entry has a canonical URL and is filed under that URL's own scheme. |
| ProxySources.ParseSource | collector/proxy/sources.py:154-166 | The loop yields the contributions of the lines in order, skipping blanks, comments and bad addresses. |
| ProxyTexts.LineAdds | collector/proxy/sources.py:154-166 | One more line adds nothing if it is blank, starts with "#" or cannot be read, and otherwise exactly the proxy it is read as, with its source and that URL's own scheme. |
| ProxySources.FirstWins | collector/proxy/sources.py:184-190 | Dedup keeps the first entry of each URL, in fetch order. |
| ProxySources.Dedup | collector/proxy/sources.py:184-190 | The result has distinct URLs, loses none, and is the first entry of each. |
| ProxySources.ParseAllSources | collector/proxy/sources.py:169-190 | The result has distinct URLs and exactly the URLs of the capped lists, a failed fetch contributing nothing. |
| ProxySources.CapPerSource | collector/proxy/sources.py:177-190 | With a positive cap no source has more than that many entries in the result for each time it is listed. |
| ProxyTexts.CapExact | collector/proxy/sources.py:177-182 | A failed fetch adds nothing, a list no longer than the cap, or any list without one, adds all its entries in order, and a longer one exactly that many of them. |

## Left out

- SQLite, aiosqlite, WAL, file probing, schema migration and `require_existing`: the table is a map and a commit an atomic step that may fail after any first rows.
- HTTP, sessions, TCP probes, echo scoring and `provider.search`: their outcomes are inputs of the steps.
- `_mid_refresh` and the proxy refreshes between rounds: they change the pool, which the retry rounds see only through search outcomes.
- `refresh`, `_refresh_from_cache`, `_apply_valid`, the cache file and the blacklist: they decide which lists are installed; an install of any list with distinct URLs, fewer than three strikes each and no negative score is an input of the rotator.
- `prefilter_tcp_until`: the candidates of the validation pool are the ones it leaves.
- Probability of selection: only the partition of the draws is proved.
- The columns `origin` and `destination` of a row, which its route determines.
- Logging, progress output, the CLI, publishing, and the silver and gold tiers.
- Floating-point rounding: rates, tokens, scores and times are reals.
- Cancellation and failing session construction: workers end only as their loops say.
- ProxySources.ParseAllSources: the network fetch and `random.shuffle` are parameters; a shuffled list is any permutation of the fetched one.
- Python's `int()` also takes underscores and non-ASCII digits in a port; the model takes ASCII digits with an optional sign and surrounding spaces.
- SearchBatch.BatchComplete: assumes the store accepts every row; once a commit has failed rows are dropped and logged.
- RetryCounts.AttemptBudget: assumes one task per key in the first pass, so one provider for each route; `BudgetPerTask` is the bound without that. The ladder and the whole run assume it too.
- TaskBuilding.TaskWindowExact: the flight library's airport names are a parameter, assumed distinct and free of the separator.
- RetryLadder.FreshLadder: speaks of the run's own keys; a key of an older run is picked by every round whose budget covers its retries.
- RotationHistory.MembershipFromHistory: leaves out reports on a proxy object of an older list with the same URL as the member; `list.remove` compares all fields, so such a report can take the member out.
- RetryDecided.WholeRunRetries: speaks of rounds that read a drained store; `RoundReadsIff` says what a lagging read changes.
- RunExistence.WholeRunExists: builds one schedule for each script; the lemmas about whole runs speak of all schedules.
- RateBounds.ThroughputIsTight: the whole sum is attained for a limiter of one call a second; for higher rates `DoubledRate` reaches twice the rate.
- RateLimiting.RateLimiter.Acquire: the source reads the clock itself, as its two report methods do; here the reading is a parameter that never goes back.
