# Verified model of the SMS gateway backend

The gateway accepts messages over HTTP, keeps them in three priority lanes, and lets a pool of workers send
them through a fleet of phones. This project models the stateful parts of that backend in Dafny and proves
what they keep over every run, in every interleaving the code allows.

Objects that the Go code updates in place are classes whose methods are proved against functions on their state.
Where callers share state without a lock, the same operations are cut at every clock reading, server command and
shared-field access, and a state machine interleaves any number of callers; lemmas connect the two forms
(`LaneFairness.DequeueIsRun`, `RateLimiter.ExchangeIsLimit`, `SchedulerRuns.TickIsRun`,
`BruteForceRuns.UndisturbedIsHandled`, `OtpRuns.UndisturbedIsVerified`). The key-value server is a map of cells
with expiry times (`Redis.dfy`), a stream is a sequence with a group cursor, floating point is `real`, times are
integers handed in by the caller.

| file | models |
|---|---|
| `Lanes.dfy`, `LaneProtocol.dfy`, `LaneFairness.dfy` | priority queue, consumer loop, skip counter |
| `Dispatch.dfy`, `DispatchReport.dfy`, `EndToEnd.dfy` | failover loop for one message, and the loop inside the consumers |
| `RateControl.dfy`, `RateControlHour.dfy`, `RateControlTight.dfy` | per-device minute and hour counters |
| `CircuitBreaker.dfy`, `BreakerHistory.dfy` | breaker records per scope and value |
| `SimHealth.dfy`, `Trend.dfy` | pruned delivery histories, rates, least-squares slope |
| `Template.dfy`, `TemplateOrder.dfy`, `TemplateAnyValue.dfy`, `TemplateJoins.dfy` | replace-all and template rendering |
| `Routing.dfy`, `RoutingWorth.dfy` | scoring, ranking and cutting of devices |
| `Scheduler.dfy`, `SchedulerRuns.dfy`, `SchedulerReach.dfy`, `SchedulerBacklog.dfy`, `SchedulerProgress.dfy` | polling of scheduled messages |
| `Releases.dfy` | app release lifecycle |
| `RateLimiter.dfy`, `BruteForce.dfy`, `BruteForceRuns.dfy` | request limiters and login protection |
| `Otp.dfy`, `OtpRuns.dfy` | one-time codes |
| `PasswordFile.dfy` | broker password file |

## What the proofs found

- As long as increments of the shared skip counter are atomic, the marketing lane is read in some run if and only if
  there are more workers than the anti-starvation ratio. The shipped defaults are three workers and a ratio of ten,
  so then marketing messages are never read; the requirements (docs/requirement.md:257) promise one lower-priority
  job per ten. The counter takes no lock: once an increment falls apart into load and store, two workers are enough
  to get past any ratio, and one worker never gets past a positive one.
- A failed message stays pending for ever. Attempts are counted on a local copy and nothing claims pending
  entries, so after a failing handler run a message can be dead-lettered if and only if its stored attempts are at
  most one short of the maximum. The requirements (docs/requirement.md:635) promise a requeue and dead-lettering
  after the last attempt.
- A dispatch call that finds every candidate's breaker open returns no error, so its message is acknowledged
  without having been sent.
- With the default threshold of one half and multiplier of two, the account breaker can never open.
- Cleaning up SIM histories is invisible exactly when the reading window is no longer than the trend window (or
  is empty); the defaults satisfy this.
- Rendering depends on the map's iteration order exactly when the placeholder of a variable that stands for anything
  else can be put together from the values of the other variables: with values that are templates themselves, when
  one of them holds it; with values of any kind, when at most four of them, around a stretch of the name, make it up.
- The profit_optimized weights add up to 0.8, so its scores never exceed that.
- A failed enqueue of a scheduled message is followed by a second release where a revert was meant; the row stays
  out of schedule, and its message is lost unless another scheduler had already fetched the row.
- A readable scheduled row is certain to be enqueued exactly when fewer than fifty undecryptable rows are scheduled no
  later than it, and can be enqueued exactly when fewer than fifty are scheduled strictly earlier.
- A scheduled row can be enqueued once per scheduler, so never twice exactly when there is at most one scheduler.
- Releasing an app version that is not approved takes the current release away and puts nothing in its place. At
  most one version is ever released exactly when Release calls neither overlap nor fail in their first statement.
- Over serial requests the login protection keeps `2 * maxAttempts` per window exactly when the lockout is no shorter
  than the window (up to one clock unit), or than half the window when the limit is one; the defaults satisfy this.
  `Reset` has no caller in the backend. With n overlapping requests up to n - 1 slip through after the lockout is set.
- With n verifications at a time a one-time code is compared with up to n times as many guesses as the limit says, and
  accepted up to n times; serial ones keep the limit and accept once.
- A request limiter keeps its per-minute limit exactly when no request takes more than sixty seconds between
  reading the clock and being counted.
- The device counters can overshoot: with n workers the most a minute counter reaches is its limit - 1 + n, and
  the most an hour counter reaches is the smaller of its limit - 1 + n and what sixty minutes let through, plus n.
- Removing a user from the password file also drops every line without a colon.

## Model

| member | source | states |
|---|---|---|
| Lanes.Queue.Enqueue | backend/internal/worker/queue.go:75-101 | a known lane's stream grows by exactly this entry at its end, no other stream changes; an unknown lane is an error that changes nothing |
| Lanes.Queue.Dequeue | backend/internal/worker/queue.go:103-149 | stops at the first lane that delivers or errs, every earlier lane having been skipped, empty or rid of one undecodable head |
| Lanes.Queue.DeadLetter | backend/internal/worker/queue.go:155-171 | one record of the message and its lane is appended to the dead-letter stream and nothing else moves |
| Lanes.PassFrame | backend/internal/worker/queue.go:103-149 | for every lane list a pass takes at most one entry per visit of a lane, changes no stream and leaves nothing pending |
| Lanes.DequeueReturnsOldest | backend/internal/worker/queue.go:118-145 | the entry returned is the oldest undelivered one of its lane and the only entry newly pending |
| Lanes.PassedOverBecause | backend/internal/worker/queue.go:107-143 | a lane is passed over only if the counter skipped it, nothing was left to read, or its head could not be decoded |
| Lanes.EmptyMeans | backend/internal/worker/queue.go:103-149 | a pass that returns nothing found every lane skipped, read to its end or with an undecodable head; one that fails met an unknown lane |
| Lanes.SkipCounterMoves | backend/internal/worker/queue.go:107-113 | a skip counts up by one, any other visit of a lane but the one-time codes' sets the count to zero |
| Lanes.ConsumerGets | backend/internal/worker/queue.go:103-149 | the consumer's pass returns the next one-time code if there is one, else the next transactional message, and a marketing message only if neither is there and the ratio is not positive |
| LaneProtocol.EntryIsInOnePlace | backend/internal/worker/queue.go:75-171 | in every interleaving each appended entry is in exactly one of undelivered, pending, acknowledged |
| LaneProtocol.HandledOnceInOrder | backend/internal/worker/queue.go:264-314 | the handler starts at most once per entry, and each lane is handed out in append order without gaps, whatever fails or crashes |
| LaneProtocol.AckNeedsSuccess | backend/internal/worker/queue.go:292-308 | an acknowledged entry was undecodable or its handler run succeeded |
| LaneProtocol.DeadLetterIsNeverAcked | backend/internal/worker/queue.go:295-301 | a dead-lettered entry failed, its record is the stored payload with one attempt more, at or past the maximum, and it is pending, unacknowledged, in every later state |
| LaneProtocol.DeadLetteredIff | backend/internal/worker/queue.go:294-301 | after a failing handler run some continuation dead-letters the entry if and only if its stored attempts are at most one short of the maximum |
| LaneProtocol.DeadStreamIsBurials | backend/internal/worker/queue.go:155-171 | the dead-letter stream holds exactly one record per burial, in order, with its message and lane |
| LaneProtocol.FailedStaysPending | backend/internal/worker/queue.go:295-308 | in every run, an entry whose handler failed stays pending for ever, is never acknowledged, and no later handler run is of it |
| LaneProtocol.FailedCommands | backend/internal/worker/queue.go:115-308 | a failed read ends the pass; a failed acknowledgement or dead-lettering is passed over and leaves its entry pending |
| LaneFairness.MarketingIsStarved | backend/internal/worker/queue.go:107-113 | with no more workers than the ratio the consumer loop never reads the marketing lane, in any run with atomic increments, the test of the counter being a step of its own |
| LaneFairness.MarketingServedIff | backend/internal/worker/queue.go:264-314 | with atomic increments some run reads the marketing lane if and only if there are more workers than the ratio |
| LaneFairness.RacyMarketingServedIff | backend/internal/worker/queue.go:107-113 | with the increment apart into load and store some run does if and only if there are two workers or the ratio is not positive |
| LaneFairness.MarketingCadence | backend/internal/worker/queue.go:107-113 | for one caller of OTP and marketing lanes the tests of the counter are `ratio` skips and one read, in turn, at either grain |
| LaneFairness.DequeueIsRun | backend/internal/worker/queue.go:103-149 | every dequeue of the sequential object is a run of the protocol in which one worker moves alone |
| Dispatch.AttemptDevice | backend/cmd/server/main.go:437-543 | which gate decides for one device, and exactly the effects it leaves, in order |
| Dispatch.ProcessMessage | backend/cmd/server/main.go:430-550 | the loop stops at the first device that gets the message through and otherwise reports the last device's error |
| DispatchReport.ReportsLastError | backend/cmd/server/main.go:435-549 | when nobody gets the message through, the error is that of the last candidate whose breaker was not open, named by the first gate that stopped it, and there is none if all were open |
| DispatchReport.CallLeaves | backend/cmd/server/main.go:436-549 | every effect happens exactly as often as the candidates looked at leave it, given their gates' answers, plus two metrics when all that were tried failed |
| DispatchReport.EffectsInOrder | backend/cmd/server/main.go:436-543 | the effects of earlier candidates come before those of later ones |
| Dispatch.ProcessCounts | backend/cmd/server/main.go:436-549 | at most one publish; success means one device, throttle, sent and usage increment each, failure none; health samples and breaker events agree in successes and failures |
| Dispatch.NilReturnIff | backend/cmd/server/main.go:440-549 | a nil return means one publish or that every candidate's breaker was open, and conversely |
| Dispatch.HealthAndBreakerAgree | backend/cmd/server/main.go:475-523 | in every interleaving of n workers a device's health samples and breaker events differ by at most one per worker in mid-call, and agree when no call runs |
| EndToEnd.PublishedAtMostOnce | backend/cmd/server/main.go:436-549 | with dispatch as the handler, publish by publish and crashes anywhere, each entry is published at most once, and an acknowledged decodable entry was published once or met only open breakers |
| EndToEnd.AllOpenLosesTheMessage | backend/cmd/server/main.go:440-442 | with every breaker open the call reports success to the consumer and publishes nothing |
| RateControl.Manager.CheckDeviceRate | backend/internal/ratecontrol/ratecontrol.go:33-52 | true exactly when both current windows are below their limits |
| RateControl.Manager.IncrementDeviceCounters | backend/internal/ratecontrol/ratecontrol.go:54-67 | both current windows grow by one and live two more window lengths; no other key changes |
| RateControl.DeviceCountersBounded | backend/internal/ratecontrol/ratecontrol.go:33-67 | with n workers stalling at will between clock, check, send and increment, no minute or hour counter exceeds limit - 1 + n |
| RateControl.ExpiryForgetsNothingInUse | backend/internal/ratecontrol/ratecontrol.go:54-67 | until its window and the next are over, the server's count equals all increments ever made |
| RateControlHour.HourCounterBounded | backend/internal/ratecontrol/ratecontrol.go:33-67 | an hour counter also never exceeds what its sixty minutes let through plus one increment per worker carried over |
| RateControlTight.MinuteBoundIsReached | backend/internal/ratecontrol/ratecontrol.go:33-67 | for every pair of limits and number of workers some interleaving reaches the minute bound exactly |
| RateControlTight.HourBoundIsReached | backend/internal/ratecontrol/ratecontrol.go:33-67 | and some interleaving reaches the smaller of the two hour bounds exactly |
| CircuitBreaker.StateManager.RecordFailure | backend/internal/circuitbreaker/circuitbreaker.go:59-91 | this pair's record becomes the specified successor and no other record changes |
| CircuitBreaker.StateManager.RecordSuccess | backend/internal/circuitbreaker/circuitbreaker.go:93-119 | same, for a success |
| CircuitBreaker.StateManager.GetState | backend/internal/circuitbreaker/circuitbreaker.go:121-137 | same, for a query, and the phase reported is the new one |
| CircuitBreaker.KeysAreDistinct | backend/internal/circuitbreaker/circuitbreaker.go:41-43 | pairs share a key if and only if they are equal, as long as scopes hold no colon |
| CircuitBreaker.RecordIsFoldOfOwnEvents | backend/internal/circuitbreaker/circuitbreaker.go:45-168 | over any run of calls each pair's record is the fold of that pair's own events |
| CircuitBreaker.CountersMean | backend/internal/circuitbreaker/circuitbreaker.go:59-119 | the failure counter is the failures since the last close, the trial counter the successes since half-open began |
| BreakerHistory.PhaseFollowsEvents | backend/internal/circuitbreaker/circuitbreaker.go:45-226 | after any calls a pair's phase is the one its own events lead to under its scope's threshold, cooldown and trial count, and a closed record has counted exactly the failures and successes since it last closed or was reset |
| BreakerHistory.FailureOpensIff | backend/internal/circuitbreaker/circuitbreaker.go:59-91 | in every run a failure takes a closed pair out of closed if and only if, with it, more than the threshold's share of the calls since the last close failed |
| CircuitBreaker.ClosingNeedsTrial | backend/internal/circuitbreaker/circuitbreaker.go:99-134 | any reset-free stretch from open to closed holds a query after the deadline and then exactly the required successes, no failure between |
| CircuitBreaker.RateInvariant | backend/internal/circuitbreaker/circuitbreaker.go:75-88 | in every state of every run closed means failures <= threshold * total, and open means more (so the threshold is below one) |
| CircuitBreaker.ClosedMeansBelowIff | backend/internal/circuitbreaker/circuitbreaker.go:75-88 | "closed means at or below the threshold" holds in all runs if and only if the threshold is not negative |
| CircuitBreaker.CanTripIff | backend/internal/circuitbreaker/circuitbreaker.go:75-88 | a scope can leave closed if and only if its threshold is below one |
| CircuitBreaker.DefaultAccountBreakerNeverOpens | backend/internal/circuitbreaker/circuitbreaker.go:197-198 | with threshold 0.5 and multiplier 2.0 the account scope stays closed in every run |
| CircuitBreaker.OpenUntilCooldown | backend/internal/circuitbreaker/circuitbreaker.go:82-134 | while open the deadline is the latest failure plus one cooldown, and a query reports open exactly until then |
| SimHealth.Engine.RecordDelivery | backend/internal/simhealth/simhealth.go:32-40 | the device's history grows by this sample at its end, no other history changes |
| SimHealth.Engine.EvaluateDevice | backend/internal/simhealth/simhealth.go:42-86 | blocked or degraded when the successful samples of the reading window are too few of all its samples, otherwise unchanged; an empty window counts as successful; the slope is that of the samples inside the trend window |
| SimHealth.TrendMeans | backend/internal/simhealth/simhealth.go:88-98 | no trend below ten samples, the slope through all of ten to twenty, and whatever came before the last twenty makes no difference |
| SimHealth.Engine.GetDeliveryRate | backend/internal/simhealth/simhealth.go:121-131 | number of the samples inside the reading window, and the rate that makes up the successful ones; zero when there are none |
| SimHealth.Engine.Cleanup | backend/internal/simhealth/simhealth.go:133-151 | each history keeps exactly its samples inside the trend window, and an emptied one disappears |
| SimHealth.RunsAgree | backend/internal/simhealth/simhealth.go:32-151 | an engine with cleanups inserted anywhere answers every evaluation and rate query like one that never prunes |
| SimHealth.CleanupInvisibleIff | backend/internal/simhealth/simhealth.go:133-151 | that holds for all runs if and only if the reading window is at most the trend window or empty |
| SimHealth.AfterIsSuffix | backend/internal/simhealth/simhealth.go:64-73 | filtering a time-sorted history yields a suffix |
| SimHealth.HistoriesStaySorted | backend/internal/simhealth/simhealth.go:32-40 | under a nondecreasing clock every stored history is time-sorted, pruned or not |
| Trend.CalculateTrend | backend/internal/simhealth/simhealth.go:88-119 | below ten samples no trend, up to twenty the slope through all of them, beyond that the slope through the last twenty whatever came before |
| Trend.DenominatorClosedForm | backend/internal/simhealth/simhealth.go:99-117 | the denominator is n²(n²-1)/12 |
| Trend.SlopeIsLeastSquares | backend/internal/simhealth/simhealth.go:105-118 | the slope with its intercept minimises the squared error over all real lines, uniquely |
| Trend.SlopeBound | backend/internal/simhealth/simhealth.go:117-118 | the slope lies within 3n/(2(n²-1)) of zero |
| Template.ReplaceAll | backend/internal/services/template_service.go:105-121 | the byte loop terminates and computes the leftmost non-overlapping replacement |
| Template.ReplaceIsLeftmost | backend/internal/services/template_service.go:105-121 | the text is cut at its leftmost non-overlapping occurrences and rejoined with the new text |
| Template.PiecesAreUnique | backend/internal/services/template_service.go:105-121 | that cut is unique, so it determines the result |
| Template.OrderedIsSimultaneous | backend/internal/services/template_service.go:96-103 | after any sequence of keys exactly the tokens of those keys are substituted |
| Template.RenderIsSimultaneous | backend/internal/services/template_service.go:96-103 | for brace-free literals, keys and values every iteration order gives the simultaneous substitution |
| Template.RenderTemplate | backend/internal/services/template_service.go:96-103 | the rendering loop, in whatever order the map is iterated, returns that text |
| Template.ReplaceOnTokens | backend/internal/services/template_service.go:98-101 | one replacement changes that variable's tokens and no other text, whatever the value |
| TemplateOrder.HarmlessIsSimultaneous | backend/internal/services/template_service.go:96-103 | the same for values with placeholders, as long as none holds another variable's that stands for something else |
| TemplateOrder.SimultaneousIff | backend/internal/services/template_service.go:96-103 | that condition is exact, both for simultaneous substitution and for independence of the iteration order |
| TemplateJoins.AnyValueIff | backend/internal/services/template_service.go:96-121 | for values of any kind both hold if and only if no four values, with a stretch of the name between them, make up the placeholder of a variable that stands for something else: a finite test |
| Routing.ScoreDevice | backend/internal/routing/routing.go:81-124 | the total is the sum of the reported contributions times the random factor |
| RoutingWorth.StrategiesInNumbers | backend/internal/routing/routing.go:20-110 | under each of the five strategies two devices' base scores lie apart by exactly what a point of reliability or reputation, ten cents, ten seconds and the recipient's country are worth there; costs and latencies are capped; any other name scores like highest_reliability |
| RoutingWorth.PriceOf | backend/internal/routing/routing.go:126-130 | a device is scored at its own price, and free of charge when it has none |
| Routing.BaseScoreInRange | backend/internal/routing/routing.go:20-110 | in-range inputs score between 0.03 and the strategy's total weight, which is at most one |
| Routing.BaseScoreMonotone | backend/internal/routing/routing.go:87-110 | a device no worse in any scored respect never has the smaller base score |
| Routing.JitterNeverReversesIff | backend/internal/routing/routing.go:112-113 | no two draws reverse two positive base scores if and only if the smaller is at most 19/21 of the larger |
| Routing.FilterAndScore | backend/internal/routing/routing.go:151-171 | min(limit, eligible) devices, all eligible, in descending score, none outscored by one left out |
| RoutingWorth.EveryEligibleOnce | backend/internal/routing/routing.go:151-165 | a device is scored as often as it is listed if it is online, not blocked and not degraded as far as that is asked for, and otherwise not at all |
| Routing.ClearlyBetterComesFirst | backend/internal/routing/routing.go:126-171 | whatever is drawn, a device is never ranked above or chosen instead of one with 21/19 of its base score |
| Scheduler.Poller.GetScheduledMessages | backend/internal/services/message_service.go:204-229 | due rows only, earliest first, none left out while there is room or while it is earlier than one returned |
| Scheduler.Poller.ProcessDue | backend/internal/scheduler/scheduler.go:87-164 | one tick handles a batch of the query row by row, with every combination of release and enqueue failures |
| Scheduler.PassMeans | backend/internal/scheduler/scheduler.go:94-154 | an early or undecryptable row and one whose release fails stay as they are; any other is pending and out of schedule, and appended with its decrypted text, its type's lane and age limit unless the enqueue fails |
| SchedulerRuns.EnqueuedAtMostOncePerScheduler | backend/internal/scheduler/scheduler.go:87-164 | with n interleaving schedulers a row is enqueued at most n times and released at most once; an undecryptable row never |
| SchedulerRuns.NeverEarly | backend/internal/scheduler/scheduler.go:94-152 | every job of every run carries its row's text, decrypted if encryption is configured, on the lane and with the age limit of the row's type, released no earlier than scheduled |
| SchedulerReach.EachSchedulerEnqueues | backend/internal/scheduler/scheduler.go:126-152 | for every n some run of n schedulers from the empty table enqueues one row n times |
| SchedulerReach.NoRowTwiceIff | backend/internal/scheduler/scheduler.go:87-164 | no row is enqueued twice in any run if and only if there is at most one scheduler |
| SchedulerRuns.FailedEnqueueIff | backend/internal/scheduler/scheduler.go:126-154 | with any number of schedulers, after a failed enqueue of a readable row it is out of schedule, and some continuation enqueues it if and only if another scheduler has it among the rows it fetched |
| SchedulerRuns.FailedEnqueueLosesTheRow | backend/internal/scheduler/scheduler.go:147-154 | so one scheduler alone never enqueues it, whatever follows |
| SchedulerRuns.PoisonedBatchBlocksForEver | backend/internal/scheduler/scheduler.go:93-124 | fifty undecryptable rows ahead of all others stop every scheduler until one of them is changed |
| SchedulerReach.BlockedIsReachable | backend/internal/scheduler/scheduler.go:93-124 | a run from the empty table leads there, with a readable row due behind them |
| SchedulerProgress.EnqueuedByRound | backend/internal/scheduler/scheduler.go:87-164 | with u undecryptable rows before it a readable row is enqueued, once, within k ticks whenever k * (50 - u) exceeds the readable rows before it |
| SchedulerProgress.GetsThroughIff | backend/internal/scheduler/scheduler.go:87-164 | a readable row is enqueued in every sequence of enough rounds, however ties are broken, if and only if fewer than fifty undecryptable rows are scheduled no later than it |
| SchedulerProgress.MayGetThroughIff | backend/internal/scheduler/scheduler.go:87-164 | some sequence of rounds enqueues it if and only if fewer than fifty are scheduled strictly earlier |
| SchedulerRuns.TickIsRun | backend/internal/scheduler/scheduler.go:87-164 | a query followed by its loop passes is one tick of the object |
| SchedulerBacklog.BacklogDrains | backend/internal/scheduler/scheduler.go:87-164 | a backlog of k due rows is empty after exactly k/50 ticks rounded up, in nondecreasing scheduled time, each row enqueued once |
| Releases.AppReleaseService.Release | backend/internal/services/release_service.go:126-134 | afterwards exactly the named row is released if it was approved or released, and otherwise none is |
| Releases.NewRowIsDraft | backend/internal/services/release_service.go:25-35 | a new row is a draft nobody has approved, rejected or released |
| Releases.RowMovesExactly | backend/internal/services/release_service.go:103-183 | for every statement, which rows it deletes and how it changes each row's status, file, approver, rejecter and release time |
| Releases.PublishingMeans | backend/internal/services/release_service.go:126-134 | a first update that works takes every release back, one that fails changes nothing, and a second update releases its row if that is approved |
| Releases.ReleasedAtMostOverlap | backend/internal/services/release_service.go:126-134 | released rows never outnumber overlapping Release calls plus first updates that failed since one worked; serial callers keep at most one |
| Releases.BoundIsReached | backend/internal/services/release_service.go:126-134 | for every n and number of failed first updates a run from the empty table reaches that sum |
| Releases.OneReleasedIff | backend/internal/services/release_service.go:126-134 | in the runs with at most p overlapping calls and f failed first updates at most one row is ever released if and only if p is zero or p + f is at most one |
| Releases.ReleasedIsApprovedFile | backend/internal/services/release_service.go:103-183 | a released row was submitted, then approved by the account it names, with exactly the file it carries |
| RateLimiter.Limiter.Limit | backend/internal/api/middleware/jwt_rate_limit.go:25-64 | counts and admits within the limit, names the exact seconds to the next minute on rejection, and lets an uncountable request pass |
| RateLimiter.ClientAddressOf | backend/internal/api/middleware/ip_rate_limit.go:68-92 | the first forwarded entry, else the proxy header, else the remote address up to its last colon |
| RateLimiter.LimitHoldsIff | backend/internal/api/middleware/jwt_rate_limit.go:35-64 | each key's admissions stay within the limit in every run if and only if no request waits more than sixty seconds between clock and increment |
| RateLimiter.LateRequestEntersFullMinute | backend/internal/api/middleware/jwt_rate_limit.go:35-48 | a wait of sixty-one seconds lets limit + 1 requests into one minute, for every limit |
| RateLimiter.AdmittedPerAlignedMinute | backend/internal/api/middleware/ip_rate_limit.go:34-63 | with waits of at most sixty seconds each identifier is admitted at most max times per aligned minute, and exactly min(max, hits) times once nothing is in flight |
| RateLimiter.AdmittedPerAnyMinute | backend/internal/api/middleware/api_key_rate_limit.go:35-64 | then any sixty seconds see at most 2 * max admissions by clock reading and 3 * max by counting time |
| RateLimiter.PunctualPerAlignedMinute | backend/internal/api/middleware/jwt_rate_limit.go:35-64 | however long requests wait, those counted before their key is out of use stay within the limit |
| RateLimiter.PunctualPerAnyMinute | backend/internal/api/middleware/jwt_rate_limit.go:35-64 | and so do the bounds of 2 * max and 3 * max in any sixty seconds |
| RateLimiter.ExpiryForgetsNothingInUse | backend/internal/api/middleware/jwt_rate_limit.go:45-48 | the two-minute expiry never forgets a minute that is current or just past, even if expiry commands fail |
| RateLimiter.ExchangeIsLimit | backend/internal/api/middleware/jwt_rate_limit.go:35-64 | a request carried through without interference does what a call of the object does |
| BruteForce.Protector.Protect | backend/internal/api/middleware/bruteforce.go:31-89 | the counters and the decision after one request: the attempts left, the exact seconds of a lockout, the lockout that replaces the counter, and the requests that pass when the server fails |
| BruteForce.TwiceMaxAttemptsIff | backend/internal/api/middleware/bruteforce.go:53-83 | for every limit, every run lets at most 2 * maxAttempts through in any window length if and only if the lockout is at least the window less one clock unit, or half the window for a limit of one |
| BruteForce.TwiceMaxAttempts | backend/internal/api/middleware/bruteforce.go:53-83 | the bound itself, for every run and every limit with a lockout of that length |
| BruteForce.ShortLockoutWithLimitOne | backend/internal/api/middleware/bruteforce.go:53-83 | with limit one and a lockout below half the window three requests fit into one window length |
| BruteForce.ShortLockoutLetsMoreThrough | backend/internal/api/middleware/bruteforce.go:53-83 | with a limit of two or more and a shorter lockout 3 * maxAttempts - 1 requests fit into one window length |
| BruteForce.NothingPassesWhileLocked | backend/internal/api/middleware/bruteforce.go:42-51 | nothing passes while a lockout lives, whatever requests and resets arrive |
| BruteForceRuns.UndisturbedIsHandled | backend/internal/api/middleware/bruteforce.go:42-86 | a request carried through command by command without interference does what a call of the object does |
| BruteForceRuns.OvershootBounded | backend/internal/api/middleware/bruteforce.go:42-83 | with n requests interleaving command by command at most n - 1 pass while a lockout lives |
| BruteForceRuns.OvershootIsReached | backend/internal/api/middleware/bruteforce.go:42-83 | any number of requests up to n - 1 and the limit can pass at the moment the lockout is set |
| BruteForceRuns.LockoutHoldsIff | backend/internal/api/middleware/bruteforce.go:42-83 | a lockout lets nothing through in any run if and only if requests do not overlap, or the limit lets none through at all |
| Otp.OTPService.StoreCode | backend/internal/services/otp_service.go:47-60 | code and attempt counter are replaced together, with one deadline; lockout and other phones stay |
| Otp.OTPService.VerifyCode | backend/internal/services/otp_service.go:70-104 | the store and the verdict after one guess |
| Otp.EachCodeIsGuessedFewTimes | backend/internal/services/otp_service.go:47-104 | each stored code is compared with at most maxAttempts guesses and accepted at most once |
| Otp.AcceptedIff | backend/internal/services/otp_service.go:70-104 | after any history a guess is accepted exactly when unlocked, the latest code is unexpired, unused and under its limit, and the hashes agree |
| Otp.LocksIff | backend/internal/services/otp_service.go:86-98 | a guess locks the phone exactly when it is the last wrong one the code allows |
| Otp.VerdictFollowsHistory | backend/internal/services/otp_service.go:70-104 | each of the verdicts locked, not found, accepted, wrong and wrong with lockout, exactly, from the history of codes and guesses |
| Otp.NothingComparedWhileLocked | backend/internal/services/otp_service.go:74-80 | during a lockout no guess is compared, whatever new codes are stored |
| OtpRuns.UndisturbedIsVerified | backend/internal/services/otp_service.go:70-104 | a verification carried through command by command without interference does what a call of the object does, its guess being recorded exactly when it is compared |
| OtpRuns.GuessesBoundedByWorkers | backend/internal/services/otp_service.go:47-104 | with n verifications interleaving command by command each stored code is compared with at most n * max(maxAttempts, 1) guesses and accepted at most n times |
| OtpRuns.ComparisonBoundIsReached | backend/internal/services/otp_service.go:47-104 | for every n and limit some run compares one code with that many guesses |
| OtpRuns.EachWorkerAccepts | backend/internal/services/otp_service.go:70-104 | for every n some run accepts one code n times |
| OtpRuns.AcceptedOnceIff | backend/internal/services/otp_service.go:70-104 | no code is accepted twice in any run if and only if verifications do not overlap |
| PasswordFile.PasswordFile.RemoveDeviceUser | backend/internal/mqtt/passwordfile.go:76-92 | the file becomes the kept lines joined again |
| PasswordFile.LinesRead | backend/internal/mqtt/passwordfile.go:79-85 | with any blanks around it, a blank line or one with a number sign is a comment, the first colon ends the user's name, and a line without a colon is malformed |
| PasswordFile.FirstLine | backend/internal/mqtt/passwordfile.go:76 | a text is split at its first line feed |
| PasswordFile.JoinUndoesSplit | backend/internal/mqtt/passwordfile.go:76-90 | joining the lines of a text gives the text |
| PasswordFile.SplitUndoesJoin | backend/internal/mqtt/passwordfile.go:76-90 | splitting joined lines gives the lines, or one empty line for none |
| PasswordFile.RemovesExactlyTheUser | backend/internal/mqtt/passwordfile.go:76-90 | the user view loses exactly the removed user's entries and keeps the others in order |
| PasswordFile.CommentsStay | backend/internal/mqtt/passwordfile.go:80-83 | comment and blank lines stay, in order; a file left without lines reads as one blank line |
| PasswordFile.RemoveIsIdempotent | backend/internal/mqtt/passwordfile.go:76-90 | removing twice is removing once |
| PasswordFile.UnchangedIff | backend/internal/mqtt/passwordfile.go:76-90 | the file stays as it is exactly when it has no malformed line and no entry of the user |

## Left out

- Template.ReplaceAll: an empty pattern is excluded; the source loop would not terminate on it, and rendering never passes one.
- TemplateJoins.AnyValueIff: variable names and the template's own text between placeholders hold no braces.
- RateLimiter.Limiter.Limit: the extraction of the account id and API key from the request is not modelled.
- RateLimiter.LimitHoldsIff: in the interleaving model the count command reaches the server; requests that pass because it did not are not admissions.
- BruteForce.Protector.Protect: a failure to set a lockout or an expiry is not modelled, nor in `BruteForceRuns` any other; there the requests are of one client.
- BruteForce.TwiceMaxAttemptsIff: over serial requests; `BruteForceRuns` bounds what passes beside a lockout when they interleave.
- Routing.FilterAndScore: a negative limit is excluded; the source would panic on it. The library sort is any descending order, ties in any order.
- SchedulerRuns.NeverEarly: purging of old rows is not modelled; row ids are never reused.
- Scheduler.Poller.GetScheduledMessages: scan errors and the row columns that do not reach a job are not modelled.
- Releases.AppReleaseService.Create: new rows are drafts, as the only caller creates them; version codes and their uniqueness are not modelled.
- Otp.OTPService.VerifyCode: the metadata table and server failures are not modelled, and the keyed hash is an arbitrary function; in `OtpRuns` the verifications are of one phone and storing a code is one step.
- LaneFairness.RacyMarketingServedIff: consumers do not crash between a test of the skip counter and what it decides.
- Floating-point rounding: rates, scores and slopes are real numbers.
- Stream trimming, claims of stale entries, persistence and expiry of breaker records, their reason and change-time fields: not modelled.
- Server errors on reads and writes are modelled only for reading, acknowledging and dead-lettering in the lane protocol, for the gates of the dispatch loop, for the limiters as said above, for release and enqueue in the scheduler and for the first update of a release.
- The global throttle pair of the rate manager, delivery confidence, fraud rules, webhooks and metrics: inputs or effects of the dispatch loop, not modelled themselves.
- Adding users to the password file and reloading the broker: external programs.
- Idempotency keys, quotas, plan and configuration approval, billing, authentication, encryption, telemetry, configuration loading, HTTP routing, and both user interfaces: not part of this model.
