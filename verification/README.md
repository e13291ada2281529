# Parc agent, worker and console: a verified model

The repository manages a fleet of Windows machines: an agent in Go, a backend and a
mail worker in Python, a console in TypeScript. This project models the parts of it that
are protocols or text codecs and proves what their comments and documentation promise.
Each module is one such part:

- `Tokens`: the rotating per-machine token, between the agent's memory, its disk and the
  server's two hashes, with crashes at every point of a write.
- `FileQueue` and `CommandPipe`: the durable queue of command results, and the polling
  loop and worker that share it, cut at every step where the other can run.
- `SlowCache`: the generation-counted cache, the inventory's hash suppression and the
  heartbeats that carry the blocks.
- `Power`: the guard that rations restarts, over commands, boots and agent restarts.
- `Locks`: the two operation locks and any number of goroutines taking them.
- `Download`: the resumable package download against a partial file.
- `Scheduler`: the two mail jobs, their calendar and the settings changes.
- `RateLimit`: the sliding window kept in deques, against the plain history.
- `AutoRefresh` and `Session`: the console's background refresh and its 401 handler, as
  interleavings at each `await`.
- `Args`, `Dn`, `Console`, `Utf8Cut`: the command-line field, distinguished names, console
  output and byte-budget truncation.
- `Elections`: the three "elect one" orders.
- `Basics` and `Text` hold what the others share: `Option`, and Go's white space.

Where the source changes fields, a class holds the same fields and each method's
postcondition gives the new state by a function; the theorems are about that function.
Where several activities interleave, `Apply` takes one atomic step of one of them, `Exec`
a whole run, and the theorems hold for every run, by an inductive invariant.

Five promises turned out not to hold in full. Each has a concrete failing run or input and
the exact condition under which it does hold:

- `joinArgs` is the inverse of `splitArgs` (frontend/src/services/packages.ts:135) only
  when no argument that gets quotes ends in a backslash: `Args.RoundTripExactly`.
- That no restart finds a dead token, the purpose of storing a rotated one before using it
  (agent/internal/agent/token.go:18-23): enrolment switches memory before it stores
  (agent/internal/agent/agent.go:285-289), so that an enrolment whose write fails leaves
  the token it replaced on disk. A run is safe if and only if no enrolment
  is granted while a token is stored; that is so when token.dat can be read at every
  boot, and otherwise for all runs if and only if the server holds re-enrolments for
  approval: `Tokens.SafeExactlyWhen`, `Tokens.NoRunKillsTheToken`,
  `Tokens.LockedFileCanStrandTheDisk`, `Tokens.ApprovalIsTheCondition`.
- `refreshNow` awaits a refresh that began after the call, unless some `refresh` threw
  before its first await: the `finally` then clears `inFlight` before it is assigned, the
  settled promise stays in it, and no refresh begins any more:
  `AutoRefresh.FreshExactlyWithoutThrow`, with a run in `AutoRefresh.ThrowIsReachable`.
- The stable tie-break between antivirus products (agent/internal/collector/avproduct.go:115-117)
  leaves the freshness of the signatures to the enumeration, when entries at the top
  differ in it: `Elections.FreshnessSettledExactly`, `Elections.FreshnessCanFlap`.
- "Escapes kept as written" (agent/internal/collector/directory.go:17-19) fails for a
  component that ends in an escaped space: trimming cuts the escape in two, and the
  parent's DN no longer splits back: `Dn.TrimDanglesExactly`, `Dn.ParentResplitsExactly`,
  `Dn.EscapedSpaceIsCut`.

"Moving the hour must not send a period's mail twice" (backend/app/core/worker.py:281)
does hold, however late the ticks: `Scheduler.MovingTheHourNeverMailsTwice`. What can mail
a period twice is a late tick without any settings change, and exactly when is
`Scheduler.MailsAPeriodTwiceExactlyWhen`.

Assumptions, stated where they are used: the polling loop's requests reach the server in
the order sent, a completed rename is durable, the entropy in the registry is not deleted
and no token is revoked (`Tokens`); the clock advances between two enqueues, and a file
name is its timestamp (`FileQueue`, `CommandPipe`); clocks do not go back (`Power`,
`Scheduler`, `RateLimit`); heartbeats arrive in the order sent (`SlowCache`); the function
refreshed does not itself call `refreshNow` before its first await (`AutoRefresh`).

## Model

| member | source | states |
|---|---|---|
| Tokens.SaveIsAtomic | agent/internal/config/config.go:355-379 | at every point of a save, failing or not, the disk holds the old token or the new one, whole and readable; a failed save leaves the file as it was |
| Tokens.TokenFile.WriteSynced | agent/internal/config/config.go:382-396 | the temporary file is left alone, cut short or complete, as the open, the bytes or the flush fails; the states a crash can leave |
| Tokens.TokenFile.SaveToken | agent/internal/config/config.go:332-342 | the disk goes through exactly the states of `SaveTrace`, for every fault; after a save that succeeds the file holds the token under the entropy, created if it was missing and the rights allow, and an existing entropy is kept |
| Tokens.TokenFile.LoadToken | agent/internal/config/config.go:293-328 | yields the stored token under either protection and never loses it; with the rights to create the entropy and no fault, the file is under the entropy afterwards, a legacy blob included |
| Tokens.TokenFile.ClearToken | agent/internal/config/config.go:348-353 | a missing file is no error; a failed removal keeps the file |
| Tokens.AdoptRotated | agent/internal/agent/token.go:27-35 | the token changes only to an offer that has been stored, and does change to every offer stored |
| Tokens.TokenHolder.RotateToken | agent/internal/agent/token.go:40-57 | memory, client and disk agree after a switch; without one, memory keeps its token and the disk its own |
| Tokens.TokenHolder.DropToken | agent/internal/agent/agent.go:259-265 | forgets the token in memory always, on disk unless the removal fails |
| Tokens.ServeHeartbeatKeepsInv | backend/app/features/machine/token_rotation.py:57-119 | a heartbeat authenticates, promotes the offered token at its first use, and may replace the offer, without any party being left with a dead one |
| Tokens.EnrollKeepsInv | agent/internal/agent/agent.go:268-292 | enrolment, its reply lost or not, under the approval rule or not, keeps the invariant |
| Tokens.SaveFailureKeepsInv | agent/internal/agent/token.go:31-33 | a write that fails at any stage leaves every copy on the server's current token |
| Tokens.SaveStepsAreTheTrace | agent/internal/config/config.go:365-379 | the machine's save steps, stopping at any fault or none, are the disk states of `SaveToken` |
| Tokens.StepKeepsInv | agent/internal/agent/agent.go:232-292 | every step of the agent, the network and the server keeps the invariant that ties memory, disk, requests on their way and the two hashes |
| Tokens.NoRunKillsTheToken | backend/README.md:163-174 | over every run of heartbeats, posts, lost replies, failed writes and crashes, the token in memory and the one on disk are each honoured and no heartbeat gets a 401 |
| Tokens.RestartNeedsNoEnrolment | agent/internal/config/config.go:293-328 | after every run, a restart that finds a token starts with one the server honours and cannot be made to enrol |
| Tokens.RotationCompletes | backend/README.md:163-174 | after every run, a rotation in which nothing fails leaves memory, disk and server with one fresh token and the old one refused |
| Tokens.NoLegacyBlobWhileRunning | agent/internal/config/config.go:317-342 | over every run of a machine whose boots can create the entropy and whose saves do not fail, crashes included, a running agent's token is stored under the entropy |
| Tokens.EnrolmentCompletes | agent/internal/agent/agent.go:268-292 | an enrolment the server grants leaves memory, disk and server with one fresh token |
| Tokens.LostEnrolmentReplaces | backend/app/api/routes/agent.py:544-580 | an enrolment whose answer is lost has still replaced the server's token |
| Tokens.FirstUsePromotes | backend/README.md:171-174 | any first request with the offered token promotes it and the old one is refused from then on; one with the current token changes nothing |
| Tokens.RefusedAgentComesBack | agent/internal/agent/agent.go:232-292 | a refused agent drops its token in memory and on disk, and a granted enrolment gives it a new one everywhere |
| Tokens.LockedFileCanStrandTheDisk | agent/internal/agent/agent.go:285-289 | a run in which token.dat cannot be read at boot and the write of the enrolment that follows fails leaves a dead token on disk |
| Tokens.SafeExactlyWhen | agent/internal/agent/agent.go:268-292 | on any single run no token goes dead at any point if and only if no enrolment is granted while a token is stored |
| Tokens.ApprovalIsTheCondition | backend/app/api/routes/agent.py:544-580 | with boots that may fail to read the file, all runs are safe if and only if re-enrolment needs approval |
| FileQueue.ListingIsSorted | agent/internal/queue/queue.go:111-124 | the listing has every file once, in ascending order |
| FileQueue.ContentsFollowListing | agent/internal/queue/queue.go:111-124 | the abstract queue is the files in the order of the listing |
| FileQueue.EnqueueIsBoundedFifo | agent/internal/queue/queue.go:47-69 | enqueuing appends at the end, dropping the oldest item exactly when the queue is full |
| FileQueue.DepthBound | agent/internal/queue/queue.go:51-53 | a queue within its bound stays within it if and only if it is not the case that it is full, the eviction fails and the write succeeds |
| FileQueue.PeekFindsOldest | agent/internal/queue/queue.go:73-94 | the item found is decodable and older than all others; only corrupt older files are deleted; an unreadable file stops the search |
| FileQueue.PeekSkipsCorrupt | agent/internal/queue/queue.go:81-92 | skipping corrupt entries, removable or not, leaves the sequence of decodable items alone and finds its head, unless a file cannot be read |
| FileQueue.Queue.constructor | agent/internal/queue/queue.go:36-44 | opens the directory as the last process left it; a non-positive bound means 1000 |
| FileQueue.Queue.Enqueue | agent/internal/queue/queue.go:47-69 | the new directory, with failing evictions and writes, and the FIFO it refines without them |
| FileQueue.Queue.PeekOldest | agent/internal/queue/queue.go:73-94 | the loop over the sorted files computes `Peek` |
| FileQueue.Queue.Remove | agent/internal/queue/queue.go:97-101 | removes the named file only; a missing or stuck one is an error |
| FileQueue.FlushQueue | agent/internal/agent/agent.go:751-770 | the loop computes `Flushed`: it stops at a file that cannot be read, delivered or removed |
| FileQueue.FlushKeepsOrder | agent/internal/agent/agent.go:749-770 | whatever fails, what is posted is a prefix of the queue in its order and the rest stays queued, with the last item posted still in front should its file have refused to go; with nothing in the way as many are posted as the server answers |
| FileQueue.StepKeepsInv | agent/internal/queue/queue.go:47-124 | each operation keeps what is returned no newer than what is left, and the depth bound |
| FileQueue.ReplayOrderIsEnqueueOrder | agent/internal/agent/agent.go:749-770 | over every mix of operations with corrupt, locked and undeletable files, every item returned is the one put under its name, in the order they were put, and the depth stays within its bound |
| FileQueue.EverythingComesBack | agent/internal/agent/agent.go:749-770 | replays without trouble return every decodable item in the order of the queue and leave none |
| FileQueue.RotSpoilsOneFile | agent/internal/queue/queue.go:81-92 | a file that rots is the only one the replay loses |
| CommandPipe.StepKeepsOrder | agent/internal/agent/agent.go:513-556 | every step of either goroutine keeps `running` equal to the ids in flight, those distinct, and runs in acceptance order |
| CommandPipe.StoreConserves | agent/internal/agent/agent.go:598-603 | queuing a verdict loses none, even when overflow drops the item being replayed at that moment |
| CommandPipe.UnlinkConserves | agent/internal/agent/agent.go:765-768 | removing a replayed file removes a delivered verdict only |
| CommandPipe.StepConserves | agent/internal/agent/agent.go:564-604 | every step keeps each verdict reached accounted for |
| CommandPipe.NothingRunsTwiceAtOnce | agent/internal/agent/agent.go:510-556 | over every interleaving: `running` is exactly what is queued, executing or being accepted, without repetition; at most 16 wait; starts follow acceptance |
| CommandPipe.NumbersAreFresh | agent/internal/agent/agent.go:562-604 | over every run each verdict number stands for one verdict, those earlier processes left on disk included |
| CommandPipe.NoVerdictVanishes | agent/internal/agent/agent.go:562-604 | over every run each verdict, left on disk by an earlier process or reached since, is received, on disk, dropped by overflow, held by the worker or recorded as lost, and nothing is lost without a crash or a failed write |
| CommandPipe.AcceptIsItsSteps | agent/internal/agent/agent.go:513-537 | one call of `accept` is the three steps the interleavings cut it into |
| CommandPipe.Backlog.Accept | agent/internal/agent/agent.go:513-531 | a duplicate or a full backlog changes nothing; else the id is queued last and marked |
| CommandPipe.Backlog.AcceptAll | agent/internal/agent/agent.go:513-531 | a heartbeat's commands: nothing queued twice, each accepted or in flight unless the backlog is full, order kept |
| CommandPipe.AcceptedExactly | agent/internal/agent/agent.go:513-531 | a command is accepted exactly when it is not in flight and fewer than 16 wait |
| CommandPipe.CommandGoesThrough | agent/internal/agent/agent.go:542-604 | undisturbed, a command offered is run, its verdict delivered and its id released |
| CommandPipe.VerdictIsStored | agent/internal/agent/agent.go:598-603 | a verdict that cannot be posted is put on disk |
| CommandPipe.VerdictIsReplayed | agent/internal/agent/agent.go:749-770 | the oldest verdict on disk is posted when the server answers and then taken off |
| Scheduler.NextIsLeastAligned | backend/app/core/worker.py:172-201 | `daily_at` and `weekly_at` return the least aligned instant strictly after now |
| Scheduler.NextFromAligned | backend/app/core/worker.py:172-201 | from one slot the schedule moves to a later period, and to the very next one when on time |
| Scheduler.SameIsoWeek | backend/app/core/worker.py:220-225 | two days have the same ISO year and week if and only if they lie in the same week from Monday |
| Scheduler.EveryDayHasAnIsoWeek | backend/app/core/worker.py:220-225 | and every day has one |
| Scheduler.YearLength | backend/app/core/worker.py:220-225 | the years those weeks are numbered in have 366 days exactly when leap |
| Scheduler.BuildMailJobs | backend/app/core/worker.py:246-259 | both mail jobs start unserved, at the first slot after now of the hour and the weekday the settings ask for |
| Scheduler.ApplySchedule | backend/app/core/worker.py:274-311 | the jobs re-aimed are exactly the mail jobs whose settings moved, and each is aimed, within a period or two, at a slot of the hour and the weekday now asked for |
| Scheduler.ReaimedAsAsked | backend/app/core/worker.py:287-311 | the digest is re-aimed exactly when the hour moved, the reminder exactly when the hour or the weekday did, no other job ever; and then at the slot asked for |
| Scheduler.ReaimedIsFirstAllowed | backend/app/core/worker.py:297-305 | a re-aim passes over no slot but those of the period already served |
| Scheduler.AlwaysAsAsked | backend/app/core/worker.py:274-340 | over every run of ticks and settings changes a mail job is aimed as the settings in force ask |
| Scheduler.IntervalsAreMeasuredFromRuns | backend/app/core/worker.py:163-169 | a job with an interval is due exactly that long after each of its runs |
| Scheduler.RunDueJobs | backend/app/core/worker.py:325-340 | exactly the due jobs run, in order, and move on |
| Scheduler.RanAimsAtTheNextSlot | backend/app/core/worker.py:325-340 | a run aims its mail job at the least slot after now |
| Scheduler.ReaimSkipsThePeriod | backend/app/core/worker.py:281-305 | where a settings change aims a job lies in a later period than its last run, however late that run was |
| Scheduler.ReaimKeepsInv | backend/app/core/worker.py:297-311 | so every settings change that moves a job keeps the invariant and skips the period last run in |
| Scheduler.MovingTheHourNeverMailsTwice | backend/app/core/worker.py:281-285 | over whole runs, any two runs with a settings change between them that moved the job lie in strictly increasing periods, whatever the lateness |
| Scheduler.TickKeepsInv | backend/app/core/worker.py:325-340 | a run serves a later period than any before it and aims at a later one still |
| Scheduler.NoPeriodIsDueTwice | backend/app/core/worker.py:274-340 | for every sequence of ticks and settings changes, the due instants served lie in strictly increasing days or ISO weeks |
| Scheduler.NoPeriodIsMailedTwice | backend/app/core/worker.py:158-160 | hence no period is mailed twice when each run happens in the period it came due |
| Scheduler.DueAgainExactlyWhenLate | backend/app/core/worker.py:325-333 | a run leaves its job due again in the same period if and only if it ran before that period's slot, and then at that slot |
| Scheduler.MailedAgainExactlyWhen | backend/app/core/worker.py:325-333 | after any run of any trace, another one follows in the same period if and only if it came before the period's slot, a later tick comes between the slot and the end of the period, and no settings change re-aims the job before |
| Scheduler.MailsAPeriodTwiceExactlyWhen | backend/app/core/worker.py:325-333 | a process mails some period twice if and only if one of its ticks is such a late one |
| Scheduler.LateTickMailsADayTwice | backend/app/core/worker.py:325-333 | the condition can be met: a worker held up past midnight mails one day twice |
| RateLimit.RateLimiter.Allow | backend/app/core/ratelimit.py:35-49 | the deques and the answer after one call, with the sweep above 1024 keys |
| RateLimit.RateLimiter.Sweep | backend/app/core/ratelimit.py:51-56 | every deque is expired and the empty ones are deleted |
| RateLimit.StepRefines | backend/app/core/ratelimit.py:35-56 | one call answers as the count over the full history does and keeps the deques its trimmed suffixes, swept or not |
| RateLimit.RunRefines | backend/app/core/ratelimit.py:35-56 | so does every run, from any refining state and with sweeps anywhere |
| RateLimit.AnswersAreTheWindowCount | backend/app/core/ratelimit.py:27-49 | a call is allowed exactly when fewer than the maximum of earlier accepted calls for its key fall in the last window |
| RateLimit.SweepLeavesOnlyLiveKeys | backend/app/core/ratelimit.py:45-56 | after a sweep every key left has an accepted call inside the window |
| SlowCache.StoreBetweenStaysPending | agent/internal/agent/cache.go:33-63 | a reading stored between `pending` and `markSent` is still pending; without one nothing is |
| SlowCache.StateCache.Store | agent/internal/agent/cache.go:33-41 | a reading starts a new generation; nil changes nothing |
| SlowCache.StateCache.TakePending | agent/internal/agent/cache.go:45-52 | the latest reading and its generation, unless acknowledged |
| SlowCache.StateCache.MarkSent | agent/internal/agent/cache.go:57-63 | an acknowledgement never goes back |
| SlowCache.Inventory.Collect | agent/internal/agent/inventory.go:83-110 | stores a reading exactly when it could be read and its hash is new or missing |
| SlowCache.Inventory.Scan | agent/internal/agent/inventory.go:122-136 | stores whatever the hash says |
| SlowCache.StepKeepsInv | agent/internal/agent/inventory.go:83-136 | every step of collection, heartbeat, network and restart keeps the cache, the blocks on their way and the server's reading in order |
| SlowCache.NothingPendingMeansServerHasIt | agent/internal/agent/cache.go:43-63 | over every interleaving, when nothing is pending the server holds the reading most recently stored |
| SlowCache.SuppressionIsSafe | agent/internal/agent/inventory.go:99-103 | a reading suppressed by its hash equals in hash one the server holds or the next heartbeat carries |
| SlowCache.ServerNeverGoesBack | agent/internal/agent/cache.go:55-63 | the server's reading is never replaced by an older one |
| SlowCache.OneAnswerDelivers | agent/internal/agent/cache.go:43-63 | from every reachable point of a process that has stored something, with any heartbeats still on their way, one answered heartbeat delivers everything stored before it |
| SlowCache.SuppressedExactlyWhenUnchanged | agent/internal/agent/inventory.go:83-136 | after a reading is stored, the next one is suppressed exactly when its hash is the same and not empty, and a forced scan never is |
| SlowCache.RestartForgets | agent/internal/agent/cache.go:43-63 | a restarted agent has nothing pending and sends its first reading |
| Power.PowerGuard.AllowNow | agent/internal/agent/power.go:92-122 | the verdict from the process's memory first, then from the uptime, an unreadable uptime refusing nothing |
| Power.PowerGuard.MarkScheduled | agent/internal/agent/power.go:125-130 | remembers the instant and the kind |
| Power.PowerGuard.PendingNow | agent/internal/agent/power.go:141-151 | names the action still pending, for five minutes |
| Power.PowerGuard.RunPowerAction | agent/internal/agent/agent.go:700-715 | a refused or failed scheduling leaves the guard unchanged |
| Power.StepKeepsInv | agent/internal/agent/power.go:92-151 | every command, boot and restart keeps the spacing of what was accepted and what the guard knows of it |
| Power.SpacedWhenRemembered | agent/internal/agent/power.go:92-122 | an action is cleared ten minutes or more after the start of any earlier one the guard has evidence of; two of one process start ten minutes or more apart |
| Power.NoRebootLoop | agent/internal/agent/power.go:110-121 | with uptime readable and memory lost only at boots, any two accepted actions of a run lie ten minutes apart, from start to clearance across boots and from start to start within a process |
| Power.NothingBeginsBeforeGoingDown | agent/internal/agent/agent.go:571-579 | no command begins within five minutes of an action accepted by the same process |
| Power.GuardReopens | agent/internal/agent/power.go:92-130 | after every run, ten quiet minutes are enough for the next action to be taken, uptime readable or not |
| Power.VerdictExactly | agent/internal/agent/power.go:92-122 | the three verdicts of the guard, to the nanosecond, from what it remembers and the uptime |
| Power.CommandsResume | agent/internal/agent/agent.go:564-587 | from every reachable point with a free worker, five minutes are enough for commands to begin again |
| Power.AssumptionsNeeded | agent/internal/agent/power.go:110-114 | runs that show neither assumption can be dropped |
| Locks.StepKeepsInv | agent/internal/agent/wu.go:54-135 | each lock is held by exactly the goroutine whose position says so, at most one |
| Locks.OperationsNeverOverlap | agent/internal/agent/agent.go:820-825 | over every run no two Windows Update or installer operations overlap, nor two inventory readings, and no goroutine waits for `wuOp` holding a lock |
| Locks.SomebodyMoves | agent/internal/agent/agent.go:823-842 | in every consistent state with a busy goroutine some goroutine can move |
| Locks.NoDeadlock | agent/internal/agent/inventory.go:83-136 | no reachable state is a deadlock, for any number of goroutines, and every move brings the agent closer to idle |
| Locks.EveryScheduleDrains | agent/internal/agent/wu.go:54-135 | any schedule of moves ends within a fixed count, and where nobody can move all are idle and both locks are free |
| Locks.JobsOperate | agent/internal/agent/agent.go:814-844 | each job, its locks free, operates with exactly the locks it needs and gives them back |
| Locks.TakenLocksAreWaitedFor | agent/internal/agent/wu.go:54-135 | nobody goes past a lock that is taken |
| Download.FetchPackageFile | agent/internal/api/client.go:177-223 | the file and the error after each status code and each failure of the local file, by `Fetched`, whose outcome `OutcomeOfExchange` gives from the response alone |
| Download.OutcomeOfExchange | agent/internal/api/client.go:192-222 | which exchanges are worth another attempt: no answer, a cut, 416, 429 and 5xx, with the delay the server asks for, else a minute; final are only a failing local file and any other status |
| Download.FetchLoop | agent/internal/deploy/download.go:46-64 | the retry loop computes `Attempts`, in at most 20 fetches |
| Download.Download | agent/internal/deploy/download.go:39-74 | succeeds only when size and hash match, fetches nothing when they already do, removes a file whose hash differs, under every failure of the local file |
| Download.ExchangeKeepsPrefix | agent/internal/api/client.go:192-222 | an honest 200, 206, 416 or 429, cut or not, keeps a prefix a prefix whatever the local file does, and one without error completes the file |
| Download.HonestRunKeepsPrefix | agent/internal/deploy/download.go:46-111 | so does every attempt of every run, which without error ends with the true content |
| Download.WholeAnswerFinishes | agent/internal/deploy/download.go:76-111 | from any prefix, one whole answer finishes the download |
| Download.DownloadGetsThrough | agent/internal/deploy/download.go:46-111 | any honest mix of no answer, cuts, 416, 429 and 5xx followed by one whole answer within the twenty attempts ends without error and with the true content, from any prefix |
| Download.ProgressIsKept | agent/internal/api/client.go:192-222 | no attempt gives up bytes already received unless the server sends the whole file anew or denies the range |
| Download.RetriesAreBounded | agent/internal/deploy/download.go:46-64 | with any fetcher: one fetch an attempt at most, a wait between any two, every wait taken when the attempts run out, none of them zero or over five minutes without having been asked for |
| Download.WaitsDouble | agent/internal/deploy/download.go:46-64 | where nothing is asked for the k-th wait is k doublings, or five minutes |
| Download.AskedIsHonoured | agent/internal/deploy/download.go:55-64 | a delay asked for is the one waited and is no doubling |
| AutoRefresh.Refresher.RunOnce | frontend/src/composables/useAutoRefresh.ts:97-114 | joins the refresh in flight or begins one, a synchronous throw included |
| AutoRefresh.Refresher.OnTick | frontend/src/composables/useAutoRefresh.ts:116-123 | a tick is skipped when paused, remembered when hidden |
| AutoRefresh.Refresher.OnVisibilityChange | frontend/src/composables/useAutoRefresh.ts:125-130 | a missed tick is caught up or, when paused, forgotten |
| AutoRefresh.Refresher.RefreshNow | frontend/src/composables/useAutoRefresh.ts:148-158 | up to the first await: timer stopped, the refresh in flight awaited or a new one begun |
| AutoRefresh.Refresher.Resume | frontend/src/composables/useAutoRefresh.ts:158-162 | after each await: ask for an own refresh, then restart the timer |
| AutoRefresh.NeverTwoRefreshes | frontend/src/composables/useAutoRefresh.ts:95-114 | at every point of every run at most one refresh is running |
| AutoRefresh.RefreshNowIsFresh | frontend/src/composables/useAutoRefresh.ts:148-163 | any number of concurrent calls each resolve after a refresh that began after the call has finished |
| AutoRefresh.ThrowIsTheEnd | frontend/src/composables/useAutoRefresh.ts:98-112 | after a synchronous throw no refresh begins again |
| AutoRefresh.PressAfterThrow | frontend/src/composables/useAutoRefresh.ts:148-163 | and a call made then resolves stale: the run that shows it |
| AutoRefresh.ThrowIsReachable | frontend/src/composables/useAutoRefresh.ts:97-114 | one press with a refresh that throws at once reaches that state, and two more steps break the promise |
| AutoRefresh.FreshExactlyWithoutThrow | frontend/src/composables/useAutoRefresh.ts:97-163 | from every reachable state all continuations are fresh if and only if no refresh has thrown synchronously |
| AutoRefresh.ReturnCatchesUp | frontend/src/composables/useAutoRefresh.ts:125-130 | coming back to the tab has a refresh in flight, unless paused |
| AutoRefresh.TickRefreshes | frontend/src/composables/useAutoRefresh.ts:116-130 | a tick leaves a refresh in flight when the page is visible and not paused, and a remembered one is made up for on return; paused or stopped, it does nothing |
| AutoRefresh.PauseHoldsBack | frontend/src/composables/useAutoRefresh.ts:116-130 | paused, neither a tick nor the return begins a refresh; a pause that has ended leaves no mark |
| AutoRefresh.PressStopsTheTimer | frontend/src/composables/useAutoRefresh.ts:148-150 | no tick comes while a call waits |
| AutoRefresh.PressIsAnswered | frontend/src/composables/useAutoRefresh.ts:148-163 | from every reachable point without a throw a call resolves with its own refresh once that and the one before it have settled, and the timer runs again |
| Session.SingleFlight.Call | frontend/src/services/session.ts:60-70 | callers share the run in flight and a new one starts only when there is none: the step `Join` of the machine |
| Session.SingleFlight.Finally | frontend/src/services/session.ts:64-66 | a settled run leaves the slot free: the step `ClearFlight` |
| Session.RequestConfig.OnError | frontend/src/services/session.ts:119-129 | rethrow, give up or await, each exactly when the handler does, and the step `DoAnswer` of the machine |
| Session.RequestConfig.AfterRefresh | frontend/src/services/session.ts:128-136 | marked and replayed, or given up when the refresh was rejected: the step `DoResume` |
| Session.StepKeepsInv | frontend/src/services/session.ts:60-137 | every step keeps each request's sends, refresh and outcome consistent |
| Session.OneRefreshTwoSends | frontend/src/services/session.ts:52-70 | at every point of every run at most one refresh is outstanding and every request has been sent once or twice |
| Session.LostExactlyWhen | frontend/src/services/session.ts:106-137 | over every run: one declaration of loss for each request that ended so and no other; a request did so exactly when the refresh it awaited ended in failure or its replay got a 401, and was sent twice exactly when that refresh ended in success |
| Session.OutcomesAreTheEvents | frontend/src/services/session.ts:128-135 | over every run the outcome held for a refresh is the one it ended with |
| Session.ExpiredRequestGetsThrough | frontend/src/services/session.ts:106-137 | a request with an expired token is refreshed, sent once more and answered, with no loss |
| Session.AwaitsAFreshRefresh | frontend/src/services/session.ts:119-129 | the refresh a 401 waits for had not ended when it came |
| Session.ChecksShareTheRefresh | frontend/src/services/session.ts:144-152 | a session check joins the refresh in flight or starts the one others share |
| Session.StepsDecrease | frontend/src/services/session.ts:116-137 | every step of the handler uses up a finite budget |
| Session.HandlerTerminates | frontend/src/services/session.ts:116-137 | and one can be taken as long as a request is unfinished |
| Args.SplitArgs | frontend/src/services/packages.ts:108-133 | the loop over four variables computes `Split` |
| Args.TypedLineSplits | frontend/src/services/packages.ts:103-133 | any typed line, of arguments mixing visible text, quoted text and escaped quotes, with any white space between and around them, splits into exactly those arguments |
| Args.WordsSplit | frontend/src/services/packages.ts:103-133 | plain words split into themselves, however much white space is typed |
| Args.EmptyArgumentsAreQuoted | frontend/src/services/packages.ts:118-130 | on every line each empty argument costs a pair of bare quotes, the last of which may be missing; none without quotes |
| Args.RoundTripExactly | frontend/src/services/packages.ts:108-140 | splitting a joined list gives the list back if and only if no argument that needs quotes ends in a backslash |
| Args.ScanBackslashes | frontend/src/services/packages.ts:113-130 | whatever the line, reading it loses one backslash per backslash-quote pair and no other |
| Args.JoinThenSplitLosesOnePerSpoiled | frontend/src/services/packages.ts:108-140 | the round trip loses exactly one backslash per argument of the failing family |
| Args.JoinInjective | frontend/src/services/packages.ts:136-140 | two good lists shown as the same line are the same |
| Args.SpoiledExample | frontend/src/services/packages.ts:135-140 | a folder path with a space and a final backslash does not survive |
| Dn.SplitDN | agent/internal/collector/directory.go:20-43 | the loop computes `Split` |
| Dn.RdnValue | agent/internal/collector/directory.go:48-64 | the loop computes `Value` |
| Dn.ScanCounts | agent/internal/collector/directory.go:20-43 | one component per unescaped comma, and one more |
| Dn.ResplitExactly | agent/internal/collector/directory.go:20-43 | trimmed components joined with commas split back if and only if none but the last ends in a dangling backslash |
| Dn.PiecesAreTheText | agent/internal/collector/directory.go:20-43 | the text between bare commas: joined it is the DN, and no escape is open at a cut |
| Dn.TrimDanglesExactly | agent/internal/collector/directory.go:17-19 | trimming a component cuts an escape in two if and only if it ends in an escaped space |
| Dn.ParentResplitsExactly | agent/internal/collector/directory.go:70-80 | for every DN, the parent's DN splits back into its components if and only if none between the first and the last, as written, ends in an escaped space, and what follows the first is not a single blank component |
| Dn.EscapedSpaceIsCut | agent/internal/collector/directory.go:33 | a unit whose name ends in an escaped space loses it, and the parent's DN no longer splits back |
| Dn.WrittenNamesRoundTrip | agent/internal/collector/directory.go:17-80 | values with commas and backslashes escaped: components, values and the parent's tail all come back |
| Dn.ValueOf | agent/internal/collector/directory.go:48-64 | no `=`, no value; a backslash gives the character after it, whatever it is, once |
| Dn.OrganisationalUnit | agent/internal/collector/directory.go:70-80 | which attribute types name a unit |
| Console.NormalizeConsoleOutput | agent/internal/collector/maintenance.go:233-256 | the loop computes `Normalize` |
| Console.NormalizeIdempotent | agent/internal/collector/maintenance.go:233-256 | on every string, normalising twice is normalising once |
| Console.NormalizedLines | agent/internal/collector/maintenance.go:233-256 | on every string: no carriage return, no two empty lines in a row, no line ending in a space or tab |
| Console.NormalTextIsKept | agent/internal/collector/maintenance.go:233-256 | text already in that form is left as it is |
| Console.RedrawnLineIsItsLastFrame | agent/internal/collector/maintenance.go:239-241 | what was drawn on a line before its last carriage return makes no difference to the result |
| Console.TrailingBlanksGo | agent/internal/collector/maintenance.go:242-246 | spaces and tabs ending a line make no difference, and exactly they are dropped |
| Console.EmptyLinesReadAsOne | agent/internal/collector/maintenance.go:247-256 | any number of empty lines between two texts reads as one |
| Console.WindowsLineEndsReadPlain | agent/internal/collector/maintenance.go:233-238 | a Windows line end reads as a plain one |
| Console.OnlyTheEndsAreTrimmed | agent/internal/collector/maintenance.go:233-256 | of empty lines before a text in that form nothing remains, and of it everything |
| Utf8Cut.TruncateOutput | agent/internal/collector/maintenance.go:276-290 | the loop computes `Repaired`, then appends the notice |
| Utf8Cut.EncodedIsOneRune | agent/internal/collector/maintenance.go:283 | the grammar of RFC 3629 section 4 reads back what its section 3 encodes |
| Utf8Cut.GrammarIsTheEncoder | agent/internal/collector/maintenance.go:283 | and reads nothing else: what it takes for a character is the encoding of a code point |
| Utf8Cut.WholeTailIsGood | agent/internal/collector/maintenance.go:282-286 | the loop stops on valid text |
| Utf8Cut.PartTailIsBad | agent/internal/collector/maintenance.go:282-287 | and goes on while part of a character is left |
| Utf8Cut.KeptIsLongestValidPrefix | agent/internal/collector/maintenance.go:271-290 | what is kept of valid text is the longest valid prefix within the budget and gives up three bytes at most |
| Elections.ElectOne | agent/internal/collector/network.go:77-88 | the loop with a running best computes `Elect` |
| Elections.ElectIsMaximum | agent/internal/collector/network.go:71-88 | the elected candidate is usable and outranked by none; none is elected only when none is usable |
| Elections.ElectionIgnoresOrder | agent/internal/collector/network.go:77-96 | two enumerations of the same candidates elect equivalent ones |
| Elections.AddressOrder | agent/internal/collector/network.go:133-149 | the order on addresses is a strict weak order |
| Elections.AddressIgnoresOrder | agent/internal/collector/network.go:77-117 | the reported address does not depend on the enumeration, nor do MAC and mask when interface index and address tell candidates apart |
| Elections.AddressPreference | agent/internal/collector/network.go:119-149 | the order of preference: IPv4, then a gateway, then the lowest metric, the lowest index and the lowest address |
| Elections.UsableV4 | agent/internal/collector/network.go:65-70 | which IPv4 addresses are usable, octet by octet, mapped ones included |
| Elections.UsableV6 | agent/internal/collector/network.go:65-70 | and which IPv6 ones |
| Elections.MaskReported | agent/internal/collector/network.go:98-117 | a prefix length is reported exactly when it is one of its family and not zero |
| Elections.ProductOrder | agent/internal/collector/avproduct.go:118-140 | the order on products is a strict weak order |
| Elections.ProductIgnoresOrder | agent/internal/collector/avproduct.go:88-128 | name, enabled and is-Defender do not depend on the enumeration |
| Elections.ProductPreference | agent/internal/collector/avproduct.go:102-140 | the order of preference: running before unknown before stopped, a third party before Defender, the lowest name |
| Elections.ProductReported | agent/internal/collector/avproduct.go:46-84 | enabled and fresh as the bytes of the state say, and nothing where they say nothing |
| Elections.SettledExactly | agent/internal/collector/avproduct.go:88-100 | whatever is seen of the elected candidate is the same for all enumerations if and only if the candidates at the top agree in it |
| Elections.AddressReportSettledExactly | agent/internal/collector/network.go:91-95 | address, MAC and mask are the same for all enumerations if and only if the candidates at the top agree in MAC and mask |
| Elections.FreshnessSettledExactly | agent/internal/collector/avproduct.go:72-84 | the antivirus report is the same for all enumerations if and only if the products at the top agree in the freshness of their signatures |
| Elections.FreshnessFollowsEnumeration | agent/internal/collector/avproduct.go:118-128 | two tied entries that differ in freshness are reported with the one or the other as enumerated |
| Elections.FreshnessCanFlap | agent/internal/collector/avproduct.go:115-117 | such entries exist, whatever `isDefenderProduct` says |
| Elections.SessionOrder | agent/internal/collector/session.go:54-83 | the order on sessions is a strict weak order |
| Elections.SessionIgnoresOrder | agent/internal/collector/session.go:54-83 | with distinct ids the elected session does not depend on the enumeration |
| Elections.SessionPreference | agent/internal/collector/session.go:54-83 | the order of preference: active, then the console, then the lowest id |

## Left out

- WMI, COM, the registry, ACLs, DPAPI, SHA-256, WinVerifyTrust, HTTP, JSON and TLS: parameters or abstract functions at most.
- The backend's CRUD, SQL and routes; the server enters as the token rules, and as the reading it holds.
- The console's pages, labels and exports; inventory and Windows Update field mappings, verdict tables, error hints and package signatures: easy members, or foreign code.
- The backoff and jitter of the agent's `Run` loop, its watchdog, context deadlines and the orderly shutdown that abandons waiting commands: the models have crashes instead.
- Tokens.NoRunKillsTheToken: does not cover revocation, delayed or reordered heartbeats, a rename lost after it completed, or the entropy being deleted from the registry.
- FileQueue.ReplayOrderIsEnqueueOrder: two items put within one microsecond, ordered by command id in the file name, are not modelled; nor are leftover `.tmp` files, which no listing shows.
- CommandPipe.NoVerdictVanishes: a post the server received without the agent hearing it counts as delivered, so a verdict can be delivered more than once; the intermediate `running` report is not modelled, and a command refused by the power guard is one that finishes at once.
- Download.Download: the two-hour budget has no clock; it shows as an exchange without an answer and a sleep cut short.
- SlowCache.NothingPendingMeansServerHasIt: the 64-bit generation counter is unbounded here, so its wrap-around is not modelled.
- Session.LostExactlyWhen: which routes are excepted (`isNoRefreshPath`) enters as a flag of the request; an answer that is neither a 401 nor carries a request counts as no 401.
- Scheduler.NextIsLeastAligned: the end of Python's calendar after year 9999 is not modelled, nor jobs other than the two mail jobs over whole runs.
- RateLimit.AnswersAreTheWindowCount: instants are real numbers, so floating-point rounding is not modelled; `reset`, which empties the table, is left out.
- AutoRefresh.RefreshNowIsFresh: nothing is claimed of `stop()`, since the `finally` of `refreshNow` restarts the timer after it.
- AutoRefresh.NeverTwoRefreshes: a `refresh` that calls `refreshNow` before its first await is not modelled; a second refresh would begin inside the first.
- Power.NoRebootLoop: the clock never goes back and the uptime is measured on that clock.
- Dn.WrittenNamesRoundTrip: hex pairs, which the code does not expand, and escaped leading or trailing spaces are excluded; strings are characters, so invalid UTF-8 in a name or in console output is not modelled.
- Elections.ProductIgnoresOrder: `isDefenderProduct` is an arbitrary function of name, GUID and executable, and `formatMAC` one of the MAC.
- Locks.NoDeadlock: the mutexes inside the caches and the guard are left out: each is taken last and held for a few assignments.
