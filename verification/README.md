# Queues, limiters, sweeps and lifecycles of a multi-tenant agent runtime

This project models the stateful core of the runtime's backend and proves what its
design promises, or, where the code does not keep a promise, exactly when it does.
Redis and Postgres are modelled as the state they hold: maps with expiry, tables of
rows, row locks and unique keys. Classes that overwrite fields are Dafny classes, loops
are loops with invariants, and each method is tied to a function about which the
lemmas speak. Protocols with several actors are state machines over atomic steps, and
their theorems hold for every interleaving.

| file | what it models |
|---|---|
| GatewayQueue.dfy | the remote-worker queue: claims under SKIP LOCKED, acknowledgements, terminal updates, cancels that scan for a number and insert later |
| EventLog.dfy | worker events: deduplicated appends, paging, replay during appends |
| Breaker.dfy, RateRace.dfy | the failure counter with a refreshed expiry; the sliding-window budget, called one at a time and concurrently |
| RateLimit.dfy | the fixed-window limiter |
| Retention.dfy, RetentionCrashes.dfy, RetentionOverlap.dfy | the batched sweep with retries and watermark; crashes, and deletions that commit at any moment; sweeps that overlap |
| Approvals.dfy, ApprovalReminders.dfy, ApprovalTtl.dfy | racing deciders of an approval; reminders; the expiry processor among the deciders |
| PrometheusLabels.dfy, PrometheusHistogram.dfy | label printing and parsing, counters and histograms |
| ProjectBoard.dfy | dense reordering of a kanban column |
| SkillVerify.dfy | the verifier sweep and its three-strike breaker |
| Insights.dfy | heuristic clustering of run artifacts |
| JobRuns.dfy, JobLifecycle.dfy | queue statistics and purge; lifecycle writes whose lookup and insert are separate steps |
| MemoryRecall.dfy | similarity recall with over-fetch |
| Seqs.dfy, StableSort.dfy | sequences, sets and stable sorting |

## Where the code and its documentation differ

The model follows the code in each case.

- A cancel notice is pushed "so the next poll informs the remote worker" (backend/app/repositories/gateway.py:230-231), but the same transaction then fails every undelivered request row of the run, the notice included (backend/app/agents/kernels/openclaw/adapter.py:195-201). `GatewayQueue.CancelNoticeIsNeverDelivered`.
- The search for a fresh cancel number exists for two cancels in one millisecond (backend/app/repositories/gateway.py:239-248), but it reads the used numbers before it inserts; two such cancels read the same ones, choose the same number, and the second is refused by the unique key and rolled back as a whole. `GatewayQueue.OverlappingCancelsCollideIff`, `GatewayQueue.SameMillisecondCollides`.
- Marking a run terminal accepts any status. With PENDING a delivered row is delivered again. `GatewayQueue.TerminalStatusIsSafeIff`.
- `decide` and the bulk cancels read a row and write it back without a lock and without testing the status in the update, and the automatic approval leaves the decider column alone (backend/app/repositories/approval.py:149-167, backend/app/jobs/approval_ttl.py:266-270). Overlapping deciders can overwrite the first decision or mix two. `Approvals.DecidedOnceIffNoLateCommit`, `Approvals.OverlapTearsTheDecision`; a row lock on the read would do, `Approvals.LockedRunsAreSafe`.
- A reject that fails inside the expiry path is logged and then counted as `rejected` (backend/app/jobs/approval_ttl.py:320-323, 297-301). `ApprovalTtl.ReportOfPending`.
- The flag that is to keep the next tick from notifying twice (backend/app/jobs/approval_ttl.py:9-11) is committed after the e-mail has been queued outside the transaction (backend/app/services/notification_events.py:716-738); if that commit fails, the next hourly tick notifies again. `ApprovalReminders.FailedCommitMailsTwice`, `ApprovalReminders.MailedAtMostOnceIff`.
- A soft failure is said to leave the flag False (backend/app/jobs/approval_ttl.py:182-185); the emission swallows its failures (backend/app/services/notification_events.py:634-643), so the flag is set and nobody is ever notified. `ApprovalReminders.SwallowedEmissionSilences`.
- The expiry processor announces exactly one reminder for a row that crosses both boundaries between ticks (backend/app/jobs/approval_ttl.py:3-5); the reminder query leaves out rows already expired (line 128), so it gets none. `ApprovalReminders.NoTickNoReminder`.
- One lifetime serves both for counting failures and for recovery (backend/app/jobs/_breaker.py:45-64), so failures far apart trip the breaker. `FailureBreaker.TripMeansBurstIff`.
- The sliding window calls its eviction exact (backend/app/jobs/_breaker.py:112-114), but grants in the same millisecond share one member (line 133). `SlidingWindow.BudgetHoldsWithTiesIff`. Nor is it exact for concurrent callers: a call reads the clock before it evicts (lines 123-129), so a later reading can evict grants from under an earlier one. `RateRace.GrantsUnderRace`, `RateRace.Overtaken`.
- The fixed-window text speaks of an expiry on first set (backend/app/core/rate_limit.py:3); every call sets it again. `RateLimit.ExpiryCoversWindow`.
- The sweep's selector takes rows strictly after the cursor by deletion time alone (backend/app/services/retention.py:551-561), so rows that share a deletion time can be passed over for good, and so can a deletion stamped when its transaction began that commits after the sweep has gone by (backend/app/api/v1/workspaces.py:148-177). `RetentionCrashes.CoveredIffTimely`, `RetentionCrashes.LateCommitIsLost`, `Retention.AllSweptIff`.
- "Each successful verify resets the counter" (backend/app/jobs/skill_verify.py:15-16); only a third clean result in a row does (lines 252-258). `SkillVerify.ClearedIff`, `SkillVerify.StoppedIff`, with `SkillVerify.AlternatingOutcomesTrip` as a witness.
- An observation above the last boundary is counted in the last finite bucket, and a histogram without boundaries raises (backend/app/core/prometheus.py:103-106). `PrometheusHistogram.LastBucketIsExactIff`.
- A card's mapped position is called its desired slot (backend/app/repositories/project_board.py:132-133); only the order of the positions matters. `ProjectBoard.SlotsHonouredIff`.
- Item texts report a count of runs, and clusters of a single run are meant to be dropped (backend/app/jobs/insights.py:467-468, 513); a run that lists a tool or pack twice counts twice. `Insights.RunCountIsRunsIff`.
- The lifetime total of permanent failures is called cumulative across all time (backend/app/repositories/job_run.py:144-146); starting a failed job again overwrites its status. `JobLifecycle.ForgetsPermanentIff`.
- One row per job id is promised by ON CONFLICT DO NOTHING (backend/app/repositories/job_run.py:168-171); there is no such clause and no unique key, the job is enqueued before its row is written (backend/app/worker/queue.py:76-91), and of two rows the older is never written again. `JobLifecycle.OneRowIffNoOverlap`, `JobLifecycle.OlderRowIsStuck`.

## Model

| member | source | states |
|---|---|---|
| GatewayQueue.ClaimsAreExclusive | backend/app/repositories/gateway.py:55-87 | in every interleaving of locking selects, commits, aborts, inserts and bulk updates whose terminal status is not PENDING, no row is returned by two claims, the lock sets of open claims are disjoint and the unique key holds |
| GatewayQueue.NeverBackToPending | backend/app/repositories/gateway.py:89-124 | a row that has left PENDING stays out of it in every continuation, and whether it has been handed to a worker is then settled for good |
| GatewayQueue.AckedIsAbsorbing | backend/app/repositories/gateway.py:110-124 | an ACKED row never changes again in any column, whatever status the terminal updates write |
| GatewayQueue.StepKeepsClaims | backend/app/repositories/gateway.py:65-87 | row locks alone keep every claimed row PENDING and the open claims disjoint across any single step |
| GatewayQueue.StepKeepsInv | backend/app/repositories/gateway.py:55-124 | each step keeps the protocol invariant: unique keys, claims on PENDING rows only, disjoint claims, returned rows not PENDING and never returned twice |
| GatewayQueue.RunKeepsInv | backend/app/repositories/gateway.py:55-124 | the protocol invariant over whole runs |
| GatewayQueue.TerminalStatusIsSafeIff | backend/app/repositories/gateway.py:110-125 | single delivery survives marking runs terminal with a given status if and only if that status is not PENDING; the failing direction is a run that delivers one row twice |
| GatewayQueue.DeliverTwice | backend/app/repositories/gateway.py:110-125 | the run behind it: claim, terminal update to PENDING, claim again |
| GatewayQueue.CancelNoticeIsNeverDelivered | backend/app/agents/kernels/openclaw/adapter.py:185-201 | the cancel notice is failed by the transaction that inserts it, so no later claim in any continuation returns it |
| GatewayQueue.GatewayRepository.EnqueueRequest | backend/app/repositories/gateway.py:30-53 | inserts a PENDING request exactly when its (run, direction, seq) is unused, otherwise leaves the table alone |
| GatewayQueue.GatewayRepository.ClaimPendingRequests | backend/app/repositories/gateway.py:55-87 | the rows returned are unlocked PENDING requests of the adapter, at most `limit`, in order of creation and number, and any left out comes after all of them; exactly they become DELIVERED at the given time, and every other row keeps every column |
| GatewayQueue.GatewayRepository.CancelPendingForRun | backend/app/repositories/gateway.py:89-108 | every request of the run in PENDING or DELIVERED is the old row with status FAILED, every other row keeps every column, and the result is the number of rows changed |
| GatewayQueue.GatewayRepository.MarkRunTerminal | backend/app/repositories/gateway.py:110-125 | every request of the run ends with the given status or ACKED, everything else keeps every column, and the result is the number of requests that were not ACKED |
| GatewayQueue.GatewayRepository.AckRunIfTerminal | backend/app/repositories/gateway.py:181-204 | for kind final or error every request of the run in PENDING or DELIVERED is the old row with status ACKED and every other row keeps every column, for other kinds all do; true iff the kind is one of the two and there was such a row |
| GatewayQueue.GatewayRepository.EnqueueCancelEvent | backend/app/repositories/gateway.py:222-262 | from any earlier answer of the SELECT the search ends, after at most as many steps as there are numbers in it, at the first free one, at least 1,000,000; the insert succeeds iff that number is still unused |
| GatewayQueue.GatewayRepository.CancelRunTransaction | backend/app/agents/kernels/openclaw/adapter.py:185-201 | nothing happens without an originating run row; otherwise the transaction is a CommitCancel or a RefuseCancel of the protocol, whatever claims are open on other rows; a committed one adds its own notice as FAILED and fails the undelivered requests of the run, a refused one changes nothing |
| GatewayQueue.RefusedIff | backend/app/repositories/gateway.py:236-262 | in every interleaving a cancel is refused at its insert iff somebody has committed a request of the run with its number since its scan |
| GatewayQueue.OverlappingCancelsCollideIff | backend/app/repositories/gateway.py:236-248 | of two cancels that scan before either inserts the later one is refused iff every number from the one start to the other is taken; with equal starts always |
| GatewayQueue.SameMillisecondCollides | backend/app/repositories/gateway.py:236-248 | the collision of two cancels in one millisecond is reachable from any run with one request |
| GatewayQueue.StepUsesNumber | backend/app/repositories/gateway.py:250-262 | which steps make a number used, and that a used number stays used |
| GatewayQueue.IntervalSize | backend/app/repositories/gateway.py:245-248 | an interval all of whose numbers are taken is no longer than the set of taken numbers: the bound on the search |
| EventLog.FirstPayloadWins | backend/app/repositories/gateway.py:127-158 | after any sequence of appends with retries a key is present iff it was there or was appended, with the first payload sent for it |
| EventLog.DuplicatedIff | backend/app/repositories/gateway.py:146-158 | an append is answered `duplicated` exactly when its key was already there |
| EventLog.EventStore.AppendEvent | backend/app/repositories/gateway.py:127-158 | one append: the flag and the new log |
| EventLog.EventStore.ListEventsSince | backend/app/repositories/gateway.py:160-179 | a page is the first `limit` events of the run past the cursor, in ascending order |
| EventLog.EventStore.Replay | backend/app/repositories/gateway.py:160-179 | paging from the last seen number with any limit >= 1 ends and yields every event of the run past the start once, strictly ascending |
| EventLog.PageSplits | backend/app/repositories/gateway.py:167-179 | a non-empty page is exactly what lies between the old and the new cursor |
| EventLog.RunKeepsInv | backend/app/agents/kernels/openclaw/adapter.py:159-176 | while the worker keeps appending, what was shown and what came late together are exactly the events up to the cursor |
| EventLog.ReplayIsExact | backend/app/agents/kernels/openclaw/adapter.py:159-176 | at every moment of every interleaving the reader has shown, once and ascending, exactly the events up to its cursor minus the late ones |
| EventLog.NothingIsLate | backend/app/repositories/gateway.py:127-158 | if new events of the run carry rising numbers none is ever late |
| EventLog.ReplayIsGapFree | backend/app/repositories/gateway.py:127-179 | with rising numbers the reader is gap-free at every moment |
| EventLog.NeverLateIff | backend/app/agents/kernels/openclaw/adapter.py:159-176 | an append order keeps the replay gap-free under every paging schedule iff its new numbers rise and are not negative |
| EventLog.LateEventIsLost | backend/app/agents/kernels/openclaw/adapter.py:160-167 | an event committed at or below the cursor is never shown, however long the reader goes on |
| FailureBreaker.CountIsLongestStreak | backend/app/jobs/_breaker.py:36-67 | at any time the stored count is the length of the longest suffix of failures since the last reset whose gaps, and the gap to now, stay below the lifetime |
| FailureBreaker.OpenIffStreak | backend/app/jobs/_breaker.py:80-98 | the breaker is open exactly while that length reaches the trip level, and it is closed after a full lifetime without a failure |
| FailureBreaker.TripMeansBurstIff | backend/app/jobs/_breaker.py:45-64 | over all histories of failures and resets, open only on `tripAt` failures within one window holds for a lifetime iff `tripAt` failures at the widest permitted spacing fit in the window |
| FailureBreaker.SpacedFailuresTrip | backend/app/jobs/_breaker.py:58-64 | failures spaced just below the lifetime trip the breaker at any trip level |
| FailureBreaker.SpanOfStreak | backend/app/jobs/_breaker.py:45-64 | a streak of k failures spans at most (k - 1) * (ttl - 1) |
| FailureBreaker.Breaker.BumpFailure | backend/app/jobs/_breaker.py:36-67 | adds one failure to the history that the counter replays and returns the live count; the key then expires after the larger of the window and the recovery time, a missing or zero recovery time counting as the window |
| FailureBreaker.Breaker.ResetFailure | backend/app/jobs/_breaker.py:70-77 | the history starts anew and the breaker is closed at every trip level and time until further failures |
| FailureBreaker.Breaker.IsBreakerOpen | backend/app/jobs/_breaker.py:80-98 | open exactly while the failures since the last reset end in a streak of the trip level |
| SlidingWindow.WindowIsExact | backend/app/jobs/_breaker.py:122-131 | after eviction the set holds exactly the grants of the last period and a call is denied exactly when there are already `limit` of them |
| SlidingWindow.WindowBound | backend/app/jobs/_breaker.py:122-136 | no window of one period contains more than `limit` grant instants, for every call history with a clock that does not go back |
| SlidingWindow.ExpiryDropsNothingLive | backend/app/jobs/_breaker.py:132-135 | the doubled key expiry never removes an entry that eviction would have kept |
| SlidingWindow.StrictClockGrantsDistinct | backend/app/jobs/_breaker.py:132-136 | with strictly increasing readings instants and grants are the same, so the bound is one on grants |
| SlidingWindow.BudgetHoldsWithTiesIff | backend/app/jobs/_breaker.py:123-136 | with a clock that may repeat a reading the budget is respected iff the limit is one: members are named by millisecond, so ties collapse |
| SlidingWindow.RaceBound | backend/app/jobs/_breaker.py:125-136 | with check and add as separate round-trips and at most k callers in between, entries plus waiting callers never exceed limit + k - 1 |
| SlidingWindow.RaceBoundIsExact | backend/app/jobs/_breaker.py:125-136 | limit + k - 1 bounds every reachable set and, for a period of at least limit + k ticks, is reached by some run |
| RateRace.GrantsUnderRace | backend/app/jobs/_breaker.py:122-136 | with reading, checking and adding as separate steps, at most k calls under way and readings that do not repeat, no window of one period ever holds more than limit + 2k - 1 grants; limit + 2(k - 1) if the key never expires under a call a period old; limit + k - 1 if besides the checks run in the order of their readings; for a period of at least limit + 2k ticks each bound is reached |
| RateRace.WindowUnderRace | backend/app/jobs/_breaker.py:122-136 | the same from any state, by phases: until the window is first evicted the set holds all its grants, afterwards only calls already under way can join it |
| RateRace.StepKeepsWindow | backend/app/jobs/_breaker.py:122-136 | one step keeps a window in its phase or moves it on |
| RateRace.Overtaken | backend/app/jobs/_breaker.py:122-128 | the run behind the second bound: a later reading evicts the window under calls that have read the clock before |
| RateRace.Outlasted | backend/app/jobs/_breaker.py:132-135 | the run behind the first bound: the key expires under calls still on their way |
| SlidingWindow.RateBudget.ConsumeRate | backend/app/jobs/_breaker.py:102-138 | granted exactly if fewer than `limit` instants of the last period have been, whatever has been asked before; a granted call is in the set, which expires two periods later; a non-positive limit grants without touching the set |
| SlidingWindow.RateBudget.CurrentRateUsage | backend/app/jobs/_breaker.py:141-158 | the number of instants of the last period at which a call was granted; asking changes no later answer |
| SlidingWindow.EvictTells | backend/app/jobs/_breaker.py:122-129 | eviction leaves the grants of the last period and keeps the set telling them |
| RateLimit.CounterIsCalls | backend/app/core/rate_limit.py:67-75 | the stored counter is the number of calls made in the current window |
| RateLimit.ExpiryCoversWindow | backend/app/core/rate_limit.py:72-75 | a key refreshed at some time lives to the end of its window |
| RateLimit.AdmittedPerWindow | backend/app/core/rate_limit.py:67-84 | of n calls in one window exactly min(n, limit) are admitted |
| RateLimit.TwiceTheLimit | backend/app/core/rate_limit.py:67-84 | any interval of one period admits at most twice the limit |
| RateLimit.TwiceTheLimitIsReached | backend/app/core/rate_limit.py:3-7 | the factor two is reached, within two milliseconds around a boundary |
| RateLimit.Limiter.CheckRateLimit | backend/app/core/rate_limit.py:67-84 | one call: the live counter of its window plus one, or one; a key that expires one period later; admitted iff the counter is within the limit; other windows keep theirs |
| Retention.AllSweptIff | backend/app/jobs/retention.py:132-162 | without crashes every due row is handled, once and in order, iff no full batch ends between two rows with equal deletion times |
| Retention.DistinctNeverSplits | backend/app/jobs/retention.py:132-162 | distinct deletion times never split a batch |
| Retention.HandleAllIs | backend/app/jobs/retention.py:145-168 | each handled id is in exactly one of cascaded and given up according to its three tries, and the watermark row is that of the last one: its deletion time, its id and what its first successful try affected |
| Retention.CountAllIs | backend/app/jobs/retention.py:145-168 | swept is the number of rows one of whose three tries succeeds, permanent failures the number of those none of whose tries does, and rows total the sum of what the first successful tries affected |
| Retention.SelectIsSlice | backend/app/services/retention.py:545-562 | a batch is the slice of the ordered table that follows the cursor |
| Retention.CascadeOneWithRetry | backend/app/jobs/retention.py:171-248 | succeeds iff one of three tries does, with the rows of the first success and as many tries as needed |
| Retention.NextBatch | backend/app/jobs/retention.py:132-162 | a batch moves the cursor on, and the run goes on after its last deletion time unless it is short |
| Retention.FixedTableEnds | backend/app/jobs/retention.py:132-162 | on a table that does not change one selection more than there are rows ends the run |
| Retention.FixedTableSwept | backend/app/jobs/retention.py:132-162 | and the rows handled are then those of the batched selection |
| Retention.Sweep.EnsureWatermark | backend/app/jobs/retention.py:64-77 | an existing watermark is kept, the first one starts at the current time |
| Retention.Sweep.HandleRow | backend/app/jobs/retention.py:145-159 | one row: succeeds iff one of its three tries does; the watermark row is overwritten with its deletion time, id, rows affected and failure flag; the id joins the cascaded or the given up |
| Retention.Sweep.SweepBatch | backend/app/jobs/retention.py:145-159 | one batch equals handling its rows in order, and ends with the cursor at the last of them |
| Retention.Sweep.SweepScope | backend/app/jobs/retention.py:114-168 | with the table changing between selections, the loop ends at the first short one; over what the successive selections return, swept, permanent failures and rows total are counted from the three tries of each row, each id lands where its tries call for, and the watermark row holds the last row handled, its id and its rows |
| RetentionCrashes.CrashSafety | backend/app/jobs/retention.py:114-168 | at every point of every run of one sweep after another, with crashes and deletions of any stamp committing at any moment: watermark not behind its start and no more repeated handlings than crashes; if the table starts without ties above the watermark and commits are timely, every row up to the watermark is cascaded or given up |
| RetentionCrashes.CoveredIffTimely | backend/app/api/v1/workspaces.py:148-177 | no sweep can ever pass a row over iff the table starts without ties above the watermark and every deletion that commits is stamped above the watermark and the batch in hand and ties with no row, save rows handled before a crash that sort after it |
| RetentionCrashes.AlwaysCoveredIff | backend/app/jobs/retention.py:132-162 | from any state no row can be passed over iff none has been, no tie lies ahead and no row has slipped below the end of the batch in hand |
| RetentionCrashes.CommitKeepsSafeIff | backend/app/api/v1/workspaces.py:148-177 | a commit keeps a safe state safe iff it is timely |
| RetentionCrashes.CoveredIffDistinct | backend/app/services/retention.py:545-562 | while nothing is deleted the sweep is safe iff no two rows above the watermark share a deletion time |
| RetentionCrashes.LateCommitIsLost | backend/app/api/v1/workspaces.py:148-177 | a deletion stamped at or below the watermark when it commits is never handled |
| RetentionCrashes.NeverRevisited | backend/app/services/retention.py:545-562 | an unhandled row at or below the watermark and not in hand is never handled later |
| RetentionCrashes.StepKeepsWellformed | backend/app/jobs/retention.py:114-168 | each step keeps the sweep well-formed, never moves the watermark back and forgets no handled row |
| RetentionCrashes.RunKeepsInv | backend/app/jobs/retention.py:114-168 | the same over whole runs, with the account of repeats against crashes |
| RetentionCrashes.SelectionIs | backend/app/services/retention.py:545-562 | a selection is the ascending start of what lies strictly after the cursor |
| RetentionOverlap.NeverBackIff | backend/app/jobs/retention.py:251-275 | with sweeps overlapping in any way the watermark never goes back iff no sweep writes below what another has written since it started |
| RetentionOverlap.OneAtATimeNeverBack | backend/app/jobs/retention.py:251-275 | with one sweep at a time it never does |
| RetentionOverlap.OvertakenSweepGoesBack | backend/app/jobs/retention.py:251-275 | a sweep overtaken by another puts it back |
| Approvals.DecidedOnceIffNoLateCommit | backend/app/repositories/approval.py:149-167 | in every interleaving of deciders each row leaves PENDING at most once iff no transaction commits on a row on which another has committed since its own read |
| Approvals.FirstDecisionWins | backend/app/repositories/approval.py:157-167 | in such schedules status, time, reason and decider of a decided row never change |
| Approvals.LockedRunsAreSafe | backend/app/repositories/approval.py:149-157 | if every decider read under a row lock, each row would be decided at most once in every run |
| Approvals.PendingIffUndecided | backend/app/repositories/approval.py:157-167 | a row is still PENDING iff nobody has committed a decision on it |
| Approvals.ExclusiveRunsAreGuarded | backend/app/repositories/approval.py:132-167 | runs in which deciders of one row do not overlap are guarded |
| Approvals.OverlapTearsTheDecision | backend/app/jobs/approval_ttl.py:241-292 | an overlapping denial and automatic approval leave a row approved by the processor in the name of the person who denied it |
| Approvals.StoreIsDecide | backend/app/repositories/approval.py:159-166 | on an undecided row the columns written are the whole decision |
| Approvals.CommitStores | backend/app/repositories/approval.py:159-166 | a commit stores in each PENDING row it writes the status, time, reason and decider of its decision, keeps the other columns and touches no other row |
| Approvals.CommitOverwrites | backend/app/repositories/approval.py:159-166 | on a row decided meanwhile it overwrites status and time, and reason and decider only if it brings its own |
| Approvals.MethodIsOneTransaction | backend/app/repositories/approval.py:181-246 | what a repository method does to PENDING rows is one Read and one Commit with nothing in between |
| Approvals.ApprovalRepository.Create | backend/app/repositories/approval.py:99-130 | adds one clean PENDING row and leaves the others alone |
| Approvals.ApprovalRepository.DecideOne | backend/app/repositories/approval.py:132-167 | missing row gives None, a decided row comes back unchanged; a PENDING one takes the override, else APPROVED or DENIED as asked, with the time, reason and actor given, and keeps every other column, as does every other row |
| Approvals.ApprovalRepository.CancelPendingForRun | backend/app/repositories/approval.py:181-210 | exactly the PENDING rows of the run in the workspace are CANCELLED with the time, reason and decider given; every other column and row is unchanged |
| Approvals.ApprovalRepository.CancelPendingForSession | backend/app/repositories/approval.py:212-246 | exactly the PENDING rows of the session, narrowed by run when one is given, are CANCELLED with the time, reason and decider given; every other column and row is unchanged |
| ApprovalTtl.ProcessorIsDecider | backend/app/jobs/approval_ttl.py:235-340 | every run of a tick, its own steps mixed with those of others in any way, is a run of reads, commits and rollbacks of the approval protocol |
| ApprovalTtl.TickDecidesOnceIff | backend/app/jobs/approval_ttl.py:235-340 | with the processor among the deciders each row is decided at most once iff there is no late commit |
| ApprovalTtl.EndOfTickIff | backend/app/jobs/approval_ttl.py:161-173 | when every due row has had its turn, one is still PENDING iff its own turn failed and nobody else has committed a decision on it, at whatever moment |
| ApprovalTtl.DueAfterTickIff | backend/app/jobs/approval_ttl.py:145-173 | a row of before the tick is PENDING past its expiry after it iff it was due, its turn failed and nobody else decided it |
| ApprovalTtl.ReportOfPending | backend/app/jobs/approval_ttl.py:304-323 | a row still PENDING is reported `rejected` iff the failure of its rejection was swallowed without a failed dispatch, and `errored` otherwise |
| ApprovalTtl.StepKeepsInv | backend/app/jobs/approval_ttl.py:235-340 | each step of the processor or of anybody else keeps: a due row is PENDING iff neither has decided it, and one decided by the processor alone holds what its ending says: APPROVED for `ttl auto-execute`, or EXPIRED with the reason for a failed dispatch or for no answer, at the time of the load, with no decider |
| ApprovalTtl.RunKeepsInv | backend/app/jobs/approval_ttl.py:235-340 | the same over whole ticks |
| ApprovalTtl.HistoryStores | backend/app/jobs/approval_ttl.py:241-340 | after every history of steps a due row is PENDING iff undecided and holds what its ending says |
| ApprovalTtl.OutcomesAddUp | backend/app/jobs/approval_ttl.py:161-173 | auto-executed plus rejected plus errored is the number of rows that have had their turn |
| ApprovalTtl.PassesAreDisjoint | backend/app/jobs/approval_ttl.py:120-158 | a row is in at most one of the two passes of a tick, whatever others do between them; no expired row is reminded |
| ApprovalReminders.MailedAtMostOnceIff | backend/app/services/notification_events.py:351-368 | a row is notified about at most once iff every emission comes within one cooldown of the first, and at all iff there is one, in every interleaving |
| ApprovalReminders.MailedOnceIffNoLateRetry | backend/app/jobs/approval_ttl.py:189-231 | with attempts that do not overlap a row is notified about at most once iff no attempt that has emitted and failed is followed by an emission at least one cooldown after the first |
| ApprovalReminders.CommittedAttemptsMailOnce | backend/app/jobs/approval_ttl.py:189-231 | with attempts that do not overlap and whose commits succeed a row is notified about at most once, whatever the clock does |
| ApprovalReminders.FailedCommitMailsTwice | backend/app/jobs/approval_ttl.py:197-230 | a commit that fails after the emission makes the next hourly tick notify again, for every row with more than an hour to go |
| ApprovalReminders.SwallowedEmissionSilences | backend/app/jobs/approval_ttl.py:182-185 | a failure swallowed inside the emission still flags the row, which is then never notified about |
| ApprovalReminders.FlaggedIsSilent | backend/app/jobs/approval_ttl.py:189-193 | once flagged, and with no attempt open, a row is never notified about again |
| ApprovalReminders.NoTickNoReminder | backend/app/jobs/approval_ttl.py:121-130 | a row with no tick in the day before its expiry is never notified about |
| ApprovalReminders.MailsAreThinned | backend/app/services/notification_events.py:583-585 | the notifications sent are the emissions that the cooldown lets through |
| ApprovalTtl.TextsAre | backend/app/jobs/approval_ttl.py:263-299 | the resource type that is executed automatically, and the three texts a decision of the processor is stored with |
| ApprovalTtl.TtlProcessor.SendReminder | backend/app/jobs/approval_ttl.py:179-231 | others, then re-check, emission and commit as separate steps, as a run of the reminder machine; true iff the row is newly flagged; with nobody stepping in, which rows are emitted for and flagged, and that no other column changes |
| ApprovalTtl.TtlProcessor.ReminderPass | backend/app/jobs/approval_ttl.py:119-143 | the pass is a run of the reminder machine, takes exactly the unflagged PENDING rows that expire after now and within 24 hours, flags no other and counts them |
| ApprovalTtl.TtlProcessor.RejectWithAudit | backend/app/jobs/approval_ttl.py:304-340 | the second transaction, with others stepping in before its load and before its commit, as a run of the tick machine |
| ApprovalTtl.TtlProcessor.ProcessExpired | backend/app/jobs/approval_ttl.py:235-301 | the turn of a row as a run of the tick machine, others stepping in before each load and between each load and its commit; a row nobody else decided ends APPROVED by `ttl auto-execute` or EXPIRED with the reason for each outcome of the dispatch, at the load time and with no decider, or stays PENDING; the return value for each is given |
| ApprovalTtl.TtlProcessor.ExpiryPass | backend/app/jobs/approval_ttl.py:145-173 | each due row gets its turn and no other; each counter is the number of rows that ended so; a row nobody else decided holds what its ending says; a row is left PENDING iff its turn failed and nobody else decided it; without failures none past its expiry is left |
| ApprovalTtl.TtlProcessor.ProcessExpiredApprovals | backend/app/jobs/approval_ttl.py:96-175 | a whole tick: `expired_seen` is the sum of the three outcomes, reminded rows are no more than seen and none is processed as expired, and without failures no row of before the tick is PENDING past its expiry |
| PrometheusLabels.EscapeIsPerCharacter | backend/app/core/prometheus.py:209-210 | the three successive replacements equal one escape per character |
| PrometheusLabels.ReadUndoesEscape | backend/app/core/prometheus.py:209-210 | a reader of the text format (version 0.0.4, label value escaping) gets every value back and stops at its quote |
| PrometheusLabels.ParseUndoesFmt | backend/app/core/prometheus.py:202-210 | a label block over identifier names and arbitrary values parses back to the same labels |
| PrometheusLabels.FmtIsInjective | backend/app/core/prometheus.py:202-210 | two different label tuples never print alike |
| PrometheusLabels.FormatIs | backend/app/core/prometheus.py:202-207 | the format itself: nothing for no labels, else braces around name="value" items joined by commas |
| PrometheusLabels.EscapesAre | backend/app/core/prometheus.py:209-210 | backslash, quote and newline are escaped as the format says and every other character is printed as it is |
| PrometheusHistogram.HistogramAgrees | backend/app/core/prometheus.py:95-107 | for increasing boundaries each cumulative count but the last is the number of observations at or below its boundary, the last one and the count are all of them, and the sum is their sum |
| PrometheusHistogram.LastBucketIsExactIff | backend/app/core/prometheus.py:103-106 | the last finite bucket keeps its meaning iff no observation exceeds the last boundary |
| PrometheusHistogram.SeriesAreSeparate | backend/app/core/prometheus.py:95-107 | after any history over several label sets the series of each is that of its own observations |
| PrometheusHistogram.SlotIs | backend/app/core/prometheus.py:99-106 | the slot an observation lands in is the first boundary not below it, or the last one |
| PrometheusHistogram.SlotBelow | backend/app/core/prometheus.py:99-106 | an observation counts up to boundary i iff it does not exceed it or i is the last |
| PrometheusHistogram.CounterIsSum | backend/app/core/prometheus.py:82-84 | each series holds the sum of the amounts recorded under its own labels |
| PrometheusHistogram.Counter.Inc | backend/app/core/prometheus.py:82-84 | the series of the labels grows by the amount and holds the sum of all its amounts so far; every other series is untouched |
| PrometheusHistogram.Histogram.Observe | backend/app/core/prometheus.py:95-107 | one observation through the overflow branch as written: count, sum and the one slot grow, every other series is untouched; raises, storing nothing, iff there are no boundaries |
| PrometheusHistogram.RenderSeries | backend/app/core/prometheus.py:222-236 | the rendered lines: running totals per boundary, then `+Inf`, sum and count |
| ProjectBoard.NewOrderIs | backend/app/repositories/project_board.py:139-146 | the new order holds the same cards once, mapped ones by position with ties in their old order, then the others in their old order |
| ProjectBoard.NewOrderIsStable | backend/app/repositories/project_board.py:139-146 | ordering twice with one map is ordering once |
| ProjectBoard.SlotsHonouredIff | backend/app/repositories/project_board.py:130-137 | every mapped card lands in the slot asked for iff the mapped positions are different numbers below the number of mapped cards |
| ProjectBoard.RelistingIsTheOrder | backend/app/repositories/project_board.py:105-121 | after renumbering the sort orders are 0..n-1 and a listing is any answer of the database iff it is the new order |
| ProjectBoard.ReorderIsIdempotent | backend/app/repositories/project_board.py:123-151 | a second call with the same map changes no card |
| ProjectBoard.OtherColumnsUntouched | backend/app/repositories/project_board.py:123-151 | every card outside the column, and every other listing, is unchanged |
| ProjectBoard.NextAfterReorder | backend/app/repositories/project_board.py:89-103 | after a reorder the append slot is the number of cards |
| ProjectBoard.BoardCardRepository.NextSortOrder | backend/app/repositories/project_board.py:89-103 | one past the highest live sort order, 0 for an empty column |
| ProjectBoard.BoardCardRepository.AssignOrders | backend/app/repositories/project_board.py:147-149 | the loop that skips cards already in place amounts to a full renumbering |
| ProjectBoard.BoardCardRepository.ReorderInColumn | backend/app/repositories/project_board.py:123-151 | mapped cards first by position, ties and the others in their old order; numbered 0 to n-1 and otherwise unchanged, as is every other card; the one listing the table can then have |
| StableSort.SortByIs | backend/app/repositories/project_board.py:141-144 | sorting by position is stable: order by key, ties in input order, over exactly the mapped elements |
| StableSort.OrderDetermines | backend/app/repositories/project_board.py:141-146 | a set of ids in a given order is one sequence only |
| SkillVerify.FailureBound | backend/app/jobs/skill_verify.py:182-285 | entering with c0 < 3 strikes and seeing S clean outcomes, a workspace sees at most 3 - c0 + 2 * floor(S / 3) failures, and is cut short only with three strikes |
| SkillVerify.FailureBoundIsReached | backend/app/jobs/skill_verify.py:182-285 | the bound is attained for every entry count and number of resets |
| SkillVerify.ClearedIff | backend/app/jobs/skill_verify.py:252-258 | after any outcomes, a clean one leaves no strikes iff there were none or the two before it were clean too |
| SkillVerify.StoppedIff | backend/app/jobs/skill_verify.py:182-285 | a workspace is stopped iff some stretch of its outcomes, entry strikes counted if it starts the tick, holds three failures and no three clean outcomes in a row |
| SkillVerify.StrikesAreHeaviest | backend/app/jobs/skill_verify.py:182-285 | the strikes are the weight of the heaviest stretch up to now that holds no three clean outcomes in a row |
| SkillVerify.TallyIs | backend/app/jobs/skill_verify.py:182-285 | strikes, streak and short circuit as functions of the whole history |
| SkillVerify.StrikesBelowThree | backend/app/jobs/skill_verify.py:184-186 | the count is below three whenever a version is about to be verified; nothing is verified after the third strike |
| SkillVerify.RunKeepsAmortised | backend/app/jobs/skill_verify.py:182-285 | the potential argument behind the bound, over any outcomes |
| SkillVerify.AlternatingOutcomesTrip | backend/app/jobs/skill_verify.py:15-18 | the witness: a workspace trips without two failures in a row |
| SkillVerify.WorkspacesAreIsolated | backend/app/jobs/skill_verify.py:144-175 | after a sweep each strike count depends on its own workspace alone; disabled and tripped ones keep theirs |
| SkillVerify.RunIsTallied | backend/app/jobs/skill_verify.py:229-237 | the five counters of a workspace count the outcomes tried, each by its status; a skipped version counts as accepted too, a crash as errored but not as verified |
| SkillVerify.SummaryCounts | backend/app/jobs/skill_verify.py:123-298 | what all eight counters of a tick over distinct workspaces count, from the strikes at its start |
| SkillVerify.VerifierSweep.BumpFailure | backend/app/jobs/_breaker.py:36-67 | one more strike, with no expiry inside the tick |
| SkillVerify.VerifierSweep.SweepWorkspace | backend/app/jobs/skill_verify.py:182-287 | the loop with its break, counters, streak and short circuit computes the specified tally and touches no other workspace; each of the five counters grew by the number of outcomes of its kinds among those tried |
| SkillVerify.VerifierSweep.Sweep | backend/app/jobs/skill_verify.py:123-298 | the whole tick: strikes and summary; over distinct workspaces, swept counts the enabled ones below three strikes, the skip counters the enabled ones at three and the disabled ones, and the five version counters the outcomes of their kinds among all those tried |
| Insights.FamilyIs | backend/app/jobs/insights.py:491-543 | a family has at most k items, each true to its label, each ahead of the next, and a label that occurs twice or more and is left out is outranked by exactly k items; ahead means more frequent, or as frequent and seen first |
| Insights.TopBeatsRest | backend/app/jobs/insights.py:491-491 | a label outside the top k is no more frequent than one inside and was first seen later on a tie |
| Insights.MostCommonDescends | backend/app/jobs/insights.py:491-491 | the counts never rise along the top k |
| Insights.BuildDescribes | backend/app/jobs/insights.py:470-487 | counters and buckets hold exactly the occurrences of each label and their sessions |
| Insights.OrderIsFirstSeen | backend/app/jobs/insights.py:474-487 | a counter keeps its keys in the order of their first occurrence |
| Insights.UsesAre | backend/app/jobs/insights.py:474-487 | the occurrences of a label are the places at which the artifacts list it |
| Insights.EvidenceIsFirst | backend/app/jobs/insights.py:564-575 | de-duplicated evidence is the sessions of the artifacts that carry the label, each where its first artifact puts it |
| Insights.ItemsAre | backend/app/jobs/insights.py:459-561 | one to seven items; the neutral item alone iff no label occurs twice, clusters otherwise |
| Insights.EvidenceIsSound | backend/app/jobs/insights.py:504-504 | evidence is at most five different sessions, each of an artifact that carries the label |
| Insights.RunCountIsRunsIff | backend/app/jobs/insights.py:482-487 | the count reported as a number of runs is that number iff no run lists the label twice |
| Insights.DistinctIs | backend/app/jobs/insights.py:564-575 | de-duplication keeps each session once and loses none |
| Insights.DistinctGrows | backend/app/jobs/insights.py:564-575 | de-duplicating a prefix gives a prefix, so the order is that of first appearance |
| Insights.UniqueSessions | backend/app/jobs/insights.py:564-575 | the loop with its early stop is the first `limit` of the distinct sessions |
| Insights.CountArtifacts | backend/app/jobs/insights.py:470-487 | the three counters and buckets after the loop |
| Insights.ItemsFor | backend/app/jobs/insights.py:491-507 | the loop over the most common labels |
| Insights.FamilyReported | backend/app/jobs/insights.py:491-543 | a family reports its category wherever its items stand in the answer |
| Insights.HeuristicItems | backend/app/jobs/insights.py:459-561 | counted over the artifacts: at most three error kinds, three tools and two packs (one when the cut at seven takes the second), in this order, each listed twice or more with its number of listings and the first five different sessions that carry it, ranked by frequency and first listing; one that is left out is outranked by a full family; the neutral item stands alone, with the number of artifacts and their first five sessions |
| JobRuns.CountersAddUp | backend/app/repositories/job_run.py:132-143 | the five global counters add up to the number of matching rows |
| JobRuns.PurgeTakesTheCandidates | backend/app/repositories/job_run.py:252-268 | a purge loses exactly the candidates, leaves every other row as it was and keeps the permanent failures of every workspace |
| JobRuns.StatsSurviveIff | backend/app/repositories/job_run.py:89-127 | a purge leaves the statistics of a window alone iff no success in scope finished inside it and before the cutoff |
| JobRuns.CutoffGuardIff | backend/app/repositories/job_run.py:252-268 | a cutoff is harmless to the statistics of every table iff it is not after the start of the window |
| JobLifecycle.ForgetsPermanentIff | backend/app/repositories/job_run.py:144-153 | a lifecycle step forgets a permanent failure iff it starts, or finishes otherwise, a job that had failed for good |
| JobLifecycle.RunKeepsPermanent | backend/app/repositories/job_run.py:144-153 | the lifetime total does not fall in any interleaving unless a step reopens a failed job |
| JobLifecycle.OneRowIffNoOverlap | backend/app/repositories/job_run.py:157-191 | no job ever has a second row iff no writer inserts while a row inserted for its job since its own lookup is there |
| JobLifecycle.OlderRowIsStuck | backend/app/repositories/job_run.py:37-48 | of two rows of a job the older, unless it is a success, keeps every column while the newer is there, and if in flight counts in every window of every matching statistic |
| JobLifecycle.WorkerOvertakesEnqueuer | backend/app/worker/queue.py:72-93 | it happens to any new job: the worker starts it between the lookup and the insert of the enqueuer |
| JobLifecycle.InsertKeepsOneRowIff | backend/app/repositories/job_run.py:166-191 | one insert keeps one row per job iff none was inserted for its job since its lookup |
| JobRuns.TalliesDescribe | backend/app/repositories/job_run.py:113-127 | grouped lines, filled into zeroed buckets, give one exact count per function and status |
| JobRuns.SumBuckets | backend/app/repositories/job_run.py:134-143 | the sum over all buckets counts every matching row once |
| JobRuns.JobRunRepository.GetQueueStats | backend/app/repositories/job_run.py:89-127 | a bucket for exactly the functions with a matching row; each count is the number of rows of that function, status and workspace that are in flight or finished in the window; from any answer to the grouped query |
| JobRuns.JobRunRepository.AggregateHealth | backend/app/repositories/job_run.py:129-154 | global counts per status over matching rows, and the lifetime permanent failures, never fewer than the recent ones |
| JobRuns.JobRunRepository.PurgeExpiredSuccess | backend/app/repositories/job_run.py:252-268 | a row goes iff it is a success that finished before the cutoff, every other row keeps every column, and the result is their number |
| JobRuns.JobRunRepository.PurgeExpiredSuccessRows | backend/app/services/job_run.py:364-382 | a dry run counts what a real one would delete and changes nothing, a real one deletes exactly what it has counted |
| JobRuns.JobRunRepository.UpsertQueued | backend/app/repositories/job_run.py:157-191 | from any earlier answer of the lookup: a row found is returned untouched, otherwise a QUEUED row is added, whatever has been inserted since |
| JobRuns.JobRunRepository.MarkRunning | backend/app/repositories/job_run.py:193-221 | from any earlier answers of its two lookups: the row found, or one inserted for want of it, is RUNNING; name and workspace are filled in only where empty; every other column and row is unchanged |
| JobRuns.JobRunRepository.MarkFinished | backend/app/repositories/job_run.py:223-249 | status and finish time of the row as given, every other column and row unchanged; nothing for an unknown job |
| MemoryRecall.OverFetchIsExact | backend/app/repositories/memory.py:46-56 | for rows ascending in distance, fetching any n >= limit rows before filtering gives the list obtained by filtering all rows first |
| MemoryRecall.RecallIsSound | backend/app/repositories/memory.py:36-56 | only live memories of the workspace and scopes that score well enough, best first, at most `limit` |
| MemoryRecall.RecallIsBest | backend/app/repositories/memory.py:36-56 | a memory that qualifies and is left out scores no better than any returned, and the list is full |
| MemoryRecall.PassingHolds | backend/app/repositories/memory.py:49-53 | a hit passes iff its memory is among the rows and its score is one minus the distance and high enough |
| MemoryRecall.PassingDescends | backend/app/repositories/memory.py:45-53 | rows ascending in distance give hits falling in score |
| MemoryRecall.PassingIsPrefix | backend/app/repositories/memory.py:49-55 | once one memory falls short so does every one farther away |
| MemoryRecall.RecallBySimilarity | backend/app/repositories/memory.py:17-56 | the query, the filter and the early stop give the first `limit` of all qualifying memories: sound, best first, none twice, and one left out means a full list of no worse ones; no scopes give none |

## Left out

- Redis being unreachable: the limiters and breakers then admit everything; the properties are stated with Redis up.
- Row visibility of READ COMMITTED beyond row locks: a bulk update may take any set of matching, unlocked rows, which covers the rows a statement can miss.
- Database queries: a SELECT is a parameter that satisfies a predicate saying which answers the database may give, ties in any order.
- Clocks: every reading is a parameter; bounds that need them to be ordered say so.
- The reader's stop at a final or error event, its timeout and its poll interval: the replay theorems cover every number of pages.
- Sorting of label dictionaries into key tuples, and merging `le` into them: keys are given as tuples.
- Floating point: counters, histograms and scores use reals; NaN, infinities and number printing are left out.
- PrometheusLabels.ParseUndoesFmt: label names are identifiers as the text format requires; the printer itself accepts any name.
- SkillVerify.VerifierSweep.BumpFailure: no expiry of the strike key and no bump from elsewhere during a tick, as the amortised bound assumes.
- The caps of 100 workspaces and 20 versions per tick in the verifier sweep: they only shorten its inputs.
- The merge of the two retention scopes, the lower bound of 10 on the batch size, back-off sleeps and audit writes.
- The wording of insight titles and summaries, the category of a free label, and the summariser that calls a language model.
- RateRace.GrantsUnderRace: readings of the clock do not repeat; what ties do is stated for sequential callers.
- EventLog.DuplicatedIff: the source answers `duplicated` on every integrity error, for instance after the adapter was deleted; the model knows the unique key only.
- EventLog.EventStore.AppendEvent: as above, integrity errors other than the unique key.
- ApprovalTtl.ProcessorIsDecider: the rejection and dispatch services are not part of this model; rejection is taken to apply `decide`, and dispatch to succeed, raise its own error or raise another.
- ApprovalReminders.MailedAtMostOnceIff: one recipient, with the cooldown store up; a notification counts as sent once it wins the cooldown, even if the e-mail queue then refuses it.
- RetentionCrashes.CrashSafety: one sweep at a time; what overlapping sweeps do to the watermark is stated in RetentionOverlap.
- RetentionCrashes.CoveredIffTimely: one sweep at a time, and rows are neither restored nor physically purged meanwhile.
- A row found by a job lookup is updated in one step with it; only the insert for want of a row is separate.
- Job-run columns that no statistic reads: start time, duration, retries and error text.
- Physical purge of soft-deleted tenants, curator, evolver, agent-profile and hub sweeps: counter loops around services that are not shown.
- HTTP routes, authentication, settings, schema migrations apart from the unique key, notifications and e-mail.
