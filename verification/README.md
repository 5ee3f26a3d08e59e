# Verified models of the remediation and incident core

This project models, in Dafny, the parts of the control plane where behaviour depends on history,
concurrency or delicate arithmetic, and proves what they keep:

- **Remediation queue** (`QueueRuntime`, `Guard`, `Runner`, `RemediationPolicy`, `DrainProtocol`,
  `DrainInvariant`, `DrainSafety`, `DrainTheorems`, `DrainRecords`, `QueueOrder`, `RemediationQueue`,
  `RunsGetThrough`, `QueueStarvation`, `LateWrites`, `ManualRoute`, `AbandonedRuns`). A table of
  execute runs is worked by any number of drain workers. One drain iteration is cut into the database
  accesses it is made of: candidate read, conditional claim, re-read, checks, command execution,
  canary, rollback, final write. Workers, planners and operators interleave between any two of them.
  `DrainProtocol` is the state machine with its history, `DrainInvariant` the inductive invariant,
  `DrainSafety` the proof that every step keeps it, `DrainTheorems` what follows for every reachable
  state, `DrainRecords` what each write leaves in a row. `RemediationQueue` is the imperative table;
  its methods are proved to perform protocol steps, or the late writes of `LateWrites`, which tells
  what a decision, create or replay does that is written later than the reading it rests on.
  `QueueOrder` says which run the claim goes for, `RunsGetThrough` when a queued run may start and
  what a turn makes of it, `QueueStarvation` which queued runs the claim never sees, `ManualRoute`
  what the manual route admits, `AbandonedRuns` what a worker leaves behind that dies after its claim.
- **Autonomous planner** (`AutonomousPlanner`, `PlannerCaps`, `PlannedRuns`, `CommandLists`,
  `CanaryBucket`). The admission loop with its running counters, while drains, operators and other
  planners act between any two of its database accesses: what each decision rests on, what is stored
  for an action and what the drain makes of it, by how much counters and table drift apart, and how
  far beyond its caps that can take the table.
- **Stored payloads** (`JsonText`, `JsonReading`, `LegacyPaths`, `PayloadJson`, `PayloadFilters`). The
  normal form that reading produces, when writing a payload and reading the text back is the
  identity, and what substring filters on the stored JSON text find.
- **Fleet rollout** (`FleetPolicy`, `FleetRollout`). Optimality of the greedy selection, and the
  stages.
- **Signals to breaches** (`IncidentTimeline`, `AutoBreaches`, `BreachContents`, `BreachRaces`).
  Maximality of the windowed dedupe, the exact result of reconciliation, and of two reconciliations
  that overlap.
- **Incident life cycle** (`IncidentEngine`) and **rate limiter** (`RateLimiter`).

Conventions: instants are integer milliseconds; a run or incident id is its creation index; clocks,
host flags, resolved policies, environment values and the outcome of every command list are inputs.
The clock of the time-to-live check is separate from the clock of the iteration, because the source
reads it separately. Regular expressions are predicates, collation is any total preorder, date and
number parsing are parameters. `orderBy` is a sort whose ties fall in creation order. The run table
holds the rows that the execute filter lets through, which are the execute runs
(`PayloadFilters.FiltersFindTheField`). Automatic induction is switched off where a lemma's body
carries out the induction itself, and on three others that it makes fail or slow.

In `DrainProtocol` creating, approving, rejecting and replaying a run are single steps. The source
reads first and writes by id later, and so do the methods of `RemediationQueue`, `AutonomousPlanner`
and `ManualRoute`, with others acting in between. `LateWrites` says what such a late write does, over
every run. A create or a replay always keeps the invariant, and costs the uniqueness of active runs
exactly when a run for the target is active as it is written. An approval keeps the invariant exactly
when nobody works on the run, it has neither executed nor been rolled back since the reading, and no
replay of it was queued; that does not mean that it does no harm, because a run that was rejected,
canceled or blocked in the meantime comes back. It does no harm at all exactly when the run is still
queued as it was read.
For incidents the sweep's read and its writes are separate, with the exact condition likewise.

Findings that differ from what one would expect of the code:

- An approval that is written after a worker has claimed the run puts the run back into the queue, and
  a second worker can claim it (`LateWrites.LateApprovalMakesTwoOwners`,
  `LateWrites.LateApprovalHappens`).
- An approval that is written after the run was rejected brings it back, beside whatever has been
  queued for its target since (`LateWrites.RejectedRunComesBack`).
- A worker that dies after its claim leaves its run running for good: its time to live is never tested,
  no operator can decide or replay it, and planner, replays and manual route refuse its action on its
  host from then on; as many such runs as the host's cap and the planner queues nothing for the host
  (`AbandonedRuns.AbandonedRunBlocksItsTarget`, `AbandonedRuns.AbandonedRunsFillTheHost`).
- The claim looks at the 80 oldest queued runs only. Runs that wait for an approval are never claimed,
  so nothing ever tests their time to live: 80 of them hide everything requested later until one of
  them is decided (`QueueStarvation.WaitingRunsHideTheRest`, `QueueStarvation.StarvationHappens`).
- A replay keeps the approval, the canary result and the rollback marker of its source. So rollback
  runs at most once along a chain of replays (`DrainTheorems.RollbackRunsOnce`), and a replay of a run
  whose canary failed gets no second attempt: when its commands fail, it is dead-lettered as
  `canary_failed` although no canary ran (`DrainTheorems.OldCanaryFailureForbidsRetries`).
- The manual execute route can create a second active run for a host and action, exactly when one is
  queued but not running, which the cooldown prevents only for a while
  (`ManualRoute.SecondActiveRunExactlyWhen`); and its runs never wait for an approval
  (`ManualRoute.ManualRunsNeedNoApproval`).
- The planner's caps hold up to what others add: every cap can be exceeded by one for each run that
  others create during the pass, replays included, and the cap on the global backlog also by one for
  each run that was running when it was counted, because a drain can put it back
  (`PlannerCaps.CapsAreExceededByAtMost`). One running run, or one replay, is enough
  (`PlannerCaps.GlobalCapIsExceeded`, `PlannerCaps.HostCapIsExceeded`).
- Two overlapping passes for a host queue the same action twice
  (`AutonomousPlanner.OverlappingPassesQueueTwice`).
- Two overlapping reconciliations of a host open a breach twice when both observe it for the first
  time; when its cause is gone, the next one closes only one of the two
  (`BreachRaces.OpenedTwiceStaysOpen`).
- A host override can leave the backoff cap below the backoff; the delay is then constant
  (`RemediationPolicy.OverridesCanCrossTheBackoffBounds`).
- Truncating a text at its limit is not idempotent, except for one shape of text
  (`PayloadJson.TruncateFixes`); an approval reason may be 600 characters long when it is written but
  only 280 when it is read.
- Different signals can share a correlation key. A signal is safe from that exactly when neither its
  code nor its title nor its detail contains a bar (`IncidentTimeline.KeyIdentifiesExactlyWhen`).
- An interleaved escalation sweep can lose a count or re-arm the timer of an incident that is no
  longer open (`IncidentEngine.EscalateKeepsOkExactlyWhenTimely`).
- The rate limiter can let twice its maximum through in an interval of one window's length
  (`RateLimiter.TwiceTheMaximumIsReached`), never more.

## Model

| member | source | states |
|---|---|---|
| DrainSafety.StepKeepsInv | src/lib/remediate/queue.ts:224-1371 | every step of drain workers, planners and operators, in any interleaving and with any clock, policy and outcome, keeps the invariant: one owner per running run, history and stored metadata agree, every logged execution and rollback was allowed |
| DrainSafety.ReachableInv | src/lib/remediate/queue.ts:224-1371 | the invariant holds after every history of steps, for any number of workers |
| DrainTheorems.OnlyTheOwnerWrites | src/lib/remediate/queue.ts:256-298 | in every reachable state a running run has exactly one owner, and only a step of that owner can change its row |
| DrainTheorems.NoAttemptIsLost | src/lib/remediate/queue.ts:610-632 | the final write of an iteration starts from the row as it is in the table: it adds exactly the attempt that was executed and keeps the approval and everything that was asked for |
| DrainTheorems.AttemptsCountExecutions | src/lib/remediate/queue.ts:610-632 | the stored attempts equal the number of executions, up to the one still in progress; active runs have attempts < maxAttempts <= 20 |
| DrainTheorems.AdmissionIsExact | src/lib/remediate/queue.ts:432-608 | the checks between claim and execution let a run through if and only if the host is enabled, the run is within its time to live, readable, not dead-lettered, approved if it must be, due at that instant, and its commands are what the guard promises to accept |
| DrainTheorems.ExecutionIsAuthorized | src/lib/remediate/queue.ts:415-632 | however stale the candidate read was, commands run only for a row that in the table at that moment is running, within its time to live, not dead-lettered, approved if required, due, never rolled back, with attempts left and commands the guard accepts |
| DrainTheorems.EveryLoggedExecution | src/lib/remediate/queue.ts:732-756 | for every execution in the history: approval was granted before to the run or a run it was replayed from, attempts are numbered without gaps, no rollback came before, and the capped doubling delay had passed unless an approval intervened |
| DrainTheorems.RollbackRunsOnce | src/lib/remediate/queue.ts:653-677 | rollback commands run at most once along any chain of replays; a rolled-back run executed once and is never queued again; a run with rollback commands at hand executes at most once |
| DrainTheorems.StatesAgreeWithMetadata | src/lib/remediate/queue.ts:558-821 | failed if and only if dead-lettered, with a reason that agrees with attempts, canary and rollback fields; success implies an attempt, the approval and the passed canary; finished runs have no due time |
| DrainTheorems.BudgetFalls | src/lib/remediate/queue.ts:610-756 | the total of executions still possible is never negative, no step but creating or replaying a run raises it, and every execution lowers it |
| DrainTheorems.ActiveRunsStayUnique | src/lib/remediate/queue.ts:1082-1096 | every step of drains and operators, replays included, keeps one active run per host and action; a create that looks for active runs as it writes keeps it too, and any other create if and only if no run for the target is active |
| DrainTheorems.ReplayMovesOneRun | src/lib/remediate/queue.ts:1098-1159 | replaying removes exactly that run from the dead letters, marked as replayed, queues exactly one new run and touches no other row; the new run has its source's target, commands, attempt limit, approval, whole canary and rollback records and planner fields, no attempts, and may be claimed at once unless an approval is missing |
| DrainTheorems.ReplayRunsAsItsSource | src/lib/remediate/queue.ts:1098-1110 | for any outcomes, an execution of a replay succeeds, fails its canary, rolls back, retries or is dead-lettered exactly as the metadata stored with its source says, with the attempts starting at zero |
| DrainTheorems.ExecutionEndsExactly | src/lib/remediate/queue.ts:610-821 | from the stored metadata and the outcomes of commands, canary and rollback: success if and only if commands and canary pass; another attempt, after the doubling delay, if and only if attempts are left, no canary failed and no rollback is or was due; otherwise the dead letters with the true reason; what is recorded of attempt, canary and rollback, and that nothing else changes |
| DrainTheorems.OldCanaryFailureForbidsRetries | src/lib/remediate/queue.ts:673-821 | a replay of a run whose canary failed is dead-lettered as canary_failed at its first failing execution, however many attempts it has left |
| RunsGetThrough.ClaimableExactlyWhen | src/lib/remediate/queue-runtime.ts:300-325 | in every reachable state a queued run may be claimed at exactly the instants the history allows: when it needs no approval or has it, and, unless it was approved since, from its last execution on plus the capped doubling delay |
| RunsGetThrough.DueRunIsPickedExactlyWhen | src/lib/remediate/queue.ts:224-254 | the claim goes for a queued run at exactly those instants, provided that fewer than 80 queued runs are in front of it and none of those may start |
| RunsGetThrough.RetryIsPickedExactlyWhen | src/lib/remediate/queue.ts:718-756 | a run whose failed execution is put back is claimable from now + 1000 * delay on and not before, and as long as it is not disturbed the claim goes for it then, if it is among the 80 oldest with no run in front that may start |
| RunsGetThrough.DrainTurnIsExact | src/lib/remediate/queue.ts:415-821 | a turn whose pick is not raced for, whatever others do to other rows during it: nothing when nothing can be picked; otherwise the picked run is executed exactly once if and only if its host is enabled, its time to live is not over, it is readable and the guard accepts its commands, and its row ends as checks and outcomes say |
| DrainRecords.ChecksEndExactly | src/lib/remediate/queue.ts:432-608 | where the checks leave a claimed run: canceled if and only if its host is disabled or its time is over; otherwise failed if and only if it is unreadable or due with blocked commands; otherwise back in the queue as it was if and only if it must wait |
| DrainRecords.DecisionIsRecorded | src/lib/remediate/queue.ts:1223-1371 | a decision is possible if and only if the run is queued, readable and requires an approval; it changes that row only and records who decided, when and why; an approval makes the run claimable at every instant, a rejection cancels it |
| DrainRecords.ReasonIsGiven | src/lib/remediate/queue.ts:1281-1341 | the reason on record is what the operator wrote, trimmed and cut at 600 characters, or the fallback when it is missing or blank |
| DrainRecords.TimesAgreeWithStates | src/lib/remediate/queue.ts:256-1371 | in every reachable state: a queued run has no start and no finish, a running one a start only, one that succeeded or failed both, a canceled one a finish |
| LateWrites.LateApprovalKeepsInvExactlyWhen | src/lib/remediate/queue.ts:1292-1323 | an approval decided on an earlier reading keeps the invariant if and only if nobody works on the run, it has neither executed nor been rolled back since, and no replay of it was queued |
| LateWrites.LateApprovalKeepsUniqueExactlyWhen | src/lib/remediate/queue.ts:1292-1323 | it keeps one active run per target if and only if the run is still active or no other run for its target is |
| LateWrites.LateApprovalIsHarmlessExactlyWhen | src/lib/remediate/queue.ts:1292-1323 | it keeps the invariant and leaves every run that is over as it ended if and only if the run is still queued as it was read; then it keeps one active run per target too |
| LateWrites.ApprovedLateIsClaimable | src/lib/remediate/queue.ts:1292-1323 | whatever ended the run in the meantime, after a late approval it is queued and any worker may claim it at any time |
| LateWrites.RejectedRunComesBack | src/lib/remediate/queue.ts:1292-1350 | a history of a create, a rejection and a second create after which a late approval brings the rejected run back: the invariant holds, two runs are active for one target |
| LateWrites.LateRejectionKeepsInvExactlyWhen | src/lib/remediate/queue.ts:1333-1350 | a late rejection keeps the invariant if and only if nobody works on the run and it has neither executed nor been rolled back since |
| LateWrites.LateRejectionIsHarmlessExactlyWhen | src/lib/remediate/queue.ts:1333-1350 | it also leaves every run that is over as it ended if and only if moreover the run is still queued or was canceled; it always keeps one active run per target |
| LateWrites.LateDecisions | src/lib/remediate/queue.ts:1238-1350 | all these conditions, for invariant, finished runs and uniqueness of active runs, over every history and every continuation of it between the reading and the write |
| LateWrites.LateApprovalMakesTwoOwners | src/lib/remediate/queue.ts:1292-1323 | if the run was claimed in between, any idle worker can claim it too once the approval is written |
| LateWrites.LateApprovalHappens | src/lib/remediate/queue.ts:1292-1323 | a history of one create, one earlier approval and one claim that leads there |
| LateWrites.LateCreates | src/app/api/remediate/route.ts:544-757 | a create written late keeps the invariant, and one active run per target if and only if none is active when it is written |
| LateWrites.LateReplays | src/lib/remediate/queue.ts:1041-1159 | a replay of any run that was over when it was read keeps the invariant however late it is written, even if the run was replayed in between, and one active run per target if and only if none is active when it is written |
| LateWrites.LateReplayIsRefusedExactly | src/lib/remediate/queue.ts:1041-1096 | a replay is possible if and only if the run exists, is over and readable, and no run of its target is active when they are counted; otherwise the refusal is the first of these that fails |
| ManualRoute.VerdictIsExact | src/app/api/remediate/route.ts:496-671 | with others acting between its five readings, a request is accepted if and only if it meets every condition as it is read, each stated over the rows and the policy, and refused for the first, in the order of the checks, that it does not meet |
| ManualRoute.ExecuteRemediation | src/app/api/remediate/route.ts:496-757 | with others acting between its readings and before its create, an accepted request queues exactly one run: the action's own commands, checks and rollback commands, no approval, in every rollout; a refused one queues nothing |
| ManualRoute.RequestAdds | src/app/api/remediate/route.ts:738-757 | a request appends that run, and leaves two active runs for its target if and only if one is active when it writes, whatever it has read |
| ManualRoute.ManualRunsNeedNoApproval | src/app/api/remediate/route.ts:687-735 | a manual run starts fresh and is ready at once, also where the planner's run would wait for an approval |
| ManualRoute.SecondActiveRunExactlyWhen | src/app/api/remediate/route.ts:551-623 | when nobody acts in between, that is so if and only if a run for the target is queued, and then that one is older than the cooldown, or the cooldown is off, or a request is dated in the future |
| AbandonedRuns.AbandonedRunStays | src/lib/remediate/queue.ts:256-298 | after every history and whatever all others do from then on, the run of a worker that takes no more steps is running, its row unchanged, refused for decisions and replays |
| AbandonedRuns.AbandonedRunBlocksItsTarget | src/lib/remediate/queue.ts:1082-1096 | then no create that looks for active or running runs of its action on its host happens, and no run of that target is replayed |
| AbandonedRuns.AbandonedActionIsRefused | src/app/api/remediate/route.ts:551-597 | planner and manual route refuse the action, whatever their counters and other readings are |
| AbandonedRuns.AbandonedRunsFillTheHost | src/lib/remediate/autonomous-runtime.ts:299-302 | once as many runs of a host are abandoned as its cap allows to be active, no later pass queues anything for the host, whatever happens during it |
| QueueRuntime.RetryDelayDoublesUpToCap | src/lib/remediate/queue-runtime.ts:309-325 | the delay starts at the base, doubles up to the cap, never shrinks and never leaves [base, one day], whatever the configured values |
| Common.TruncateTellsWhatItCut | src/lib/remediate/queue-runtime.ts:336-340 | a message that fits is only trimmed; of any other the beginning is kept, and the note says how many characters were cut |
| Common.TrimCutsSpaceOnly | src/lib/remediate/queue-runtime.ts:128-134 | trimming cuts white space off the two ends and nothing else |
| Common.SpacesAreThoseOfTrim | src/lib/remediate/queue-runtime.ts:128-134 | white space are the characters, by code point, that ECMAScript calls white space or line terminators |
| Guard.GuardIsExact | src/lib/remediate/guard.ts:113-164 | no issue is reported if and only if the guard's promise holds of every command; otherwise exactly the offending commands are reported, once, in order, with a true reason |
| Guard.ValidateCommands | src/lib/remediate/guard.ts:113-164 | the loop produces the specified issues |
| Runner.ExecuteRemediationCommands | src/lib/remediate/runner.ts:43-116 | one result per line up to and including the first failure |
| Runner.SucceedsExactlyWhen | src/lib/remediate/runner.ts:43-116 | the run is successful if and only if every line that the shell would get works |
| Runner.OnlyVettedCommandsRun | src/lib/remediate/runner.ts:24-116 | the runner skips exactly blank lines and comments; the shell gets every other line without the white space around it, and with sudo kept from asking for a password; and every line that reaches the shell has passed the guard's checks |
| RemediationPolicy.PolicyStaysInRange | src/lib/remediate/policy.ts:94-289 | whatever the environment and the host overrides say, every setting is in its range, and without overrides the inherited one |
| RemediationPolicy.EnvironmentIsReadExactly | src/lib/remediate/policy.ts:94-184 | what the environment makes of each setting: its default when missing, otherwise the number given or the nearest end of its range |
| RemediationPolicy.OverridesAreAppliedExactly | src/lib/remediate/policy.ts:186-289 | what host overrides make of each setting: the inherited value where they say nothing, otherwise the number given or the nearest end of the same range |
| RemediationPolicy.OverridesCanCrossTheBackoffBounds | src/lib/remediate/policy.ts:191-202 | the cap ends up below the backoff if and only if the host raises the backoff above the inherited cap without a cap of its own, and the delay is then constant |
| QueueOrder.OldestFirstIsTheQuery | src/lib/remediate/queue.ts:226-237 | the query lists exactly the rows that pass the filter, once each, oldest first |
| QueueOrder.Rank | src/lib/remediate/queue.ts:226-237 | a row that passes the filter is listed after exactly the rows that pass and were requested before it |
| QueueOrder.TheOldestAreTaken | src/lib/remediate/queue.ts:226-237 | taking n lists exactly the rows that pass with fewer than n such rows before them |
| QueueOrder.PickedExactlyWhen | src/lib/remediate/queue.ts:239-254 | a run is picked if and only if it may start, fewer than 80 queued runs are in front of it, and none of those may start |
| RemediationQueue.PickCandidate | src/lib/remediate/queue.ts:239-254 | the loop picks the run that the specification picks, which is the oldest that may start among the 80 oldest queued ones |
| QueueOrder.NothingIsPickedExactlyWhen | src/lib/remediate/queue.ts:226-254 | no run is picked if and only if every claimable run has at least 80 queued runs in front of it |
| QueueStarvation.WaitingRunsAreLeftAlone | src/lib/remediate/queue.ts:239-266 | in every reachable state, a run that waits for an approval is neither claimed nor picked to be |
| QueueStarvation.WaitingRunsHideTheRest | src/lib/remediate/queue.ts:226-254 | once 80 queued runs wait for an approval, then after every continuation without a decision on them they are still there unchanged, and no claim takes a run requested after them |
| QueueStarvation.HiddenRunsNeverRun | src/lib/remediate/queue.ts:226-298 | a run behind 80 waiting ones is never executed, however many workers drain, as long as none of the 80 is decided |
| QueueStarvation.StarvationHappens | src/lib/remediate/queue.ts:226-254 | a history of 81 creates after which a ready run is queued and nothing is picked |
| RemediationQueue.RunTable.TakeClaim | src/lib/remediate/queue.ts:256-266 | the conditional update wins if and only if the row is still queued, and is a protocol step |
| RemediationQueue.RunTable.RaceFor | src/lib/remediate/queue.ts:254-266 | a pick followed by whatever others do and the conditional update; with no interference the claim succeeds |
| RemediationQueue.RunTable.ClaimNextQueuedRun | src/lib/remediate/queue.ts:224-298 | at most eight picks; table and outcome are those of the claim specified from the table before and what others do between pick and update: a claimed running row, or an idle worker |
| RemediationQueue.RunTable.Reread | src/lib/remediate/queue.ts:268-294 | the re-read row is the current one |
| RemediationQueue.DecideClaim | src/lib/remediate/queue.ts:432-608 | the checks, in order, lead to the specified write, and the reported state matches it |
| RemediationQueue.RunTable.CheckClaim | src/lib/remediate/queue.ts:432-608 | the checked run is released with a report that is true of the written row, or cleared for execution |
| RemediationQueue.RunTable.RunCommands | src/lib/remediate/queue.ts:610-632 | executing counts the attempt in the iteration's copy and in the history, and is a protocol step |
| RemediationQueue.RunTable.RunCanary | src/lib/remediate/queue.ts:634-651 | the canary runs only after success, records its verdict and turns a success into a failure when it fails |
| RemediationQueue.RunTable.RunRollback | src/lib/remediate/queue.ts:653-671 | rollback runs only after a failure, with commands at hand and not yet attempted |
| RemediationQueue.RunTable.SettleRun | src/lib/remediate/queue.ts:673-821 | the final write is a protocol step, frees the worker, and the report is true of the row |
| RemediationQueue.RunTable.ExecuteCleared | src/lib/remediate/queue.ts:610-821 | whatever others do between its steps, the cleared run ends with what its outcomes say, written over the row as it was before |
| RemediationQueue.RunTable.DrainOne | src/lib/remediate/queue.ts:415-821 | one turn of the drain loop, with others acting between any two accesses: the table becomes that of the specified turn, and there is a report, true of the row as written, if and only if a run is claimed |
| RemediationQueue.RunTable.DrainRemediationQueue | src/lib/remediate/queue.ts:406-874 | turn after turn, at most clamp(limit, 1, 50) of them and as long as one claims a run, with one true report for each, in order; ok if and only if no item failed or was canceled |
| RemediationQueue.DrainIsPlay | src/lib/remediate/queue.ts:406-874 | whatever others do, a drain moves the table by protocol steps only, so that every theorem about histories holds of it |
| RemediationQueue.OthersSpareOwner | src/lib/remediate/queue.ts:256-266 | whatever any number of other workers and operators do, a worker's phase and the row it owns stay as they are |
| RemediationQueue.RunTable.CreateRun | src/lib/remediate/autonomous-runtime.ts:474-486 | a create adds one queued run to the table as it then is, and keeps it sound |
| RemediationQueue.RunTable.EnqueueRun | src/lib/remediate/autonomous-runtime.ts:309-513 | a test of the table, whatever others do, then the create, which happens if and only if the test found no run in the way; with nobody in between it is the step that tests as it writes |
| RemediationQueue.RunTable.ReplayRemediationRun | src/lib/remediate/queue.ts:1032-1183 | with others acting between the reading of the row, the count of active runs and the transaction, the refusal is the one the source gives, and the table becomes that of the late replay, still sound |
| RemediationQueue.RunTable.SetRemediationRunApproval | src/lib/remediate/queue.ts:1223-1371 | with others acting between the reading and the write by id, the refusal is the one the source gives, the row becomes that of the late decision, and the table stays sound if and only if the run was left alone and, for an approval, not replayed |
| RemediationQueue.RunTable.ReplayDeadLetterRuns | src/lib/remediate/queue.ts:1185-1221 | the dead letters that the query takes are replayed one after the other, with the answers of the single replays |
| RemediationQueue.OldestDeadLettersAreTaken | src/lib/remediate/queue.ts:1185-1205 | taken are exactly the dead letters with fewer than clamp(limit, 1, 50) older ones |
| RemediationQueue.DeadLetterReplaysAreExact | src/lib/remediate/queue.ts:1185-1221 | of the dead letters taken, one is replayed if and only if its target had no active run and no earlier one taken has the same target |
| CanaryBucket.StableCanaryBucket | src/lib/remediate/autonomous.ts:78-86 | the 32-bit shift-and-add loop computes FNV-1a modulo 2^32, then modulo 100, and no intermediate leaves the exact integers of a double |
| CanaryBucket.ShiftsMultiplyByPrime | src/lib/remediate/autonomous.ts:82-83 | adding the five signed 32-bit shifts multiplies by the FNV prime modulo 2^32 |
| CanaryBucket.CanarySelectionIsNested | src/lib/remediate/autonomous.ts:88-98 | selected at p percent if and only if the fixed bucket is below p; so selection at p implies selection at every larger percentage |
| CanaryBucket.XorIsBitwise | src/lib/remediate/autonomous.ts:82 | each bit of the exclusive or is set if and only if it is set in exactly one operand |
| CanaryBucket.FnvParameters | src/lib/remediate/autonomous.ts:79-83 | the offset basis and the prime are those of 32-bit FNV-1a |
| CanaryBucket.RanksAreExact | src/lib/remediate/autonomous.ts:41-66 | which tiers may run by themselves under which highest tier, and which risks call for approval under which threshold |
| CanaryBucket.SelectionIsExact | src/lib/remediate/autonomous.ts:68-98 | safe actions always take part, observed ones never, all others if and only if their bucket is below the percentage, taken between 1 and 100 |
| CanaryBucket.Utf16StandsFor | src/lib/remediate/autonomous.ts:80-81 | the code units that are hashed stand for the characters of the seed |
| AutonomousPlanner.NewRunsAreFresh | src/lib/remediate/autonomous-runtime.ts:379-443 | a created payload starts fresh and waits for an operator if and only if the tier or the risk calls for approval |
| AutonomousPlanner.QueueAutonomousRemediation | src/lib/remediate/autonomous-runtime.ts:226-541 | with anyone acting between the four counts and, in every turn, before the look for active runs, before the look for the latest request and before the create, the loop ends in the table, counters and decisions of the specified pass, which DecisionsAreExact and RunIsPlanned tell row by row |
| AutonomousPlanner.OneDecisionPerAction | src/lib/remediate/autonomous-runtime.ts:540-541 | one decision per action, queued plus skipped is the number of actions, and the approvals reported as pending are exactly those of queued actions that wait for an operator, whatever the checks and whatever others do |
| AutonomousPlanner.RefusalIsExact | src/lib/remediate/autonomous-runtime.ts:269-377 | an action passes the checks if and only if it meets every demand, each stated over the rows and the policy; the reason given otherwise is the first that holds, in the order of the checks |
| AutonomousPlanner.DecisionsAreExact | src/lib/remediate/autonomous-runtime.ts:268-538 | action i is queued if and only if it met every demand by the counters and in the two readings of its turn; its run is appended to the table as it then is, as planned, and lasts; a skip reason was the first that held |
| AutonomousPlanner.RunIsPlanned | src/lib/remediate/autonomous-runtime.ts:379-443 | of the row a turn appends: its commands are the action's own, which the guard judged; rollback is enabled if and only if the policy wants it and the action has rollback commands that are not blank, and carries those; the canary is enabled if and only if there are checks, with those; the attempt limit is the policy's; an approval is required if and only if tier or risk calls for one |
| AutonomousPlanner.CountsAreExact | src/lib/remediate/autonomous-runtime.ts:228-263 | the four counts are the sizes of these sets of rows: active on the host, queued anywhere, requested for the host within the hour by the planner and by anyone |
| CommandLists.CommandListIsCleaned | src/lib/remediate/autonomous-runtime.ts:33-42 | a list of commands keeps the first 20 entries that are not blank, in order and trimmed, and is empty if and only if all are blank |
| PlannedRuns.AdmittedRunGetsThrough | src/lib/remediate/autonomous-runtime.ts:268-538 | across modules: a run the planner admits carries the commands its guard accepted, whatever happens after; under the same guard the drain's checks let it through if and only if the host is enabled, its time to live is not over and it is due; and while queued it may start if and only if it has its approval, if it needs one, and any retry delay is over |
| PlannedRuns.RequestGetsThrough | src/app/api/remediate/route.ts:687-757 | the same of a manual request, which never waits for an approval |
| PlannedRuns.LetThroughIsExecuted | src/lib/remediate/queue.ts:415-632 | when such a run is picked by an idle worker that nobody races for, that turn executes it, exactly once, if and only if the host is enabled and its time to live is not over |
| PlannerCaps.CountersMissTheGaps | src/lib/remediate/autonomous-runtime.ts:228-263 | after every turn each count of the table is the running counter plus what others have changed since it was read |
| PlannerCaps.UndisturbedPassRecounts | src/lib/remediate/autonomous-runtime.ts:228-307 | when nobody acts during the pass, its counters are what recounting the table gives |
| PlannerCaps.CapsAreExceededByAtMost | src/lib/remediate/autonomous-runtime.ts:228-307 | whatever anyone does, the cycle cap holds, and no count ends above the greater of its cap and its first value by more than the runs others create since it was read, plus, for the global backlog, the runs that were running when it was read |
| PlannerCaps.CapsAreKept | src/lib/remediate/autonomous-runtime.ts:228-307 | under drains, approvals and rejections alone, no cap is exceeded beyond where its count stood, the global one when nothing was running as it was counted |
| PlannerCaps.HourlyCountersAreClose | src/lib/remediate/autonomous-runtime.ts:238-262 | the hourly counters are never too high, and too low by at most the runs that others create |
| PlannerCaps.BacklogSwings | src/lib/remediate/queue.ts:256-1371 | what every step does to the global backlog: creates, replays and runs put back add one, winning claims and rejections take one, nothing else changes it |
| PlannerCaps.GlobalCapIsExceeded | src/lib/remediate/autonomous-runtime.ts:304-307 | a history with one running run, which a drain puts back during a pass that nobody else creates runs in: the global backlog reaches the bound, one over its cap |
| PlannerCaps.HostCapIsExceeded | src/lib/remediate/autonomous-runtime.ts:299-302 | a history with one rejected run, which an operator replays during a pass: the active runs of the host reach the bound, one over their cap |
| AutonomousPlanner.CooldownIsKept | src/lib/remediate/autonomous-runtime.ts:322-348 | a queued action comes more than the cooldown after every request for it in the table when it looked, unless one is dated in the future |
| AutonomousPlanner.TurnKeepsUniqueExactlyWhen | src/lib/remediate/autonomous-runtime.ts:309-513 | a turn that queues an action leaves one active run for its target if and only if none is active at the moment it writes |
| AutonomousPlanner.PlanningKeepsActiveUnique | src/lib/remediate/autonomous-runtime.ts:309-513 | a pass keeps one active run per host and action, even when the plan repeats an action, when others look for active runs as they create one and create none between the look of a turn and its own create |
| AutonomousPlanner.OverlappingPassesQueueTwice | src/lib/remediate/autonomous-runtime.ts:309-513 | when another pass for the host creates the same run after a turn has looked, two runs are active for the target |
| JsonText.FilterIsExact | src/lib/remediate/queue-runtime.ts:288-298 | in printed JSON with plain keys, the text of a key and the beginning of a value occurs if and only if some member has that key and such a value, whatever the strings contain |
| JsonReading.PrintIsInjective | src/lib/remediate/queue-runtime.ts:288-298 | different JSON trees print as different texts: escapes, tokens and nesting can be told apart |
| JsonText.EscapedStandsFor | src/lib/remediate/queue-runtime.ts:288-298 | an escaped string stands, by section 7 of RFC 8259, for the string it was made of |
| JsonText.EscapesAreShort | src/lib/remediate/queue-runtime.ts:288-298 | escaped are exactly the quote, the backslash and the control characters, these in hexadecimal only where no letter stands for them |
| PayloadFilters.FiltersFindTheField | src/lib/remediate/queue.ts:882-931 | of everything the two writers store, each substring filter finds exactly the runs it is meant to: execute runs, dry runs, dead letters, required and pending approvals, set due times |
| PayloadFilters.DryRunFilter | src/app/api/remediate/route.ts:647-656 | the filter that looks for a dry run finds exactly the dry runs |
| PayloadFilters.AutoQueuedFilter | src/lib/remediate/autonomous-runtime.ts:226-247 | the filter of the planner's hourly count finds exactly the autonomously queued execute runs |
| PayloadJson.ReadingNormalizes | src/lib/remediate/queue-runtime.ts:167-286 | whatever JSON is read, the payload is in normal form: no due time while dead-lettered or awaiting approval, a status exactly when approval is required, no legacy path, the backup directory created when used |
| PayloadJson.UnreadableExactlyWhen | src/lib/remediate/queue-runtime.ts:260-286 | a payload cannot be read if and only if it is no object with the mode of an execute run, has no action, or has no command that is not blank |
| PayloadJson.LastMemberCounts | src/lib/remediate/queue-runtime.ts:247-258 | of members with the same key the last one counts, as JSON.parse has it |
| PayloadJson.NothingReadsAsDefaults | src/lib/remediate/queue-runtime.ts:167-245 | without queue metadata a run starts fresh and needs nothing, whatever the raw value is instead |
| PayloadJson.WordsAreRead | src/lib/remediate/queue-runtime.ts:91-109 | flags are read from booleans and eight words, whatever their case and the white space around them; a status is approved or rejected by these words only |
| PayloadJson.NumbersAreReadWithin | src/lib/remediate/queue-runtime.ts:167-235 | numbers outside their ranges are read as the nearest number within |
| PayloadJson.RoundTrip | src/lib/remediate/queue-runtime.ts:260-298 | reading back the stored text of a normal payload gives the same payload if and only if its texts are within their limits (or end in the one note that counts itself) |
| PayloadJson.RoundTripKeepsTheRest | src/lib/remediate/queue-runtime.ts:260-298 | action, profile, commands, codes and notes of a written normal payload are always read back unchanged |
| PayloadJson.TruncateFixes | src/lib/remediate/queue-runtime.ts:128-134 | truncating again leaves a trimmed text alone if and only if it is short or has one exact shape |
| PayloadJson.TextReads | src/lib/remediate/queue-runtime.ts:128-134 | a written text is read back unchanged if and only if truncation leaves it alone |
| PayloadJson.StatusReads | src/lib/remediate/queue-runtime.ts:178-187 | a written approval status is read back unchanged |
| LegacyPaths.MigrationIsComplete | src/lib/remediate/queue-runtime.ts:136-151 | migration leaves no legacy path, changes nothing when there is none, and is idempotent |
| LegacyPaths.ReplacingKeepsTheRest | src/lib/remediate/queue-runtime.ts:138-149 | a replacement puts the new path in the place of every old one, left to right, and leaves the rest of the command as it is |
| LegacyPaths.MigrationReplacesThree | src/lib/remediate/queue-runtime.ts:136-151 | a migration is these replacements for the three legacy paths, one after the other |
| LegacyPaths.PathsAsWritten | src/lib/remediate/queue-runtime.ts:136-165 | the paths and the command that creates the directory |
| LegacyPaths.ReplacingLeavesNoMatch | src/lib/remediate/queue-runtime.ts:138-149 | a global replacement removes its pattern and creates no other legacy path, not even across a seam |
| LegacyPaths.MigrationKeepsEdges | src/lib/remediate/queue-runtime.ts:136-151 | a trimmed, non-empty command stays trimmed and non-empty |
| LegacyPaths.BackupDirIsEnsured | src/lib/remediate/queue-runtime.ts:153-165 | the directory is created whenever it is used, by at most one command, put first and only when some command mentions it; doing it again changes nothing |
| FleetPolicy.CapsAreExact | src/lib/remediate/fleet-policy.ts:385-395 | a number of hosts is within the total cap if and only if it is at most maxHosts, taken between 1 and 500, and one or within the percentage of the fleet, taken between 1 and 100; the cap of a group is maxPerGroup, taken between 1 and 200 |
| FleetPolicy.ApplyBlastRadiusSafeguards | src/lib/remediate/fleet-policy.ts:378-425 | the loop over a mutable count per group yields the greedy selection |
| FleetPolicy.GreedySelectionIsOptimal | src/lib/remediate/fleet-policy.ts:378-425 | of the method's inputs: the accepted hosts are within maxHosts, the percentage and, in every group, maxPerGroup; and every set of hosts within these has no more of them in any prefix of the host list |
| FleetPolicy.RefusalIsExact | src/lib/remediate/fleet-policy.ts:396-425 | a host is rejected with max_hosts if and only if one host more than those accepted before it is not allowed, and otherwise with max_per_group if and only if its group has maxPerGroup, taken between 1 and 200, of them |
| FleetPolicy.SelectionPartitionsInOrder | src/lib/remediate/fleet-policy.ts:396-425 | every host is in exactly one of the two lists, in input order, a rejected one with the reason it was turned away for |
| FleetRollout.ChunksShape | src/lib/remediate/fleet-policy.ts:427-433 | cutting keeps every item in order, in ceil(n / size) stages of 1 to size items |
| FleetRollout.Chunk | src/lib/remediate/fleet-policy.ts:427-433 | the loop cuts as specified |
| FleetRollout.BuildFleetRolloutStages | src/lib/remediate/fleet-policy.ts:435-479 | the loops over the grouped hosts yield the specified stages |
| FleetRollout.StagesCoverEveryHostOnce | src/lib/remediate/fleet-policy.ts:435-479 | the stages flatten to a permutation of the hosts, each of 1 to size hosts; group-canary stages number ceil(G / size) + ceil((n - G) / size) |
| FleetRollout.CanariesGoFirst | src/lib/remediate/fleet-policy.ts:450-479 | the first stages hold exactly first hosts of groups, and every other host comes in a strictly later stage than the first host of its group |
| FleetRollout.WavesGoByGroup | src/lib/remediate/fleet-policy.ts:450-479 | both waves go group by group in the order of the group names, and the rest of a group comes in input order |
| IncidentTimeline.Dedupe | src/lib/incident-signals.ts:250-262 | the loop with its map of last seen times keeps exactly the specified signals |
| IncidentTimeline.MinutesAreRounded | src/lib/incident-signals.ts:214-219 | two signals count as within n minutes if and only if they are less than half a minute further apart than n minutes |
| IncidentTimeline.Summarize | src/lib/incident-signals.ts:264-276 | every counter says how often, and both sums equal the total |
| IncidentTimeline.BuildIncidentTimeline | src/lib/incident-signals.ts:229-282 | the signals of all snapshots in order, sorted, deduped and summarized as specified, whatever a snapshot yields |
| IncidentTimeline.KeptAreApart | src/lib/incident-signals.ts:250-262 | kept signals with the same key are at least half a minute further apart than the window |
| IncidentTimeline.DroppedAreCovered | src/lib/incident-signals.ts:250-262 | every dropped signal lies within the window, rounded like that, of a kept one with the same key that is no older |
| IncidentTimeline.DedupeIsMaximal | src/lib/incident-signals.ts:250-262 | per key, no selection with the same spacing keeps more signals |
| IncidentTimeline.TimelineIsNewestFirst | src/lib/incident-signals.ts:244-262 | the timeline is a newest-first, most-severe-first selection of the signals, in the order critical, high, medium, low, info |
| IncidentTimeline.KeysCanCollide | src/lib/incident-signals.ts:221-223 | two different signals with the same correlation key |
| IncidentTimeline.KeyIdentifiesExactlyWhen | src/lib/incident-signals.ts:221-223 | no signal with another code, title or detail has the key of a signal if and only if none of its three texts contains a bar |
| AutoBreaches.CollectAutoBreachCandidates | src/lib/auto-breaches.ts:145-184 | the loop over an insertion-ordered map yields the specified candidates |
| AutoBreaches.CandidatesAreStrongest | src/lib/auto-breaches.ts:158-183 | one candidate per promoted key, carrying the first of its most severe signals |
| BreachContents.CandidatesSayWhatLeads | src/lib/auto-breaches.ts:83-183 | one candidate for each breach with an alarming signal (four codes, and every critical alert), saying what the first of its most severe signals says, with the severity of a breach |
| BreachContents.RowsAreAccountedFor | src/lib/auto-breaches.ts:186-323 | of every row after a reconciliation: an old one is as it was, closed at that snapshot, or told anew as the leading signal for its breach says, and a new one is opened for such a signal |
| BreachContents.KeysMeetExactlyWhen | src/lib/auto-breaches.ts:89-94 | two signals are taken for the same breach if and only if they have the same code and, for a generic alert, the same title up to case and surrounding white space, or the code of one is spelled like the key of a generic alert |
| AutoBreaches.CollectedAreWellFormed | src/lib/auto-breaches.ts:158-183 | collected candidates have distinct keys, and their evidence names the key, as reconciliation relies on |
| AutoBreaches.ReadExisting | src/lib/auto-breaches.ts:200-232 | the scan finds the newest open managed breach and the ignored keys |
| AutoBreaches.BreachTable.ReconcileAutoBreachesForHost | src/lib/auto-breaches.ts:186-323 | the table becomes the specified one, the counts are right, and open after = open before + opened - fixed |
| AutoBreaches.SuppressedIsSize | src/lib/auto-breaches.ts:233-318 | the suppressed count is the number of candidates whose key an operator ignores |
| AutoBreaches.OpenKeysExact | src/lib/auto-breaches.ts:217-318 | for every table, which keys are open and which ignored afterwards |
| AutoBreaches.LandsOnTarget | src/lib/auto-breaches.ts:217-318 | the open keys become the observed ones minus the ignored ones if and only if no observed key was open and ignored and no unobserved key was open twice |
| AutoBreaches.TidyIsKept | src/lib/auto-breaches.ts:217-318 | at most one open breach per key and no key open and ignored are kept, and the target is reached |
| BreachRaces.OverlappedOpenFor | src/lib/auto-breaches.ts:200-318 | how often a key is open after two overlapping reconciliations of a tidy table: an open one once if both observe it, any other that is neither ignored nor blank once for each that observes it |
| BreachRaces.OverlappedLandsOnTargetExactlyWhen | src/lib/auto-breaches.ts:200-318 | a key is open twice if and only if both observe it and it was neither open nor ignored; the key is as the second one wants it if and only if the first does not open it and does not close it while the second observes it |
| BreachRaces.OpenedTwiceStaysOpen | src/lib/auto-breaches.ts:200-318 | from an empty table, two overlapping reconciliations open one breach twice, and a later one that observes nothing leaves one of the two open |
| AutoBreaches.OthersUntouched | src/lib/auto-breaches.ts:219-231 | other hosts' rows, unmanaged rows and rows not open stay as they are; nothing is deleted |
| AutoBreaches.ReconcilingAgainChangesNothing | src/lib/auto-breaches.ts:186-323 | reconciling the same status again at a later snapshot changes nothing |
| IncidentEngine.TimersAreExact | src/lib/ops/incident-engine.ts:569-615 | ackDueAt - now is 60,000 times the acknowledgement minutes supplied, or of the environment, taken between 1 and 1440, or else 5, 15 or 30 by level; nextEscalationAt - ackDueAt likewise with the escalation minutes and 10, 20 or 45; the escalation minutes never move ackDueAt |
| IncidentEngine.RefusalIsExact | src/lib/ops/incident-engine.ts:982-1336 | a request is refused for the first of three reasons that holds: it asks for nothing, it names no incident, or the incident's state forbids the action |
| IncidentEngine.CanRunWhatIsPossible | src/lib/ops/incident-engine.ts:617-638 | an open incident is not closed or reopened, an acknowledged one not closed, a resolved one not acknowledged, a closed one only closed again or reopened; all else is possible |
| IncidentEngine.LifeFollowsLog | src/lib/ops/incident-engine.ts:895-1341 | with any interleaving of operations and sweep writes, state, assignee, due time of the acknowledgement, acknowledgement, resolution, closing, last escalation and postmortem fields are those of the event log, and each timestamp is set exactly in its states |
| IncidentEngine.OperationIsLogged | src/lib/ops/incident-engine.ts:982-1336 | every operation is logged once, at its instant, as the event it is with the values supplied, and keeps level and escalations; a note changes nothing else |
| IncidentEngine.CreationIsLogged | src/lib/ops/incident-engine.ts:895-954 | the log of a new incident is its creation with both timers, then its assignee, then its note, if there are any |
| IncidentEngine.LogsAreLawful | src/lib/ops/incident-engine.ts:895-1516 | whatever the interleaving, no incident ever gets an event that the state of its log forbids, and every reopening and escalation in a log sets the timers of its level |
| IncidentEngine.EscalateKeepsOkExactlyWhenTimely | src/lib/ops/incident-engine.ts:1488-1513 | the sweep's write keeps counts and timers right if and only if the row is still open, due and has the count that was read |
| IncidentEngine.CountsAndTimersFollowLogExactlyWhenTimely | src/lib/ops/incident-engine.ts:1451-1516 | over whole runs, escalationCount is the number of escalations, nextEscalationAt is the log's and set exactly when open, and every escalation was due and numbered in turn, if and only if every sweep write met its row as read |
| IncidentEngine.OverlappingSweepsLoseOne | src/lib/ops/incident-engine.ts:1488-1513 | two sweeps that read the same count escalate twice and count once |
| IncidentEngine.EscalationsAreSpaced | src/lib/ops/incident-engine.ts:1488-1513 | with a clock that does not go back, escalations hit open incidents only, never before they are due, and at least the interval after the previous one, even across a reopening |
| IncidentEngine.SweepIsTimely | src/lib/ops/incident-engine.ts:1458-1516 | an uninterrupted sweep escalates exactly its targets, once each, and every write meets its row as read |
| IncidentEngine.SweepTakesTheSoonest | src/lib/ops/incident-engine.ts:1458-1516 | each target is escalated exactly once and due no more afterwards; what is still due was left out because the limit, taken between 1 and 200, was used up, and comes after everything taken in that order |
| IncidentEngine.SweepGoesInOrder | src/lib/ops/incident-engine.ts:1458-1516 | targets are taken by timer, then by the due time of the acknowledgement, then by age |
| IncidentEngine.DueGoesByTheTimer | src/lib/ops/incident-engine.ts:1461-1475 | the branch of the filter for a missing timer never decides |
| IncidentEngine.SweepAmidIsHarmlessExactlyWhenTimely | src/lib/ops/incident-engine.ts:1485-1516 | after a sweep amid other work, counts and timers are right if and only if every write of a sweep met its row as read |
| IncidentEngine.PeacefulSweepKeepsOk | src/lib/ops/incident-engine.ts:1485-1516 | that is so when nobody acknowledges, resolves, closes or reopens a target before its write and no other sweep runs; creates, notes, assignments and postmortems do no harm |
| IncidentEngine.NextDueIsTheSoonest | src/lib/ops/incident-engine.ts:1518-1536 | the reported next due instant is the earliest timer of an open incident, and missing if and only if none is open |
| IncidentEngine.IncidentTable.CreateIncidentRun | src/lib/ops/incident-engine.ts:851-954 | appends the incident with its events, open, at its level, with the assignee given, the acknowledgement due after its minutes and the escalation after its own minutes from then; or nothing if the workflow or the named host does not exist |
| IncidentEngine.IncidentTable.AssignIncidentRun | src/lib/ops/incident-engine.ts:982-1011 | performs the specified step or gives the refusal, a missing assignee first |
| IncidentEngine.IncidentTable.AcknowledgeIncidentRun | src/lib/ops/incident-engine.ts:1029-1056 | performs the specified step or gives the refusal |
| IncidentEngine.IncidentTable.ResolveIncidentRun | src/lib/ops/incident-engine.ts:1074-1110 | performs the specified step, starting the postmortem draft, or gives the refusal |
| IncidentEngine.IncidentTable.CloseIncidentRun | src/lib/ops/incident-engine.ts:1128-1158 | performs the specified step or gives the refusal |
| IncidentEngine.IncidentTable.ReopenIncidentRun | src/lib/ops/incident-engine.ts:1176-1217 | opens the incident with fresh timers, those of its level counted from now, or gives the refusal |
| IncidentEngine.IncidentTable.AddIncidentNote | src/lib/ops/incident-engine.ts:1236-1253 | performs the specified step or gives the refusal |
| IncidentEngine.IncidentTable.UpdateIncidentPostmortem | src/lib/ops/incident-engine.ts:1269-1336 | replaces or clears the texts supplied, sets and clears the publication instant with the status, or gives the refusal, an empty request first |
| IncidentEngine.IncidentTable.RunIncidentEscalationSweep | src/lib/ops/incident-engine.ts:1451-1537 | with others acting before any write, writes the targets of its read one after the other, and reports them and the next due instant |
| RateLimiter.RateStore.MaybeSweep | src/proxy.ts:49-57 | deletes exactly the expired buckets, at most once per interval |
| RateLimiter.RateStore.Evaluate | src/proxy.ts:117-151 | the decision depends on the live bucket of the key alone, swept or not |
| RateLimiter.RemainingIsExact | src/proxy.ts:117-151 | a request is turned away if and only if it comes after the maximum of its window; remaining is how many more get through in that window, whenever they come; a window lasts from its first request |
| RateLimiter.SweepingNeverChangesADecision | src/proxy.ts:49-57 | sweeps at any moments change no decision compared with never sweeping |
| RateLimiter.KeyLetThroughAtMostTwice | src/proxy.ts:117-151 | over the whole store, whenever it is swept and whatever other keys do, any interval of one window's length lets a key through at most twice its maximum |
| RateLimiter.AtMostTwiceTheMaximum | src/proxy.ts:117-151 | the same for one bucket, and at most the maximum within one window |
| RateLimiter.TwiceTheMaximumIsReached | src/proxy.ts:117-151 | the bound is attained |

## Left out

- Prisma, SQL and transactions: tables are sequences and one database access is one atomic step.
- ManualRoute.ExecuteRemediation: the plan that holds the action, the access check and the plan and dry-run modes are not modelled; the latest dry run is an input.
- The second approval test of the drain loop (src/lib/remediate/queue.ts:535-556): readiness already implies approval, so it cannot be reached.
- Of the reported items, the copies of approval, canary and rollback fields and the error text.
- The row's error, output and audit texts; deletion of runs between claim and re-read.
- Re-truncation of long texts on every read is modelled in PayloadJson but not inside the protocol, where a stored payload is the record it reads as; a missing attempt limit is filled in by the reader.
- AutonomousPlanner.QueueAutonomousRemediation: the four counts and the five readings of the manual route are answered in the order in which they are asked; unreadable rows do not count as autonomously queued.
- Building the plan from snapshots, host lookup, paused rollouts and the auto-drain trigger of the planner.
- JSON text that JSON.stringify did not write, numbers that are not integers, and lengths in UTF-16 units (texts are sequences of characters); canary seeds are encoded in UTF-16.
- Host policy profiles, guard overrides and regular-expression parsing (src/lib/remediate/host-policy.ts, src/lib/remediate/guard.ts:58-111).
- Fleet selectors, fleet policy deltas and merging, and the order in which hosts are listed for a rollout.
- IncidentTimeline.BuildIncidentTimeline: what a snapshot yields is a parameter (and the breaches start from the extracted signals), because extracting signals from a status would only add easy members.
- AutoBreaches.BreachTable.ReconcileAutoBreachesForHost: runs uninterrupted; BreachRaces has two at once, each writing as a whole.
- Breach evidence that names a key but no signal, on which the source would throw.
- Workflow steps of incidents, which only append an event; user lookup, argument trimming and missing ids; fractional minutes; the layout of action items.
- The request key, headers and response of the proxy.
- Shell execution, output redaction, e-mail, webhooks, authentication and all pages: input and output.
- Queue snapshots, observability counters, roles, heartbeats, objectives and posture scores: counts and small functions that would add only easy members.
