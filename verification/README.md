# What makes Jehad OS reliable, proved

Jehad OS delegates work to durable workflows, reads iMessage through a sensor, and sends
through queues. What keeps it honest under crashes, replays and retries is a set of
small protocols over rows in Postgres, plus the parsers and printers between them. This
project models those protocols and proves what they promise.

Every SQL statement is one atomic step. A process may throw or die between any two of
its steps and start over; the owner, cron ticks and overlapping workers act in between.
Code that works by changing things step by step is a class or a loop here; code made of
expressions is a function. The main results hold for every input and every run.

## How it is laid out

- `OutcomeStore`, `OutcomeExecutor`, `Verdicts`, `WaitPredicates`, `WaitEvents`: the
  outcome executor, the rows it writes with their triggers, a verifier's verdict, the
  typed wait vocabulary, and the events the rest of the system sends.
- `Wakeups`, `ResumeScanner`: the signal protocol between executor and scanner as
  interleaved steps, and one tick of the scanner and of the reaper over all rows.
- `ApprovalWaits`, `WorkflowNames`: approval pauses under replay, and the names they use.
- `SensorPoll`, `SensorAgent`, `SensorRuns`, `PairedHandles`: the iMessage sensor, one
  poll, one cycle, and whole runs with crashes.
- `Outbox`, `OutboxDrain`: the dispatcher as interleaved steps, and as passes over the table.
- `Migrations`: up and down over a schema of any type.
- `EnvelopeScanner`, `Citations`: worker output, read out of prose and held to its sources.
- `AppleScript`, `Notification`, `CanonicalText`, `Fingerprints`, `PolicyToken`: printers
  and the readers that must invert them.
- `ReminderSweep`, `SpendGuard`: claim before send, and a bound on money.
- `Prelude`, `Trimming`: shared datatypes and string operations.

## Where the code does not do what it says

Each of these is a theorem with the exact condition under which the promise holds, and
where a second theorem is named, it shows an input or a run on which it fails.

- A replayed wait entry is meant to reuse its wait. It does exactly when the plan's
  condition has no field outside the vocabulary (`OutcomeStore.ReplayReusesWaitExactly`,
  `OutcomeStore.NotedConditionMintsTwice`): the stored condition is canonicalised and the
  lookup is not.
- A wait that nothing can wake is meant to be refused. Event type and condition are
  checked apart from each other and from what is sent. So waits are admitted that ask one
  source's condition of another's events, that ask for a status announced under an event
  type of its own, or that ask for a ref no outcome can have; those are all that the syncs
  and the transitions never wake (`WaitEvents.WakeableExactly`). Of these the owner can
  still wake the last two kinds, by posting an event by hand, and never the first
  (`WaitEvents.WakeableByPostExactly`; `WaitEvents.SilentArrival`,
  `WaitEvents.SilentCompletion`, `WaitEvents.SilentRef`).
- A verifier may never decide a criterion the owner reserved. The lane's guard looks for
  one pending criterion that is not reserved, and then accepts verdicts on all of them,
  also on ones the owner has decided (`Verdicts.ReservedJudgmentKeptExactly`,
  `Verdicts.OwnerIsOverruled`). And intake admits twelve criteria while a verdict holds
  ten (`Verdicts.SomeVerdictFitsExactly`, `Verdicts.ElevenNeverFit`).
- The executor's wait lane gives up after eight rechecks and consumes the entry. Signals
  alone bring that about exactly when some wait of the parked outcome is satisfied or
  enough signals are still in flight (`Wakeups.SignalsDriveThroughExactly`); timeouts
  alone always do (`Wakeups.TimeoutsDriveThrough`). The scanner looks at all the waits an
  outcome ever had, so a plan of two waits gets there by itself (`Wakeups.TwoWaitsMislead`).
- The reaper blocks an outcome whose wake-up is already due, when an older wait of it
  expires and none still waits (`ResumeScanner.WakeupSurvivesReaperExactly`, which covers
  ticks that throw as well).
- A reminder's touch is to be sent once. A morning touch at the probe time, claimed within
  that minute, is re-armed at the very instant it had (`ReminderSweep.FollowUpRepeatsExactly`):
  runs without such a claim send no touch twice (`ReminderSweep.OneSendPerTouch`). From
  any state about to make one while the reminder still stands at that touch, a second,
  overlapping tick can send the morning message again (`ReminderSweep.RepeatedIsSentTwice`,
  `ReminderSweep.ProbeMinuteSendsTwice`); a later tick can send the follow-up at the same
  instant (`ReminderSweep.RepeatedIsFollowedAtOnce`). A second
  sweep at the same clock sees such a touch again, and whatever the first one skipped in
  the quiet hours (`ReminderSweep.SecondSweepExactly`).
- An armed reminder always has a touch to come. A tick that dies between claiming the last
  nudge and parking the reminder leaves it armed with none, for as long as its owner does
  not resolve or renegotiate it; nothing else does (`ReminderSweep.FallsSilentExactly`,
  `ReminderSweep.SilenceLasts`, `ReminderSweep.NeverSilent`).
- A dispatched outbox row is final exactly when no claim on it is outstanding
  (`Outbox.DispatchedIsFinalExactly`).
- A sensor that restarts delivers the whole backlog exactly when no batch of it ends in as
  many failed decodes as stop the decoder, and otherwise stops before the first such batch
  (`SensorRuns.CatchesUp`). Where the batches fall depends on where it starts, so a broken
  run may deliver less than an uninterrupted one (`SensorRuns.BrokenRunEqualsUninterrupted`,
  `SensorRuns.RestartDeliversLess`).
- A cursor stuck below the newest row is not to read healthy. It does exactly when it read
  healthy before and the cycle cannot read the database, or its post is refused without
  the decoder having stopped (`SensorRuns.CursorHealthExactly`,
  `SensorRuns.RefusedPostsReadHealthyExactly`).
- Resolving an approval also closes waits whose id merely starts with its id
  (`ApprovalWaits.ResolvedClosesExactly`).
- `completed: true` means resolved criteria. The status returned beside it is `completed`
  exactly when others have left the row at completed, or at verifying both when it was
  last read and when it was last updated (`OutcomeExecutor.CompletedStatusExactly`, `OutcomeExecutor.CompletedBesideFailed`).
- What an assignment spends stays within its budget while it is measured. Storing the
  result replaces the measured spend by what the result claims, so the record stays
  within the budget exactly when the claim does (`OutcomeStore.RecordedSpendExactly`,
  `OutcomeStore.ClaimOverBudget`).
- An object is not to be fished out of an array. One behind a code fence or behind prose
  is (`EnvelopeScanner.FishedOutOfArrayExactly`, `EnvelopeScanner.FencedArrayIsOpened`).
- The bake-off's gate calls its projection conservative. With settled prices it bounds the
  full grid exactly when every candidate that costs anything has a recorded cost in the
  smoke: one without has no mean, and nothing more of it is projected
  (`SpendGuard.GateBoundsGridExactly`, `SpendGuard.UnansweredIsFree`).

## Model

| member | source | states |
|---|---|---|
| OutcomeExecutor.Lifetime | packages/workflow/src/outcome-workflows.ts:201-863 | over any number of runs that may die or throw at any step: research calls made plus assign entries left never exceed those the plan began with; completed means every criterion verified or waived; worker-verified criteria are backed by a succeeded verifier with evidence; at most one verifier is ever at work or has succeeded; no park with the owner was over a live assignment; with plain waits no two live waits are for the same thing; all that was done keeps to the script, and every answer of the owner was obeyed |
| OutcomeExecutor.RunExecutor | packages/workflow/src/outcome-workflows.ts:201-863 | on every normal return: one to eight laps through the lanes, and their number; no assignment minted by the call is live; `completed` only over existing and resolved criteria and only if that was asked for last; the status beside `completed` is completed iff the completing update found the row as read or completed already; it asks for failed iff the owner's last answer was no, and then returns that; otherwise it ends completed, blocked, or at a row it found blocked |
| OutcomeExecutor.CompletedStatusExactly | packages/workflow/src/outcome-workflows.ts:237-242 | over all legal moves of others between reads and updates, the status reported beside `completed: true` is completed iff their last walk leaves the row at completed, or at verifying where it was read at verifying; otherwise it is where that walk ends |
| OutcomeExecutor.CompletedBesideFailed | packages/core/src/outcomes/service.ts:363-388 | a legal interleaving with the reaper that reports completed beside failed |
| OutcomeExecutor.CriteriaGate | packages/workflow/src/outcome-workflows.ts:237-242 | completes only over resolved criteria; passes on only if there are none or some is unresolved |
| OutcomeExecutor.WaitLane | packages/workflow/src/outcome-workflows.ts:244-314 | the entry is consumed only once its own wait read satisfied, or after the eighth recheck |
| OutcomeExecutor.AssignLane | packages/workflow/src/outcome-workflows.ts:316-547 | the entry is consumed before the one model call; going on means one dispatch and a stored result with citations; a role the policy does not enable mints nothing |
| OutcomeExecutor.StoreResult | packages/workflow/src/outcome-workflows.ts:455-547 | a reply without a result or without citations hinders the assignment, a result that cannot be stored fails it, and going on means it is stored |
| OutcomeExecutor.VerifierLane | packages/workflow/src/outcome-workflows.ts:554-705 | opens exactly when an unreserved criterion was read pending, a builder succeeded, the role is enabled, and no verifier is queued, running or succeeded |
| OutcomeExecutor.Judge | packages/workflow/src/outcome-workflows.ts:741-815 | goes on only with an accepted verdict, stored with evidence and applied to every criterion it names; hinders the verifier only over one that is not accepted |
| OutcomeExecutor.ParkLane | packages/workflow/src/outcome-workflows.ts:818-857 | asks the owner only with no live assignment, never about a blocked outcome, and only with no wait or work left in the plan; goes on after a yes, asks for failed and returns after a no |
| OutcomeExecutor.Obey | packages/workflow/src/outcome-workflows.ts:850-857 | goes on iff the owner approved, and asks for failed otherwise |
| OutcomeStore.ScriptObeysAnswers | packages/workflow/src/outcome-workflows.ts:850-857 | in every log an executor can leave, a yes is followed by running, a no by failed and then by nothing until a new run |
| OutcomeStore.FailingIsRefused | packages/workflow/src/outcome-workflows.ts:853-856 | a run asks for failed iff the owner's answer just before was no |
| OutcomeStore.OutcomeRows.Transition | packages/core/src/outcomes/service.ts:316-393 | compare-and-set on the status behind the guard and the completion gates; the row's own status is returned, and it is the target unless the race was lost |
| OutcomeStore.GuardByTarget | packages/db/migrations/024_outcomes.sql:97-122 | which statuses lead to which, by where they lead |
| OutcomeStore.LiveExactly | packages/db/migrations/026_assignments.sql:25-60 | an assignment is live until it has succeeded, failed or been hindered |
| OutcomeStore.OutcomeRows.ApplyVerdict | packages/core/src/assignments/verdict.ts:156-275 | when it returns, each criterion a verdict names is as the verdict says or has been resolved by the owner since |
| OutcomeStore.ConsumedEntry | packages/workflow/src/outcome-workflows.ts:371-378 | consuming an assign entry leaves exactly one fewer |
| OutcomeStore.ReplayReusesWaitExactly | packages/workflow/src/outcome-workflows.ts:252-278 | replaying the lookup and creation makes no second wait iff the condition has only vocabulary fields |
| OutcomeStore.NotedConditionMintsTwice | packages/workflow/src/outcome-workflows.ts:252-278 | a condition with a note in it, for which replaying makes a second wait |
| OutcomeStore.RecordedSpendExactly | packages/core/src/assignments/service.ts:520-533 | over any life of an assignment the measured spend stays within the budget; the recorded spend is the measured one until a result is stored and then the claimed one, so it is within the budget iff the claim is |
| OutcomeStore.ClaimOverBudget | packages/core/src/assignments/service.ts:604-612 | a builder of one dollar recorded as having spent a thousand |
| WaitPredicates.ParseIsIdempotent | packages/core/src/outcomes/predicates.ts:83-128 | a canonical condition parses to itself |
| WaitPredicates.StoredAsWrittenExactly | packages/core/src/outcomes/predicates.ts:83-128 | canonicalising changes nothing iff there are no fields outside the vocabulary |
| WaitPredicates.DomainExactly | packages/core/src/outcomes/predicates.ts:62 | a domain is two or more labels of letters, digits and inner hyphens, with dots between them |
| WaitEvents.StatusesAreAll | packages/core/src/outcomes/predicates.ts:83-128 | the statuses a condition may name are those outcomes have |
| WaitEvents.WakesExactly | packages/core/src/outcomes/predicates.ts:136-161 | mail wakes an admitted wait iff the wait is for mail from that domain; a calendar change iff for that kind of change; a transition iff for status changes, it is announced as one, and status and ref are those named, where any are |
| WaitEvents.WakeableExactly | packages/core/src/outcomes/service.ts:389-394 | some event of the mail sync, the calendar sync or a requested transition satisfies an admitted wait iff its event type is one its condition's source sends, its status is one announced as a status change, and its ref is one that can be minted |
| WaitEvents.WakeableByPostExactly | apps/api/src/routes/events.ts:39-64 | some event the owner may post satisfies an admitted wait iff its event type is one of its condition's source |
| WaitEvents.SilentArrival | packages/core/src/outcomes/predicates.ts:136-161 | an admitted wait for mail, asked of calendar events, that no event of the syncs, the transitions or the owner satisfies |
| WaitEvents.SilentCompletion | packages/core/src/outcomes/service.ts:389-394 | an admitted wait for an outcome's completion that no event of the syncs or the transitions satisfies, while a posted one can |
| WaitEvents.SilentRef | packages/core/src/outcomes/service.ts:148-160 | an admitted wait for a two-letter ref that no event of the syncs or the transitions satisfies, while a posted one can |
| Verdicts.ParseVerifierResult | packages/core/src/assignments/verdict.ts:51-146 | the verdicts in order, or a throw exactly when some check fails, repeated ordinals included |
| Verdicts.VerdictSamples | packages/core/src/assignments/verdict.ts:51-146 | verdicts that pass and, for each thing that can be wrong, one that does not |
| Verdicts.TextLimits | packages/core/src/assignments/verdict.ts:51-146 | summaries and reasonings hold up to five hundred units |
| Verdicts.LaneCheckIsServiceCheck | packages/workflow/src/outcome-workflows.ts:746-752 | the executor's check on a parsed verdict and the service's accept the same verdicts |
| Verdicts.AcceptedCoversExactly | packages/core/src/assignments/verdict.ts:216-241 | an accepted verdict's ordinals are exactly the criteria's, each once |
| Verdicts.SomeVerdictFitsExactly | packages/core/src/assignments/verdict.ts:29-30 | criteria can be settled by some verdict iff there are at most ten |
| Verdicts.ElevenNeverFit | packages/core/src/assignments/verdict.ts:29-30 | eleven criteria that open the lane and that no verdict fits |
| Verdicts.AppliedVerdictDecidesEveryCriterion | packages/core/src/assignments/verdict.ts:243-272 | after applying, each criterion is as the verdict of its ordinal says |
| Verdicts.AppliedAsSaid | packages/core/src/assignments/verdict.ts:243-272 | confirmed makes a criterion verified by this verifier, refuted failed, uncertain unverified; one not named stays |
| Verdicts.ReservedJudgmentKeptExactly | packages/workflow/src/outcome-workflows.ts:561-596 | every verdict the lane accepts leaves every owner-reserved criterion, whatever its status, as it was iff none is reserved or there are more criteria than a verdict holds |
| Verdicts.VerdictKeepsExactly | packages/core/src/outcomes/service.ts:415-443 | a single verdict leaves its criterion untouched iff it refutes a failed one or is uncertain of an unverified one |
| Verdicts.OwnerIsOverruled | packages/workflow/src/outcome-workflows.ts:561-596 | an accepted verdict that fails a criterion the owner had verified |
| Verdicts.ConfirmationLeavesEvidence | packages/workflow/src/outcome-workflows.ts:762-772 | an accepted verdict that confirms anything stores a builder's ref as the verifier's evidence |
| Verdicts.CollectConfirmed | packages/workflow/src/outcome-workflows.ts:765-772 | the refs of confirmed verdicts, each once |
| Wakeups.NoStrandedWakeup | packages/workflow/src/outcome-workflows.ts:278-305 | after any interleaving, an executor asleep on a satisfied wait in a parked outcome is named by waiting_on, any due scan signals that run, and its recheck then resumes it |
| Wakeups.RunKeeps | packages/workflow/src/outcome-workflows.ts:927-951 | over every run the invariant holds and a satisfied wait stays satisfied |
| Wakeups.ParksExactly | packages/workflow/src/outcome-workflows.ts:278-287 | parking from running, blocked or waiting leaves the outcome waiting externally for this run; elsewhere the lane is over |
| Wakeups.GoesBackExactly | packages/workflow/src/outcome-workflows.ts:306-314 | after the wait the outcome runs again and waits on nothing, wherever it may |
| Wakeups.RescanIsQuiet | packages/workflow/src/outcome-workflows.ts:938-942 | a scan at the instant of the last one sends nothing |
| Wakeups.SignalsExactly | packages/workflow/src/outcome-workflows.ts:927-933 | a due parked outcome is signalled iff any of its waits is satisfied |
| Wakeups.SignalsDriveThroughExactly | packages/workflow/src/outcome-workflows.ts:288-312 | from asleep on an unsatisfied wait, some run of scans, signals, rechecks and sleeps gives the wait up iff some wait of the parked outcome is satisfied or the signals in flight are enough for the rechecks left |
| Wakeups.TimeoutsDriveThrough | packages/workflow/src/outcome-workflows.ts:288-312 | timeouts alone give the wait up from any such state |
| Wakeups.OlderWaitDrivesThrough | packages/workflow/src/outcome-workflows.ts:288-312 | with an older satisfied wait, a scan for each recheck left uses them up |
| Wakeups.TwoWaitsMislead | packages/workflow/src/outcome-workflows.ts:288-312 | a plan of two waits reaches such a state |
| ResumeScanner.Tables.SatisfyWaitsForEvent | packages/core/src/outcomes/service.ts:518-568 | satisfies exactly the live waits the event answers, and returns each once |
| ResumeScanner.Tables.ResumeScan | packages/workflow/src/outcome-workflows.ts:905-954 | the waits answered by the window become satisfied and no others; the signals, the stamps and all four counts are those of the resulting rows |
| ResumeScanner.SatisfiedExactly | packages/core/src/outcomes/service.ts:518-568 | a scan satisfies a stored wait iff it waits, has not expired, and some event of its type in the window says what its condition asks for; so a wait for mail needs mail from its domain |
| ResumeScanner.AdmittedIsStored | packages/core/src/outcomes/service.ts:472-487 | every condition a wait is created with is one the scan can read |
| ResumeScanner.SignalledExactly | packages/workflow/src/outcome-workflows.ts:927-946 | the outcomes signalled are those with a satisfied wait that are parked and due, each at the run waiting_on names |
| ResumeScanner.SignalledFromRows | packages/workflow/src/outcome-workflows.ts:927-946 | an outcome is signalled iff it waits externally, waiting_on names a run and was not signalled for five minutes, and some wait of it is satisfied |
| ResumeScanner.ResignalsExactly | packages/workflow/src/outcome-workflows.ts:938-954 | resignals are the signals to outcomes not woken in this scan |
| ResumeScanner.RescanSignalsNothing | packages/workflow/src/outcome-workflows.ts:938-951 | a second scan of the stamped rows at the same instant signals nobody |
| ResumeScanner.Tables.ReapTick | packages/workflow/src/outcome-workflows.ts:983-1027 | overdue outcomes fail, due waits expire, outcomes left with no waiting wait block; throws iff an overdue outcome is still proposed |
| ResumeScanner.ReapedExactly | packages/workflow/src/outcome-workflows.ts:991-1025 | from the rows alone: a tick throws iff a late outcome is still proposed; otherwise late ones fail, and one that waits externally and loses its last wait is blocked, and each then waits on nothing |
| ResumeScanner.ExpiredExactly | packages/workflow/src/outcome-workflows.ts:1003-1009 | a waiting wait that has run out is expired, and no other |
| ResumeScanner.BlockedExactly | packages/workflow/src/outcome-workflows.ts:983-1027 | what a tick counts as blocked and as failed is what it blocks and fails |
| ResumeScanner.WakeupSurvivesReaperExactly | packages/workflow/src/outcome-workflows.ts:1005-1025 | over every tick, also one that throws: a due wake-up survives iff its deadline has not passed and nothing of the outcome expires or something still waits; a throwing tick takes it iff it is overdue and comes before the outcome thrown at |
| ApprovalWaits.NeverTwoOpen | packages/workflow/src/correlator.ts:65-97 | no sequence of correlator writes leaves two open rows for one run and reason |
| ApprovalWaits.RunRowExactly | packages/workflow/src/correlator.ts:40-64 | over any writes a run's row is there once started, has the status last written, and has ended once a final one was |
| ApprovalWaits.PauseOpensAndClosesOnce | packages/workflow/src/definition.ts:172-193 | over any crash and replay schedule: one open row while the approval is awaited, none for its id once the pause has returned |
| ApprovalWaits.PauseReturns | packages/workflow/src/definition.ts:172-193 | a schedule in which the pause opens its row, is woken and closes it |
| ApprovalWaits.PauseOnTables | packages/workflow/src/correlator.ts:65-110 | the same promise for a pause that runs on the correlator's tables, under any schedule |
| ApprovalWaits.ResolvedClosesExactly | packages/workflow/src/correlator.ts:82-97 | resolving an id closes an open wait of the run iff the id is a prefix of that wait's id |
| ApprovalWaits.AllResolvedExactly | packages/workflow/src/correlator.ts:98-112 | resolving all waits of a run closes its rows and no others |
| ApprovalWaits.LikePrefix | packages/workflow/src/correlator.ts:89-95 | the pattern matches exactly the texts with that prefix, when it holds no wildcard and no escape |
| WorkflowNames.SignalEventsAreInjective | packages/workflow/src/names.ts:36-40 | equal signal events come from the same run and signal, whatever run ids contain |
| WorkflowNames.ApprovalEventsAreInjective | packages/workflow/src/names.ts:42-45 | equal approval events come from the same run and approval |
| WorkflowNames.EventFamiliesAreDisjoint | packages/workflow/src/names.ts:30-45 | start, signal and approval events never coincide |
| WorkflowNames.StepIdsTellTheWait | packages/workflow/src/names.ts:47-87 | a step id tells its kind of wait and its name |
| WorkflowNames.NamesAsWritten | packages/workflow/src/names.ts:16-87 | the names themselves, for some tokens, and texts that are none |
| SensorPoll.ClassifyRow | apps/imessage-sensor/src/poll.ts:85-143 | the event, and whether a decode was attempted and failed |
| SensorPoll.EventExactly | apps/imessage-sensor/src/poll.ts:85-143 | every field of a row's event, and when a decode is attempted and fails, from the row's columns |
| SensorPoll.ContentRule | apps/imessage-sensor/src/poll.ts:117-142 | a row with content carries exactly one of content, own hash and pairing hash; content exactly for listed handles that are not own |
| SensorPoll.PollOnce | apps/imessage-sensor/src/poll.ts:174-241 | the batch's events, next cursor and counters |
| SensorPoll.BatchIsContiguous | apps/imessage-sensor/src/poll.ts:182-239 | a batch is every row between the old cursor and the new, and empty only at the end |
| SensorPoll.CounterFollowsStream | apps/imessage-sensor/src/agent.ts:397-405 | the stored counter's update follows the trailing failure run of the whole stream |
| SensorAgent.Agent.Cycle | apps/imessage-sensor/src/agent.ts:303-500 | one cycle's new context, outcome and post are those of the cycle's specification |
| SensorAgent.Agent.Heartbeat | apps/imessage-sensor/src/agent.ts:531-573 | the heartbeat and what its answer does to the paired handles |
| SensorAgent.BeatsExactly | apps/imessage-sensor/src/agent.ts:531-573 | from the clocks alone: a cycle attempts a heartbeat iff the database does not open, a reset is unacknowledged, none was ever answered, or the last answer is at least a period old; an answer starts the period anew and every attempt decides the paired handles |
| SensorAgent.OutcomeExactly | apps/imessage-sensor/src/agent.ts:303-500 | which cycles report a reset, a rebaseline, an ingest and a failure, and how many rows, from what they met and posted |
| SensorAgent.HealthExactly | apps/imessage-sensor/src/agent.ts:384-500 | the database, decoder and shadow dimensions after a cycle, from the schema and the rows it read |
| SensorAgent.HealthUnread | apps/imessage-sensor/src/agent.ts:303-380 | what a cycle shows that cannot open the database, or meets an unacknowledged reset |
| SensorAgent.RebaselineExactly | apps/imessage-sensor/src/agent.ts:320-380 | an acknowledged reset moves the cursor where it is asked for, never above the newest row, and clears the alert |
| SensorRuns.BeatsArePaced | apps/imessage-sensor/src/agent.ts:531-550 | over any run, an answered heartbeat that was not forced comes at least a period after the answered one before it |
| SensorRuns.NoCycleIsLate | apps/imessage-sensor/src/agent.ts:531-550 | after any run, the next cycle attempts a heartbeat unless the last answer is younger than a period |
| SensorRuns.NoGapNoDuplicate | apps/imessage-sensor/src/agent.ts:446-475 | over any run of cycles, refusals, crashes and restarts the accepted guids are those of a gapless interval from the baseline that covers the persisted cursor |
| SensorRuns.CursorNeverDecreases | apps/imessage-sensor/src/agent.ts:121-133 | the persisted cursor never goes back |
| SensorRuns.DriftCounterRefinesStream | apps/imessage-sensor/src/agent.ts:397-416 | after any run the counter is the trailing failure run of all attempts, and the decoder is stopped iff it has reached the threshold |
| SensorRuns.StoppedDecoderForwardsNothing | apps/imessage-sensor/src/agent.ts:440-452 | while stopped nothing is posted and the cursor stays |
| SensorRuns.ContentOnlyForListedHandles | apps/imessage-sensor/src/agent.ts:554-573 | over any run, forwarded content is of a handle in the last answered list |
| SensorRuns.CatchesUp | apps/imessage-sensor/src/poll.ts:182-239 | after a restart, enough acknowledged cycles bring the cursor to where delivery stops, and everything above the baseline up to there is delivered; that is the newest row iff no batch of the backlog ends in as many failed decodes as stop the decoder |
| SensorRuns.BrokenRunEqualsUninterrupted | apps/imessage-sensor/src/agent.ts:446-475 | once both have gone as far as the decoder lets them, a broken run and an uninterrupted one have delivered the same guids iff no row lies between the two ends, and so whenever neither latches |
| SensorRuns.RestartCanLatch | apps/imessage-sensor/src/agent.ts:397-416 | delivery of four rows ends at the newest from before the first, and does not move from the first |
| SensorRuns.RestartDeliversLess | apps/imessage-sensor/src/agent.ts:397-452 | two runs over those rows: a sensor that restarts after the first delivers that one and no more, and one that finds all four delivers all four |
| SensorRuns.CursorHealthExactly | apps/imessage-sensor/src/agent.ts:466-483 | a cycle leaves the cursor stuck below the newest row and reading healthy iff it read healthy before and the cycle cannot read the database, or its poll does not stop the decoder and its post is refused |
| SensorRuns.RefusedPostsReadHealthyExactly | apps/imessage-sensor/src/agent.ts:466-483 | after any number of refused posts cursor health still reads healthy iff the failed decodes of re-reading the batch have not reached the threshold |
| PairedHandles.ParsePairedHandlesBody | apps/imessage-sensor/src/paired.ts:51-66 | the list, its absence, or malformed |
| PairedHandles.BodyExactly | apps/imessage-sensor/src/paired.ts:51-66 | a body is absent, malformed, or its entries in order, exactly by its shape |
| PairedHandles.NormalizeIsIdempotent | apps/imessage-sensor/src/paired.ts:32-43 | normalizing a handle twice changes nothing more |
| PairedHandles.NormalizeIsBlankOnlyForBlank | apps/imessage-sensor/src/paired.ts:32-43 | a normalized handle is empty iff the raw one was blank |
| PairedHandles.CacheOfBody | apps/imessage-sensor/src/paired.ts:71-84 | after a body the cache has a handle iff the list holds the same handle; never the empty one |
| Outbox.WindowsAgreeExactly | apps/api/src/outbox.ts:53-59 | the SQL window equals the backoff function iff attempts are at least one or the cap hides the difference |
| Outbox.BackoffDoubles | apps/api/src/outbox.ts:53-59 | the backoff is the base after the first attempt and doubles with every further one, up to the cap |
| Outbox.RestIsBackoff | apps/api/src/outbox.ts:53-59 | the backoff function and the SQL window are both that doubling recurrence |
| Outbox.DefaultRests | apps/api/src/outbox.ts:46-51 | by default 30, 60, 120 and 240 seconds |
| Outbox.RequeueUsesBackoff | apps/api/src/outbox.ts:136-145 | on every reachable failed row the two agree |
| Outbox.DispatchedMeansHandled | apps/api/src/outbox.ts:101-128 | in every interleaving handler calls never exceed attempts and a dispatched row had a handler resolve |
| Outbox.DispatchedIsFinalExactly | apps/api/src/outbox.ts:124-128 | dispatched is final iff no claim on the row is outstanding |
| Outbox.DyingLosesTheClaim | apps/api/src/outbox.ts:231-271 | a drain that dies leaves the row as it is and loses one claim |
| Outbox.OneDrainer | apps/api/src/outbox.ts:231-271 | with one drainer attempts stay within the maximum plus claims lost to crashes, within the maximum where no drain dies, and dispatched is final |
| Outbox.OneDrainerDelivers | apps/api/src/outbox.ts:231-271 | a run of one drainer that dispatches a row once rejected, after its rest |
| OutboxDrain.OutboxTable.DrainOutbox | apps/api/src/outbox.ts:231-271 | one pass computes the specified table, as events of the interleaved machine; claimed is the rows picked, dispatched those of them a handler took and the mark reached, failed the others, and requeued the eligible failed rows |
| OutboxDrain.RequeuedExactly | apps/api/src/outbox.ts:130-145 | a failed row is made pending iff attempts are left and it has rested, by the doubling recurrence, since its last one |
| OutboxDrain.RestingRowsAreLeftAlone | apps/api/src/outbox.ts:231-271 | until then a pass leaves it as it is, and dispatched rows always |
| OutboxDrain.PassesAdvance | apps/api/src/outbox.ts:231-271 | after n spaced passes every row is settled or has failed at least n times |
| OutboxDrain.OutboxDrains | apps/api/src/outbox.ts:231-271 | after as many passes as the maximum, every row is dispatched or exhausted |
| OutboxDrain.DrainRepeatedly | apps/api/src/outbox.ts:231-271 | the passes run on the table: every row ends dispatched or exhausted, handed over no more often than claimed, and dispatched only after a handler resolved |
| Migrations.FileOrderIsStemOrder | packages/db/src/migrate.ts:34-55 | file names are ordered as their stems |
| Migrations.ListedFromDirectory | packages/db/src/migrate.ts:34-55 | a sorted directory lists its migrations in strictly increasing name order |
| Migrations.DownFilesAreNotMigrations | packages/db/src/migrate.ts:26 | no down file passes as a migration |
| Migrations.StemExactly | packages/db/src/migrate.ts:26 | a migration's stem is digits, an underscore and more |
| Migrations.Database.MigrateUp | packages/db/src/migrate.ts:75-117 | under any faults the applied set stays a prefix whose fold is the schema; a tampered checksum throws and changes nothing |
| Migrations.Database.MigrateDown | packages/db/src/migrate.ts:119-149 | the same going down, ending where the target says, newest first |
| Migrations.DownLeavesNamesUpTo | packages/db/src/migrate.ts:131-145 | down to a name leaves exactly the applied names up to it, and none for an empty target |
| Migrations.DownThenUp | packages/db/src/migrate.ts:75-149 | down and then up again restores schema and records |
| EnvelopeScanner.ScanFrom | packages/workflow/src/research-web.ts:106-126 | the loop ends where the scan's specification says |
| EnvelopeScanner.ScanStopsAtObjectEnd | packages/workflow/src/research-web.ts:106-126 | for every JSON object text, whatever follows, the scan stops exactly at its end |
| EnvelopeScanner.ObjectTextsArePrefixFree | packages/workflow/src/research-web.ts:106-126 | no object text is a proper prefix of another |
| EnvelopeScanner.EnvelopeRecoversObject | packages/workflow/src/research-web.ts:92-138 | prose without a brace, an object, and anything after: the object is what is parsed |
| EnvelopeScanner.EnvelopeExactly | packages/workflow/src/research-web.ts:92-138 | something is recovered iff the trimmed text does not start with `[` and an object starts at its first brace |
| EnvelopeScanner.FishedOutOfArrayExactly | packages/workflow/src/research-web.ts:92-138 | an array whose first element is an object, behind any lead without a brace, gives up that object iff the trimmed text does not begin with the bracket |
| EnvelopeScanner.FencedArrayIsOpened | packages/workflow/src/research-web.ts:92-138 | a fenced array out of which an object is recovered |
| EnvelopeScanner.ParseJsonEnvelope | packages/workflow/src/research-web.ts:92-138 | the steps of the method compute the specified envelope |
| EnvelopeScanner.OpeningFenceExactly | packages/workflow/src/research-web.ts:92-104 | an opening fence is cut off with its language word, in any spelling, and the blanks behind it |
| Citations.Reconcile | packages/workflow/src/research-web.ts:46-90 | what is kept and how many are dropped |
| Citations.IndexMeaning | packages/workflow/src/research-web.ts:50-57 | the index holds a url iff it was retrieved, with its last annotation |
| Citations.KeptAreCorroborated | packages/workflow/src/research-web.ts:58-88 | every kept url was retrieved, and every grounded citation is kept |
| Citations.KeptExactly | packages/workflow/src/research-web.ts:58-88 | a citation is kept iff it is grounded, as it is, but that a missing title becomes that of the last record for its url |
| Citations.KeptInOrder | packages/workflow/src/research-web.ts:58-88 | what is kept of several is what is kept of each, in their order |
| Citations.ReconcileIsIdempotent | packages/workflow/src/research-web.ts:46-90 | reconciling what was kept keeps all of it |
| AppleScript.EscapeIsEncode | apps/edge-agent/src/imessage-transport.ts:47-53 | the three replaces equal a one-pass encoder |
| AppleScript.EscapeRoundTrip | apps/edge-agent/src/imessage-transport.ts:47-57 | read as an AppleScript expression, the escaped text is the text with line breaks folded, and nothing of it is left over |
| AppleScript.SendCommandIsOneSend | apps/edge-agent/src/imessage-transport.ts:55-63 | the command is one send of that text to that target |
| Notification.EnvelopeIsInvisible | apps/edge-agent/src/render.ts:77-124 | rendering depends only on the fields its kind shows |
| Notification.RendersExactly | apps/edge-agent/src/render.ts:77-124 | what each kind of notification says, from what its payload holds |
| Notification.Truncate | apps/edge-agent/src/render.ts:34-41 | in UTF-16 units: never over the limit, untouched within it, and a cut text is its own first units up to the marker's room, then the marker |
| CanonicalText.FoldIsIdempotent | apps/edge-agent/src/render.ts:43-46 | folding line breaks twice changes nothing more |
| Fingerprints.FingerprintsMeet | apps/imessage-sensor/src/poll.ts:62-136 | the sensor's hash of the message it finds is the edge's hash of what it rendered |
| PolicyToken.AcceptedExactly | packages/adapters/src/policy-token.ts:48-54 | a segment is accepted iff it is non-empty, in the alphabet and canonical |
| PolicyToken.OneSpelling | packages/adapters/src/policy-token.ts:48-54 | bytes are accepted in exactly one spelling |
| PolicyToken.EncodingVectors | packages/adapters/src/policy-token.ts:48-54 | the encoding of some bytes, by RFC 4648 |
| PolicyToken.TokenRoundTrip | packages/adapters/src/policy-token.ts:70-139 | parsing a minted token gives the claims and the nonce |
| PolicyToken.TokensAreCanonical | packages/adapters/src/policy-token.ts:95-139 | an accepted token is the one spelling of its parts |
| ReminderSweep.FollowUpIsLaterExactly | packages/core/src/reminders/lifecycle.ts:277-321 | the follow-up of a due touch is later than it iff it is not a morning touch at or after the probe time claimed within the probe minute |
| ReminderSweep.FollowUpTimes | packages/core/src/reminders/lifecycle.ts:277-321 | when each touch is followed up, by the time of day it was sent |
| ReminderSweep.FollowUpRepeatsExactly | packages/core/src/reminders/lifecycle.ts:277-321 | the follow-up of a due touch is at that touch's own instant iff it is a morning touch at the probe time claimed within its minute |
| ReminderSweep.FollowUpIsNeverQuiet | packages/core/src/reminders/lifecycle.ts:277-321 | a touch outside the quiet hours never schedules one inside them |
| ReminderSweep.QuietHours | packages/core/src/reminders/lifecycle.ts:197-200 | quiet is before seven and from ten in the evening on |
| ReminderSweep.OneSendPerTouch | packages/workflow/src/reminder-workflows.ts:182-259 | over any interleaving of ticks and deaths every send has its own claim and audit and is outside the quiet hours; if no successful claim repeats its touch, no touch is sent twice |
| ReminderSweep.RepeatedIsSentTwice | packages/workflow/src/reminder-workflows.ts:213-246 | every reachable state about to make a claim that repeats its morning touch, with the reminder still at that touch, goes on, in some run with a second tick, to send that morning touch twice |
| ReminderSweep.RepeatedIsFollowedAtOnce | packages/workflow/src/reminder-workflows.ts:213-246 | and without a second tick, to send the morning touch and then a probe for the same instant |
| ReminderSweep.ProbeMinuteSendsTwice | packages/workflow/src/reminder-workflows.ts:213-246 | two overlapping ticks within that minute send one morning touch twice |
| ReminderSweep.SecondSweepExactly | packages/workflow/src/reminder-workflows.ts:11-16 | a reminder is due again at the same clock iff it was due and the first sweep skipped it, in the quiet hours or for want of a kind, or it was a morning touch in the probe minute |
| ReminderSweep.FallsSilentExactly | packages/workflow/src/reminder-workflows.ts:213-232 | a step leaves an armed reminder with no touch to come and no tick parking it iff it is the death of the tick that was parking it |
| ReminderSweep.SilenceLasts | packages/core/src/reminders/queries.ts:173-180 | a silent reminder is picked up by no tick and stays silent until it is resolved or renegotiated |
| ReminderSweep.NeverSilent | packages/workflow/src/reminder-workflows.ts:213-232 | over any run in which no parking tick dies, an armed reminder has a touch to come or a tick parking it |
| ReminderSweep.ClaimsClimbTheLadder | packages/core/src/reminders/lifecycle.ts:257-321 | over any interleaving in one schedule, claims are morning touches, then a probe, then two nudges, as far as they got, and one morning touch unless a claim repeated its touch; parked only after the last nudge's claim, and parked then unless the parking tick died or the owner resolved |
| ReminderSweep.SweptDownTheLadder | packages/core/src/reminders/lifecycle.ts:257-321 | any number of sweeps that each send: morning, probe, nudge, nudge, and then parked |
| ReminderSweep.SweepUnanswered | packages/workflow/src/reminder-workflows.ts:175-262 | four sweeps of the table that find an unanswered reminder due leave it parked with exactly those four sends and audits |
| ReminderSweep.Reminders.SweepTick | packages/workflow/src/reminder-workflows.ts:175-262 | every row, audit, notification and count after an undisturbed tick |
| SpendGuard.RunGrid | evals/model-bakeoff/track-a.ts:281-345 | calls stay within the plan, the spend is that of a prefix of the grid, every cell was bought within the ceiling as spent and as projected, the spend is over by at most the last cell, and the grid is bought in full only if the gate's projection from the smoke is within the ceiling |
| SpendGuard.ProjectionBoundsSpend | evals/answer-quality/runner.ts:454-463 | a projection within the ceiling means the spend is |
| SpendGuard.EqualCostsPassExactly | evals/answer-quality/runner.ts:454-463 | with equal costs the guard passes iff the whole plan fits |
| SpendGuard.ProjectFullRun | evals/model-bakeoff/gating.ts:48-61 | the loop computes smoke spend plus the remaining scenarios at the given means, judge included |
| SpendGuard.ProjectionIsExactForEqualCosts | evals/model-bakeoff/gating.ts:41-61 | after a smoke answered in full, at one price for each candidate and one for judgements, the gate's own projection is that price for every scenario of the grid |
| SpendGuard.SmokeGate | evals/model-bakeoff/track-a.ts:320-344 | opens iff the projection is within the ceiling, and then the smoke's own spend is too |
| SpendGuard.GateBoundsGridExactly | evals/model-bakeoff/gating.ts:41-61 | with one price for each candidate's answers and one for judgements, cells of the smoke answered at these or failed, and the rest answered in full: the gate's projection bounds the cost of the grid iff every candidate that costs anything has a recorded cost |
| SpendGuard.UnansweredIsFree | evals/model-bakeoff/track-a.ts:203-222 | for any ceiling, such a smoke without a recorded cost, which opens the gate to a grid above the ceiling |
| SpendGuard.RecordsAccountForSpend | evals/model-bakeoff/track-a.ts:203-222 | the smoke's spend, added up from records and judge total, is all that was spent |
| SpendGuard.CallsAccounted | evals/model-bakeoff/track-a.ts:281-345 | calls are a call for every cell bought and one more for every answer |

## Left out

- Characters are Unicode scalar values, and `length` and `slice` count their UTF-16 units: input with lone surrogates is not representable, and a pair that a slice cuts is read as the replacement character, as it is when encoded to UTF-8.
- NFC, SHA-256, lower-casing, URL parsing, JSON parsing, date parsing and the decoder of message bodies are parameters; the laws assumed of them stand in the lemmas' requires.
- OutcomeExecutor.Lifetime: one executor at a time; two live executors of one outcome are not modelled. Grants, audits, events, the context package, prompts and the deadline's arithmetic are steps that may fail or outcomes that may be either.
- OutcomeExecutor.RunExecutor: states what holds when a run ends, not that it ends, because any step may die.
- OutcomeStore.OutcomeRows.Transition: the attention rows and the delivery written in the same transaction are one step with it.
- Verdicts.CollectConfirmed: the verdict's prose (summary, reasoning in the stored body) is read and checked but not stored, and the overall grade that applying a verdict returns, which the executor does not use, is not modelled.
- WaitEvents.WakeableExactly: events the owner posts by hand are not among the senders; WaitEvents.WakeableByPostExactly covers them with any payload, whose limits on size and depth are not modelled.
- Wakeups.NoStrandedWakeup: only the executor moves an outcome to waiting_external; a scan's own steps appear as one scan or as stray signals and marks.
- ResumeScanner.Tables.ResumeScan: rows are visited in table order; the order of the SELECT is unspecified in the source, and no other writer acts within the tick.
- ResumeScanner.Tables.ReapTick: overdue outcomes and expiring waits are visited in table order, and no other writer acts within the tick.
- ApprovalWaits.PauseOpensAndClosesOnce: correlator writes succeed; a failed write is only logged and is not modelled.
- SensorAgent.Agent.Cycle: alert texts, log lines, the process dimension and the audit payloads are not modelled; a throw from the state file ends the process like a crash.
- SensorRuns.NoGapNoDuplicate: without a rebaseline in the run, and with a database that only appends; a replaced database that regrows past the cursor goes unnoticed by the sensor and is outside.
- Outbox.DispatchedMeansHandled: the stored error text and its sanitising.
- Migrations.Database.MigrateUp: statements are one function from schema to schema for each file; the tracking table exists.
- ReminderSweep.OneSendPerTouch: daylight saving; days are 24 hours long and instants are local. The thread's pending probe and the message texts are not modelled.
- ReminderSweep.Reminders.SweepTick: rows are visited in table order, not oldest first.
- SpendGuard.GateBoundsGridExactly: prices are settled for each candidate; where they vary between scenarios, the bound depends on the prices of scenarios not yet bought (`RestDecides`), which nobody can check at the gate.
- SpendGuard.RunGrid: call records, model verification and same-family refusal. Money is real, rounding aside.
- The typing simulation and its failure latch, the sensor's sleep loop with its backoff, the nearest-rank percentile, and resolving when-words: they would only add easy members.
- HTTP routes, the command line, the page rendering, the Keychain, processes, and the rest of the evaluations.
