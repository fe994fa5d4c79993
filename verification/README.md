# Scriptoria: a verified model of its hardest parts

Scriptoria lets operators start scripts on a script VM, watch their terminal, stop them, collect what they leave
behind, and look after the VM's crontab. This project models the parts in which a mistake would be hard to see in a
review, and proves what the repository's code and documentation promise of them. To check it, run
`dafny verify dfyconfig.toml`.

- **The life of a run** (`RunRecord`, `StagedAborts`, `RunProtocol`, `RunInvariants`, `RunSafety`, `RunEffects`,
  `RunTheorems`, `RunStops`, `RunStages`, `RunReaps`, `RunAnswers`, `RunOutcomes`, `RunReasons`, `RunWitnesses`).
  Operators, workers and reads that reap share one row with guarded updates, a queue, a claim key that may vanish at any
  moment and be renewed by a stranger, and a channel that reaches only who is subscribed. Every actor
  is a program counter with one position per `await`, holding what it read earlier; any exception may be thrown at any
  await that can reject, any worker may die anywhere, and any number of workers may pop the same run. The invariant is
  kept by every step, so the theorems hold over every run.
- **The crontab as a lens** (`Lines`, `Crontab`, `CronGrammar`, `CrontabLines`, `CronJobs`, `CrontabKinds`,
  `CrontabLaws`, `CrontabLens`). Which line is what, parsing, printing and the rewrite of the managed block, over every
  text.
- **The schedule edit on top of it** (`Numerals`, `ScheduleIds`, `ScheduleEdits`, `ScheduleUpdates`).
- **The resumable terminal** (`Octets`, `Frames`, `StreamIds`, `TerminalStream`, `TerminalLaws`, `TerminalRuns`,
  `TerminalGaps`, `TerminalParts`, `TerminalWitness`). Publisher, capped stream, gateway and reconnecting client, down to
  the bytes of a frame.
- **Listing, collecting, streaming and keeping** (`DirectoryWalk`, `TreeListing`, `RunResults`, `FileStreaming`,
  `Transcripts`).
- **Text handed to other programs** (`DirectoryNames`, `ShellQuoting`, `ExecutionCommands`). Each printer is undone by an
  independent reader of the standard's own grammar: section 3 of RFC 4514, section 3 of RFC 4515, and sections 2.2 and
  2.3 of the POSIX.1-2017 Shell Command Language.
- **Shared vocabulary** (`Options`, `JsText`, `Sequences`).

## What the code does not keep

These promises turned out to need a condition. The exact condition is a theorem in each case, and each comes with a
concrete failing input or a family of them.

- The row's abort stage can go backwards: the listener of a stage may write it after the outcome was decided and before
  it is written. As the outcome is decided, that can still happen if and only if the run is running and a signal is on
  its way (`RunStages.StageCanGoBackExactlyWhen`, `RunWitnesses.RecordedStageCanGoBack`).
- A stop accepted while a script runs can be heard if and only if the worker's second look at the row is still ahead or
  its subscription, which nothing waits for, is in effect at that moment
  (`RunStops.AStopIsHeardExactlyWhen`). One accepted between the second look and a subscription that takes effect later
  is heard by nobody (`RunWitnesses.LateSubscriptionLosesAStop`).
- An exception between the start of the script and the second look, say in the append after the terminal was opened,
  takes the worker past that look; nothing else but its death does (`RunStops.LookIsMissedExactlyWhen`). The run is
  failed, the script was started, and a stop that is in the row reaches nobody
  (`RunWitnesses.ThrownOutWorkerLosesAStop`).
- With a pause of zero the escalation ends early
  (`StagedAborts.EverySignalExactlyWhenBothPausesArePositive`, `StagedAborts.SignalsByPauses`).
- A crontab with an end delimiter before its first begin delimiter loses hand-written lines on a write, against the
  comment at packages/core/src/crontab.ts:154-158 (`CrontabLens.ForeignLinesSurviveExactlyWhen`,
  `CrontabLens.StrayEndLosesALine`); with a second block, a read finds more than was written
  (`CrontabLens.PutGetExactlyWhen`, `CrontabLens.SecondBlockIsReadToo`).
- Giving a five-field job a nickname changes its command, and with it its identity, when the command holds runs of
  white space (`CrontabLines.NewExpressionFits`, `CrontabLines.ANicknameChangesACommand`).
- A file that is not executable and whose extension is `constructor` or `__proto__` is not started with an interpreter
  of the table, because the table is an object literal
  (`ExecutionCommands.CommandIsReadAsMeantExactlyWhen`, `ExecutionCommands.InheritedNamesAreNotMeant`).
- Stream ids are compared as doubles, so two ids past 2^53 can compare as equal (`StreamIds.CompareIsTheRoundedOrder`,
  `StreamIds.HugeIdsCompareEqual`).
- The terminal shows a contiguous stretch of what was published. Entries can be skipped if and only if a trim overtakes a
  positioned reader and leaves it something to read (`TerminalGaps.NoGapsExactlyWhenNeverOvertaken`,
  `TerminalGaps.TrimLeavesAGapExactlyWhen`). Whatever the cap, a run from the beginning leads to a screen that is no
  stretch at all (`TerminalWitness.HoleIsReachable`).
- The presence of a claim key is taken for a worker at its work (the comment at
  apps/backend/src/lib/services/runService.ts:264-277). A worker on its way out still renews the key if and only if its
  timer was started and it never came to its second look (`RunReaps.LeavingStillRenewsExactlyWhen`); it can do so for as
  long as its process lives (`RunReaps.StrayRenewalHoldsOff`). If the writes that fail the run were rejected too, the
  run stays open (`RunWitnesses.StrayRenewalKeepsARunOpen`).

## Model

| member | source | states |
|---|---|---|
| RunRecord.RunRepository.Transition | packages/db/src/repositories/runRepository.ts:131-158 | The compare-and-set: the row moves exactly when its status is one of those named; then each column is the one given, nulls included, or what it was, and the request and count columns stay; the caller is told which; and from open statuses to one as far on, the row only moves forward |
| RunRecord.RunRepository.RecordAbortRequest | packages/db/src/repositories/runRepository.ts:160-165 | The request is written, by whom and when, whatever the status; nothing else of the row changes, and an outcome stays what it is |
| RunRecord.RunRepository.MarkCollected | packages/db/src/repositories/runRepository.ts:174-179 | The count and the time of a collection, written together, and nothing else; a run that is over is settled by it |
| RunRecord.RunRepository.MarkCollectionEnded | packages/db/src/repositories/runRepository.ts:190-195 | The end of a collection without touching a count that is there; a run that is over is settled by it |
| RunRecord.AuthoriseAbort | packages/core/src/criticality.ts:52-65 | A stop is authorised if and only if the script is read-only or the confirmation names it, edge spaces aside; a missing or blank confirmation is told from a wrong one |
| RunTheorems.StartedAtMostOnce | apps/runner/src/run/execute.ts:60-76 | Over any whole run of the system, with claims expiring, strangers renewing, jobs requeued and any number of workers, `target.start` is called at most once |
| RunTheorems.CancelledIsNeverStarted | apps/backend/src/lib/services/runService.ts:203-240 | A run cancelled while queued is never started, before or after, and is aborted and settled |
| RunTheorems.RecordIsCoherent | packages/db/src/repositories/runRepository.ts:131-195 | In every reachable state the columns agree: nothing of an outcome before the end, success means exit code 0 and no stage, aborted exactly with the operator's reason, failed always with some reason (which one: `RunOutcomes.OutcomeTellsTheExit`, `RunReasons.FailedRunsTellWhy`), a count only with a collection time |
| RunTheorems.OutcomeIsFinal | apps/runner/src/run/execute.ts:263-274 | From any reachable state in which the run is over, no sequence of steps changes its status, time, exit code, reason or stage |
| RunOutcomes.AbortedIsTruthful | apps/runner/src/run/execute.ts:245-274 | A row is aborted only if some operator passed the guard, and either nothing was ever started or the signal of the stage on record was answered as delivered to the script in one step of the run |
| RunOutcomes.EveryStageWasDelivered | apps/runner/src/run/abort.ts:98-107 | Behind every stage the row or the decision names is the step of the run in which that very signal to the script of the worker that holds it was answered as delivered |
| RunOutcomes.OutcomeTellsTheExit | apps/runner/src/run/execute.ts:245-261 | Over every run, what was decided carries the code the channel closed with; with a stage it is aborted and that signal was delivered; without one it is succeeded if and only if the code is 0, and otherwise failed with `connection_lost` if and only if a signal closed the channel and `exit_code` if and only if none did |
| RunOutcomes.OutcomeIsWritten | apps/runner/src/run/execute.ts:263-274 | The write of the outcome puts exactly that code, reason, stage and time into a row that is open, leaves every other column, and leaves a row that is over alone |
| RunOutcomes.ReasonsOfFailing | apps/runner/src/run/execute.ts:35-140 | Each way into `fail` and the reason it gives: an unreachable host `connect_failed`, a script that is gone `start_failed`, an exception while driving `connection_lost`, any other `start_failed` |
| RunOutcomes.FailureIsWritten | apps/runner/src/run/execute.ts:393-409 | The write of `fail` puts that reason into a row that is not over and ends its collection, and leaves a row that is over alone |
| RunReasons.FailedRunsTellWhy | apps/runner/src/run/execute.ts:78-274 | Behind every failed run is what its reason says, at some moment of the run: the exit with the recorded code and no signal; a channel closed by a signal, or an exception while driving; a refused connect; a script that was gone, or an exception elsewhere; or a read that found the claim gone and the grace past |
| RunOutcomes.SuccessIsTrue | apps/runner/src/run/execute.ts:254-254 | Behind every succeeded run is a channel that closed with the code 0 |
| RunOutcomes.RowNamesItsWorker | apps/runner/src/run/execute.ts:69-76 | In every reachable state the row names the one worker whose claim landed, and nobody where none did |
| RunOutcomes.StartedAtIsTheMark | apps/runner/src/run/execute.ts:235-235 | A time of start on record is the clock of the worker that marked the claimed run as running, at the step in which it did |
| RunAnswers.StopIsTakenExactlyWhen | apps/backend/src/lib/services/runService.ts:172-213 | A stop goes on to cancel if and only if the operator may see the area, has confirmed where that is asked for, and the run is queued; on to the request if and only if it is claimed and not over; otherwise it is refused |
| RunAnswers.CancelIsWritten | apps/backend/src/lib/services/runService.ts:213-240 | A run nobody claimed is aborted by its operator, finished and collected with that write; one claimed meanwhile is left to the request |
| RunAnswers.MessageReachesTheSubscribed | apps/backend/src/lib/services/runService.ts:244-249 | The message goes once to every worker that is subscribed and alive and to no other, and touches nothing else |
| RunAnswers.StandDownIsWritten | apps/runner/src/run/execute.ts:161-166 | A worker that stands down aborts a run that is starting, without a stage, and ends its collection |
| RunAnswers.ReadEndsTheCollectionExactlyWhen | apps/backend/src/lib/services/runService.ts:281-297 | From any reachable state, a read ends a collection if and only if the run it found was over and uncollected, had ended a minute ago, and the claim is gone |
| RunAnswers.SettledExactlyWhenCollected | packages/core/src/collection.ts:25-44 | In every reachable state a view may stop asking if and only if the run is over and the end of its collection is on record |
| RunAnswers.WhoCatches | apps/runner/src/run/execute.ts:35-117 | Where every exception of a worker goes: nine handlers, each if and only if it was thrown at the awaits named |
| RunTheorems.EscalationHadItsMoment | apps/runner/src/run/abort.ts:82-88 | Every run that ends in an escalation splits at the one step in which it was accepted, before the exit was seen |
| RunTheorems.LateStopChangesNothing | apps/runner/src/run/execute.ts:245-262 | After an unrequested exit with code 0 was seen, no sequence of stops sends a signal, and the run is decided to have succeeded |
| RunTheorems.SettledForever | packages/core/src/collection.ts:25-44 | A settled collection stays settled over every sequence of steps |
| RunTheorems.UnsettledHasACollector | apps/runner/src/run/execute.ts:263-320 | A run that is over but unsettled has a worker in its wind-up, or one that an exception or its death took out of it |
| RunTheorems.CollectorSettles | apps/runner/src/run/execute.ts:263-320 | A worker in its wind-up settles the collection by its own steps alone |
| RunTheorems.FirstReapSettles | apps/backend/src/lib/services/runService.ts:278-297 | The first read that finds the run over and unsettled with the claim gone and the grace past decides to settle it, and does, whatever happens in between |
| RunReaps.FirstReapEnds | apps/backend/src/lib/services/runService.ts:299-318 | The first read that finds the run open with the claim gone and the grace past ends it, whatever happens in between: a run still open is failed for its lost worker and settled, one that is over stays as it is |
| RunReaps.LeavingStillRenewsExactlyWhen | apps/runner/src/run/execute.ts:229-321 | A worker that leaves or is done still renews the claim if and only if its timer was started and its second look never came; an open run's worker that does has had its write of the failure rejected, or is about to issue it |
| RunReaps.StrayRenewalHoldsOff | apps/runner/src/run/execute.ts:229-233 | Such a worker can renew at every later point of every run until it dies, and after a renewal every pending read leaves the run alone |
| RunStops.EveryAcceptedStopIsAnswered | apps/backend/src/lib/services/runService.ts:203-249 | In every reachable state each accepted stop has cancelled the run, kept it from starting, or reached a worker that escalates, saw the exit, has the message waiting or died; a stop published while nobody listened may instead wait for the second look, be missed by a worker that an exception took out before it, or be overlooked by a second look that failed or came before the subscription |
| RunStops.NoAcceptedStopIsLost | apps/runner/src/run/execute.ts:154-242 | A stop published to a worker that was listening, or that had not looked for the second time, has started the escalation or met the exit once the messages are handled or that look went through, over every run in between |
| RunStops.RecordedStopPreventsTheStart | apps/runner/src/run/execute.ts:154-174 | A request in the row before the worker's first look means the script is never started, unless that look fails |
| RunStops.AStopIsHeardExactlyWhen | apps/runner/src/run/execute.ts:176-242 | Of a stop published while the script runs and nobody has asked: a run in which no other stop is published leads to the escalation if and only if the second look is ahead or the worker is subscribed at that moment |
| RunStops.HeardExactlyWhen | apps/runner/src/run/execute.ts:176-242 | The same from any reachable standing: a recorded request can still be heard if and only if the second look is ahead or a message waits for a worker that listens |
| RunStops.SecondLookAnswers | apps/runner/src/run/execute.ts:235-242 | A worker whose second look is ahead, left undisturbed, acts on a request that is in the row |
| RunStops.LookIsMissedExactlyWhen | apps/runner/src/run/execute.ts:176-242 | A step takes a worker past its second look without looking if and only if it is an exception in that worker or its death |
| RunStages.StageGoesBackExactlyWhenOverwritten | apps/runner/src/run/execute.ts:263-274 | Of all steps of all actors only the write of an outcome can move the row's abort stage backwards, and it does if and only if the run is open and the row holds a later stage than was decided |
| RunStages.StageCanGoBackExactlyWhen | apps/runner/src/run/execute.ts:195-274 | As the outcome is about to be decided, some run from there takes the recorded stage back if and only if the run is still running and a signal is still on its way |
| RunWitnesses.LateSubscriptionLosesAStop | apps/runner/src/stream/control.ts:49-57 | A reachable state in which an accepted stop reached nobody although both looks went through, and from which nobody can hear it without another stop |
| RunWitnesses.ThrownOutWorkerLosesAStop | apps/runner/src/run/execute.ts:176-242 | A reachable state in which the script was started, the run is failed, and a stop in the row can be heard by nobody without another stop |
| RunWitnesses.RecordedStageCanGoBack | apps/runner/src/run/execute.ts:263-274 | A reachable state and step in which the recorded stage goes backwards |
| RunWitnesses.StrayRenewalKeepsARunOpen | apps/runner/src/run/execute.ts:229-242 | A reachable state in which the run is open, its worker is done, and that worker still renews the claim |
| RunSafety.StepKeepsInv | apps/runner/src/run/execute.ts:60-321 | Every step of operators, workers, reads, queue, claim and channel keeps the invariant all of the above follow from |
| StagedAborts.StagedAbort.Request | apps/runner/src/run/abort.ts:82-88 | Inert exactly once the exit was seen, idempotent exactly while escalating, otherwise the one start of the escalation; the answer tells which |
| StagedAborts.StagedAbort.Escalate | apps/runner/src/run/abort.ts:90-120 | The stage loop as written, against any failures and exits, is a play of the machine the histories are about, made of resumptions and the exit alone; it sends the stages up to the exit or a zero pause, and the reached one is the last of them that was delivered |
| StagedAborts.HistoryIsOrderly | apps/runner/src/run/abort.ts:35-131 | At every point of every interleaving of requests, exits, failures and timeouts the signals sent are an initial part of INT, TERM, KILL and the suspended step fits them |
| StagedAborts.OneEscalation | apps/runner/src/run/abort.ts:82-88 | However often stop is pressed, only one request is ever acted on |
| StagedAborts.ReachedStagesIncrease | apps/runner/src/run/abort.ts:98-119 | Each stage that is reached comes strictly after the one before |
| StagedAborts.ReachedExactlyWhenDelivered | apps/runner/src/run/abort.ts:98-107 | In every history the reached stage changes if and only if the answer to a signal comes and says it was delivered, and then to that stage |
| StagedAborts.SignalsByPauses | apps/runner/src/run/abort.ts:109-131 | In every history SIGTERM needs a pause after SIGINT and SIGKILL one after both; a process that stays gets exactly the signals the pauses allow |
| StagedAborts.NothingSignalledAfterExit | apps/runner/src/run/abort.ts:98-119 | Once the exit is seen no further signal is sent, and a later request marks nothing |
| StagedAborts.EverySignalExactlyWhenBothPausesArePositive | apps/runner/src/run/abort.ts:116-118 | A process that never goes away gets all three signals in every finished escalation if and only if neither pause is zero |
| StagedAborts.EscalationEnds | apps/runner/src/run/abort.ts:90-131 | No history resumes the escalation more than twelve times, and it never gets stuck before its end |
| Crontab.ParseCrontab | packages/core/src/crontab.ts:82-136 | The loop over the lines, with its block flag, yields the parsed file the laws are about |
| CronGrammar.FieldsExactlyWhenPrinted | packages/core/src/crontab.ts:56-58 | A text is a field if and only if it is printed from a list of elements, each a star, a value or a range, with or without a step |
| CronJobs.JobsExactlyWhenWritten | packages/core/src/crontab.ts:60-80 | A text is read as a job if and only if it is five printed fields, or one of the eight nicknames in any case, and a command, with any white space between and around; with exactly that expression and command |
| CronJobs.NicknamesExactlyWhenSpelt | packages/core/src/crontab.ts:19-29 | A word is a nickname if and only if it spells one of the eight, each letter in either case |
| CrontabKinds.EnabledExactlyWhenWritten | packages/core/src/crontab.ts:119-132 | A line is a job that is switched on if and only if such a text is written on it |
| CrontabKinds.DisabledExactlyWhenCommentedOut | packages/core/src/crontab.ts:106-117 | A line is a job that is switched off if and only if such a text stands behind hash signs on it |
| CrontabKinds.AssignedExactlyWhenWritten | packages/core/src/crontab.ts:119-125 | A line is an assignment if and only if a name, an equals sign and a value are written on it, white space around them |
| CrontabKinds.BlankExactlyWhenWhite | packages/core/src/crontab.ts:101-104 | A line is blank if and only if it holds nothing but white space |
| CrontabKinds.ManagedExactlyInsideABlock | packages/core/src/crontab.ts:84-100 | Each line of a file is read by itself, and its job is managed if and only if a begin delimiter stands above it and no end delimiter between them |
| CrontabLaws.RenderOfParse | packages/core/src/crontab.ts:139-141 | Every text parsed and rendered comes back byte for byte |
| CrontabLines.ParsedJobsAreShaped | packages/core/src/crontab.ts:60-80 | Whatever text a job is read from, its expression and command have the normal shape |
| CrontabLines.ReadBackExactlyWhenShaped | packages/core/src/crontab.ts:60-80 | An expression and a command are read back from the line made of them if and only if some text parses to them |
| CrontabLines.EnabledEntryIsReadBack | packages/core/src/crontab.ts:118-132 | A rendered enabled entry is a job line again, despite the rule for assignments, with the same parts |
| CrontabLines.DisabledEntryIsReadBack | packages/core/src/crontab.ts:106-117 | A rendered disabled entry is uncommented to the same job |
| CrontabLines.NicknameCollapsesSpacing | packages/core/src/crontab.ts:64-68 | Behind a nickname a command is read with single blanks between its words, whatever stood there |
| CrontabLines.NewExpressionFits | packages/core/src/crontab.ts:60-80 | A command that was read takes every five-field schedule, and a nickname if and only if it is single-spaced |
| CrontabLines.ANicknameChangesACommand | packages/core/src/crontab.ts:60-80 | A command with a double blank that is read as it stands behind five fields and otherwise behind a nickname |
| CrontabLens.PutPut | packages/core/src/crontab.ts:159-185 | A second write makes the first as if it had not been, for every text: no block, a closed one, an unclosed one, a stray end |
| CrontabLens.WritingBackSettles | packages/core/src/crontab.ts:159-192 | Writing back what a file holds changes nothing from the second write on |
| CrontabLens.PutGetExactlyWhen | packages/core/src/crontab.ts:159-192 | Reading after writing gives exactly the entries written if and only if no managed job stands after the block |
| CrontabLens.PutGet | packages/core/src/crontab.ts:159-192 | PutGet for every text without a begin delimiter after its block |
| CrontabLens.SecondBlockIsReadToo | packages/core/src/crontab.ts:159-192 | A family of files on which PutGet fails: with an entry in a second block, every read after a write finds that entry too |
| CrontabLens.JobsAfter | packages/core/src/crontab.ts:159-185 | The jobs after any write: those above the block, the entries in order, those from the closing delimiter on |
| CrontabLens.ForeignLinesSurviveExactlyWhen | packages/core/src/crontab.ts:159-185 | The lines outside the block, blank ones included, come back byte for byte and in order, followed by the blank lines a write appends and nothing else, if and only if nothing the write replaces is outside the block |
| CrontabLens.ForeignLinesSurvive | packages/core/src/crontab.ts:174-184 | Without a stray end delimiter no line outside the block is lost, blank or not, closed block or not |
| CrontabLens.AppendedBlockKeepsTheText | packages/core/src/crontab.ts:166-172 | A file without a block is a prefix of what is written |
| CrontabLens.StrayEndLosesALine | packages/core/src/crontab.ts:161-184 | A family of files in which a write loses a hand-written line, blank or not |
| ScheduleIds.ScheduleId | packages/core/src/cron.ts:81-89 | The signed 32-bit loop computes the unsigned FNV-1a hash of the code units, rendered as eight lower-case hexadecimal digits |
| ScheduleIds.SignedStep | packages/core/src/cron.ts:84-87 | One exclusive or and `Math.imul`, brought back by an unsigned shift, is one step of the unsigned hash |
| ScheduleIds.IdIsTheHash | packages/contracts/src/schedule.ts:80-82 | For all inputs the id has the declared shape and its digits are the hash |
| ScheduleIds.InputIsInjective | packages/core/src/cron.ts:82-82 | Within a source the hashed text tells any two (command, ordinal) pairs apart |
| ScheduleIds.OneUnitApartNeverCollides | packages/core/src/cron.ts:81-89 | Two texts of one length that differ in exactly one code unit never have the same hash |
| ScheduleIds.OneCharacterApartNeverShares | packages/core/src/cron.ts:81-89 | Two lines whose hashed texts differ in one character of one code unit each never share an id |
| ScheduleIds.FirstTenCopiesDiffer | packages/core/src/cron.ts:81-89 | The first ten lines with one command have ten different ids |
| ScheduleEdits.OccurrenceIds | apps/backend/src/lib/services/scheduleService.ts:232-240 | Every job line gets the id of its command and of how many job lines above carry that command, managed or not |
| ScheduleEdits.IdTellsTheOrdinal | packages/core/src/cron.ts:81-89 | An id is the hash of the command and of how often that very command stands among the job lines above |
| ScheduleEdits.IdentitiesAreDistinct | apps/backend/src/lib/services/scheduleService.ts:84-101 | No two lines of a file have the same (command, ordinal) identity |
| ScheduleEdits.SharedIdsAreHashCollisions | apps/backend/src/lib/services/scheduleService.ts:232-240 | Two lines share an id only where the hash of two different texts collides |
| ScheduleUpdates.UpdateSchedule | apps/backend/src/lib/services/scheduleService.ts:144-222 | The first crontab that manages the id takes the edit: expression and flag as requested, or as they were where not requested, the command as it was; a line written by hand, an unknown id, a refused expression and a failed write are told apart; no other crontab changes |
| ScheduleUpdates.EditHitsOneLineExactlyWhen | apps/backend/src/lib/services/scheduleService.ts:165-189 | Writing one changed entry changes exactly the job it was read from, and no other, if and only if all jobs a write replaces are managed and none after them is |
| ScheduleUpdates.OneProperBlockIsEditSafe | packages/core/src/crontab.ts:161-184 | No stray end delimiter and no second begin delimiter suffice for that |
| ScheduleUpdates.EditIsIsolated | apps/backend/src/lib/services/scheduleService.ts:159-208 | After the edit the named job stands under the same id with the requested expression and flag, or its own where none was requested, its own command, and managed; every other job with its identity, expression, command and flags |
| ScheduleUpdates.EditKeepsForeignLines | apps/backend/src/lib/services/scheduleService.ts:182-189 | The same edit leaves every line outside the block byte for byte, blank ones included, and appends nothing where the block was closed |
| ScheduleUpdates.TogglingIsAlwaysShaped | apps/backend/src/lib/services/scheduleService.ts:176-181 | Switching a job on or off always writes a line that is read back |
| Frames.EncodeTerminalFrame | packages/core/src/frames.ts:27-37 | The array filled in place is opcode, big-endian length, id, data; an id that is too long is refused |
| Frames.FrameOnTheWire | packages/core/src/frames.ts:27-37 | A frame is one byte 1, two bytes that are the length of the id, the higher first, the id and the data; refused if and only if the id is longer than 65535 bytes |
| Frames.Utf8SpellsTheCodePoint | packages/core/src/frames.ts:28-28 | The bytes of a character spell its code point, in as few bytes as can, the lead byte telling how many |
| Frames.DecodeOfEncode | packages/core/src/frames.ts:27-53 | A frame carries its payload whatever the id, and the id if and only if it is ASCII |
| Frames.EncodeOfDecode | packages/core/src/frames.ts:27-53 | A frame whose id is ASCII is the encoding of what it decodes to |
| Frames.DecodesExactlyTheLayout | packages/core/src/frames.ts:39-53 | Bytes are accepted if and only if they are some id and some data in the frame's layout, and then those are what they decode to |
| StreamIds.CompareIsTheOrder | apps/backend/src/lib/stream/gateway.ts:298-303 | For ids exact as doubles the comparison of their texts is their numeric order in both directions, and the text reads back as the id |
| StreamIds.CompareIsTheRoundedOrder | apps/backend/src/lib/stream/gateway.ts:298-303 | For all ids the comparison is the order of the ids with each part taken to the nearest double |
| StreamIds.NearestDouble | apps/backend/src/lib/stream/gateway.ts:298-303 | The double taken for a number is a multiple of the spacing there, as near as any, and the even one of two |
| StreamIds.HugeIdsCompareEqual | apps/backend/src/lib/stream/gateway.ts:298-303 | The first two ids in order that the comparison takes for one |
| TerminalLaws.ScreenIsAContiguousStretch | apps/frontend/src/lib/terminal/useTerminalStream.ts:73-127 | After any sequence of publishes, trims, connects, drops and replays in which no trim overtakes a positioned reader that has more to read, the screen is exactly a contiguous stretch of the log ending at the resume position; the expiry of a finished run's stream is no such trim |
| TerminalGaps.NoGapsExactlyWhenNeverOvertaken | apps/backend/src/lib/stream/gateway.ts:231-262 | Over every run from the beginning: at no point can entries be skipped from there on if and only if no trim of the run overtakes a positioned reader |
| TerminalGaps.TrimLeavesAGapExactlyWhen | apps/backend/src/lib/stream/gateway.ts:231-262 | From a state in which everything joins up, a trim makes a gap possible without any further trim if and only if it overtakes the reader and leaves it something to read |
| TerminalGaps.SkippedEntriesAreNotShown | apps/frontend/src/lib/terminal/useTerminalStream.ts:87-105 | What a gap is: the client shows the later entry right behind the last one shown and takes it for its position |
| TerminalLaws.NothingIsLostUntrimmed | apps/backend/src/lib/stream/gateway.ts:119-131 | With nothing trimmed the screen is everything up to the resume position |
| TerminalLaws.CaughtUpShowsTheEnd | apps/backend/src/lib/stream/gateway.ts:231-262 | A replay that has caught up shows the log to its end |
| TerminalLaws.PositionedAt | apps/backend/src/lib/stream/gateway.ts:122-131 | A gap is announced if and only if the stream holds something and has trimmed past the client's position |
| TerminalLaws.StepKeepsInv | apps/backend/src/lib/stream/gateway.ts:100-262 | Every step of the system but an overtaking trim keeps what is in flight joined up with what is shown, and something shown or about to be |
| TerminalWitness.OvertakingLeavesAHole | apps/backend/src/lib/stream/gateway.ts:240-262 | A screen that misses the first chunk published after it, and shows all later ones, is no stretch of the log at all, when that chunk ends in another byte than the screen did |
| TerminalWitness.AnyReaderCanBeOvertaken | apps/runner/src/stream/publisher.ts:36-49 | From any caught-up reader with something on its screen, and for any cap, the system's own steps, with trims that leave a cap's worth of entries, lead to a screen that is no stretch of the log |
| TerminalWitness.HoleIsReachable | packages/config/src/redis.ts:17 | For any cap a run from the very beginning, with no trim that leaves less than the cap, leads to such a screen |
| TerminalParts.StreamPublisher.Flush | apps/runner/src/stream/publisher.ts:36-69 | The chained appends leave the chunks in order, those that failed left out, and the id of the last that did not |
| TerminalParts.NothingMissingExactlyWhen | apps/runner/src/stream/publisher.ts:36-64 | The stream holds exactly the bytes written if and only if no append failed |
| TerminalParts.Reader.Pump | apps/backend/src/lib/stream/gateway.ts:253-260 | One answer of the stream is sent entry by entry and moves the cursor to the last |
| TerminalParts.TerminalClient.OnMessage | apps/frontend/src/lib/terminal/useTerminalStream.ts:87-120 | A frame is shown and moves the position, a gap clears, nothing else takes anything off the screen; once told the end, no retry is ever due |
| TerminalParts.FrameIsTaken | apps/frontend/src/lib/terminal/useTerminalStream.ts:88-92 | From the bytes of a frame the data is shown behind what was there, and the id becomes the resume position unless it is empty |
| TerminalParts.TerminalClient.OnOpen | apps/frontend/src/lib/terminal/useTerminalStream.ts:73-84 | A socket that opens gives the client its attempts back: exactly twenty failures in a row are survived from there; the hello carries the resume position |
| TerminalParts.TerminalClient.OnClose | apps/frontend/src/lib/terminal/useTerminalStream.ts:122-127 | Another attempt is due unless the end was told or twenty failed in a row, and each counts as one more; otherwise nothing changes and none will be due |
| TerminalParts.EndIsForGood | apps/frontend/src/lib/terminal/useTerminalStream.ts:116-127 | From the delivery of the end on, over every continuation, the client never opens a socket again, and once its socket is gone its screen and position stay as they are |
| DirectoryWalk.Walk.Descend | apps/runner/src/driver/sshTarget.ts:250-302 | The recursive walk with its shared list and flag takes the visits of the plain depth-first order up to the bound; an unreadable subdirectory contributes nothing |
| DirectoryWalk.List | apps/runner/src/driver/sshTarget.ts:235-306 | The first `maxEntries` files of the plain listing; it fails if and only if the root cannot be read |
| DirectoryWalk.TruncationIsHonest | apps/runner/src/driver/sshTarget.ts:261-265 | Not truncated means complete, truncated means full, incomplete means truncated |
| TreeListing.EntriesTellTheTree | apps/runner/src/driver/sshTarget.ts:250-302 | Every entry listed leads, by its path, to a file of the tree, and its name, size, time in milliseconds and execute bit are that file's |
| TreeListing.FilesAreListed | apps/runner/src/driver/sshTarget.ts:250-302 | Every file reached through readable directories within the depth, and not older than asked for, is in the plain listing |
| RunResults.PathsAreDistinct | apps/runner/src/driver/sshTarget.ts:267-268 | No two entries of a listing of a tree with proper names have the same path |
| RunResults.FingerprintIsFaithful | apps/runner/src/run/execute.ts:326-327 | Two fingerprints agree if and only if size and modification time do |
| RunResults.CollectionIsExact | apps/runner/src/run/execute.ts:329-370 | With untruncated listings, a collection records exactly the files that are new or whose size or time changed; everything where there was no listing before |
| TreeListing.RecordedExactlyWhenNewOrChanged | apps/runner/src/run/execute.ts:329-370 | On the two trees: a path is recorded if and only if it leads to a file afterwards and led to none with that size and time before |
| FileStreaming.ChunkSink.Read | apps/runner/src/driver/sshTarget.ts:343-365 | The read loop hands over the slices up to the limit, reports truncation exactly where it stopped short, and fails exactly where the stream did before that |
| FileStreaming.Serve | apps/runner/src/rpc/server.ts:89-137 | The reply list of a `readFile` request, whatever fails on the way |
| FileStreaming.ReplyList.ReadFile | apps/backend/src/lib/runner/client.ts:102-151 | The draining side pops frame by frame until the stream closes or breaks |
| FileStreaming.FileArrives | apps/runner/src/rpc/server.ts:206-240 | End to end the first `maxBytes` bytes arrive in order, the header's `truncated` agrees with the reader's and holds if and only if the file is longer, and the reply is a header, non-empty chunks and an end |
| FileStreaming.FramesAreFull | apps/runner/src/rpc/server.ts:224-239 | No frame holds more than a quarter of a megabyte and one piece of what the remote side sends; every frame but the last before the end holds at least a quarter of a megabyte |
| FileStreaming.ErrorsAreSeen | apps/backend/src/lib/runner/client.ts:130-144 | An error in the middle yields a prefix that lacks less than a quarter of a megabyte of what was read, and then a broken stream, never a closed one |
| FileStreaming.CutReplyNeverCloses | apps/backend/src/lib/runner/client.ts:130-144 | A reply that stops arriving, wherever it is cut and whatever the request met, is refused or breaks: it never closes the stream |
| FileStreaming.StreamClosesExactlyWhenRead | apps/backend/src/lib/runner/client.ts:130-144 | The stream closes if and only if the file was found and read to its end or its limit; every other case is told apart |
| Transcripts.Transcript.Append | apps/runner/src/run/transcript.ts:25-35 | After any appends the kept chunks are the longest tail that can be kept, the size is exact and the flag says whether something was dropped |
| Transcripts.Transcript.Saved | apps/runner/src/run/transcript.ts:37-48 | The bytes are a tail of everything appended, truncated if and only if they are not all of it |
| Transcripts.KeptIsTheLongestTail | apps/runner/src/run/transcript.ts:30-34 | No chunk is dropped that could have been kept, and the size is within the ceiling unless one chunk alone exceeds it |
| DirectoryNames.GroupNameOfEscaped | packages/core/src/authorization.ts:29-35 | For every value, whatever follows, and `cn=` in any case, the group name read from an escaped DN is the value, trimmed |
| DirectoryNames.BareGroupNames | packages/core/src/authorization.ts:29-35 | What does not start with `cn=`, in any case, is the group name itself, trimmed |
| DirectoryNames.EscapedValueIsOneRdn | apps/backend/src/lib/auth/directory.ts:47-57 | A reader of the standard's grammar finds exactly the one value if and only if it holds no NUL |
| DirectoryNames.UserDnHasOneUsername | apps/backend/src/lib/auth/directory.ts:96-98 | The DN a user binds as holds exactly the typed name at the placeholder and exactly the template around it, if and only if the name holds no NUL |
| DirectoryNames.FilterValueIsReadBack | apps/backend/src/lib/auth/directory.ts:29-44 | A filter's reader finds exactly the value, and then what was put behind it |
| ShellQuoting.ShellQuoteIsOneWord | packages/core/src/execution.ts:32-34 | A shell reads a quoted value as exactly one word equal to it, every character quoted, if and only if it holds no NUL |
| ExecutionCommands.CommandIsReadAsMeantExactlyWhen | packages/core/src/execution.ts:87-99 | A shell reads the command as exactly its four commands with exactly the given paths if and only if none holds a NUL and the interpreter is one of the table's own or the default |
| ExecutionCommands.InterpretersByExtension | packages/core/src/execution.ts:36-67 | Each extension of the table, in any case, names its own interpreter |
| ExecutionCommands.TheRestIsForBash | packages/core/src/execution.ts:52-67 | Any other file, inherited names aside, is for bash |
| ExecutionCommands.InheritedNamesAreNotMeant | packages/core/src/execution.ts:36-67 | The files on which that fails: not executable and called anything with the extension `constructor` or `__proto__` |

## Left out

Of the life of a run:

- The worker, the operator and the reaping read are program counters on values and not classes: what matters is how
  their awaits interleave, which methods that run to their end would hide. What one worker does to its own fields
  between two awaits is one step. The row and the staged abort are classes.
- Run events, audit rows, the view a read returns, and `lastStreamId` are not part of the model; an append is an await
  that may throw.
- A subscription that is lost and comes back, as one of a reconnecting Redis client does, is not modelled: once in effect
  it stays until the worker closes it or dies.
- The wall clock is arbitrary: no theorem assumes that two clocks agree or that time passes.
- The row of a run that does not exist, and a delivery order of channel messages, are not modelled; the channel is a
  count of messages not yet handled.
- A write that was rejected never took effect in the model; a write that was committed and whose acknowledgement was lost
  is not modelled.
- RunStops.NoAcceptedStopIsLost: asks that the worker handled its messages alive or that its second look succeeded; for
  every other stop `RunStops.AStopIsHeardExactlyWhen` says what becomes of it.
- RunStops.AStopIsHeardExactlyWhen: speaks of what can happen without another stop, since a later one is heard like any.
- RunTheorems.CollectorSettles: speaks of a worker that is left undisturbed; a worker that dies is settled by a read.

Of the crontab and the schedules:

- What the cron library accepts, when a schedule runs next and how it is phrased: the library is not part of this model,
  so whether an expression is accepted is an input of `UpdateSchedule`.
- ScheduleUpdates.EditIsIsolated: asks that no two ids of the file collide and that the new expression is in the parser's
  own grammar, which the cron library is not known to guarantee.
- `toLowerCase` beyond what can produce an ASCII letter, since nicknames and prefixes are ASCII.
- The audit row of an edit, and the answer after it, which is the listing `EditIsIsolated` is about.
- Sources are searched one after another on the texts read beforehand; a crontab edited by somebody else between the read
  and the write is overwritten by the code and by the model alike.

Of the terminal:

- Re-running the hook's effect while a socket is open: one effect and one socket at a time are modelled.
- Text that is not a stream id as a resume position; `Number` on anything but digits is read as not a number, and digits
  past the largest double are not infinite.
- StreamIds.CompareIsTheOrder: holds of ids whose parts are exact as doubles, which is what the terminal's ids are taken
  to be; `StreamIds.CompareIsTheRoundedOrder` is what holds of all.
- The line xterm.js keeps when it is cleared: a clear empties the screen.
- Keystrokes, resizes and the status line.
- TerminalLaws.ScreenIsAContiguousStretch: asks that no trim overtakes a positioned reader that has more to read, which
  is exactly what rules gaps out (`TerminalGaps.NoGapsExactlyWhenNeverOvertaken`). It speaks of bytes; where an
  overtaken reader's screen is a stretch all the same because bytes agree by chance is not stated.

Of the rest:

- Symbolic links and other special files are skipped by the walk and are one kind of node here; absolute paths are not
  modelled.
- JSON texts: a frame carries what the contract reads from its text. Timeouts are a reply list that has run dry.
- The base64 of a transcript.
- Hexadecimal pairs outside ASCII in a DN or a filter; they are never written by the code.
- Shell operators other than `&&` and `>`, and expansions other than `$$`, are not read by the lexer; the abort and
  cleanup commands are left out with them.
- Sessions, area administration, catalog scanning and all interface code, which would only add easy members.
