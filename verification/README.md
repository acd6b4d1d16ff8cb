# Verified model of the local Actor runtime

This project models the stateful core of a local runtime for Apify Actors and proves what it keeps: a run's
life from `READY` to its last status, the standby run pool, the streaming log pipeline, the ANSI-to-HTML
scanner of the console, pay-per-event charging, pricing history, webhook events and their delivery, and four
smaller algorithms with sharp specifications (a symlink walk, input defaults, next-run arithmetic, key paging).

Each file models one source file or one protocol. Where the source changes state step by step, there is a
class or a method with loops, proved equal to a step function; what the source promises is then proved about
that function, as a rule over every sequence of steps. One step is one stretch of the source between two
awaits, so a sequence of steps is an interleaving of the concurrent calls. Time is an integer number of
milliseconds that never runs backwards; money is a real number with the rounding written out.

Run everything with `dafny verify dfyconfig.toml`.

## What the proofs turned up

- Secrets: call a secret mask-safe if it neither begins nor ends with `*` and does not hold the whole mask. No set of
  mask-safe secrets lets one through, for any text and any cut; a lone secret can get through if and only if it is not
  mask-safe (`LeaksExactlyUnlessMaskSafe`).
- Cutting the text: for every set of mask-safe secrets, the place of the cuts makes no difference if and only if each
  secret is orderly towards those masked after it: none of them occurs in it short of its last character, and no proper
  ending of one begins it (`CutMakesNoDifferenceExactly`). Any pair that is not shows in two cuts of one text.
- Dev folder: a path that reaches the host's root through a link is reported as "not a directory". Otherwise the answer
  is that of pathname resolution as long as every `..` met in a link target cancels a real directory
  (`WalkIsPathnameResolution`). Behind a name that is itself a link, a `..` can be resolved differently
  (`UpsBehindALinkAreLost`).
- Restarts: an incarnation hands a restart mark on to the next if and only if it had no container and either came with
  a mark or had one land while it was running; it hands an armed stop timer on if and only if it had no container and
  a migration was never stopped (`HandsOnExactly`). The next incarnation then restarts after exit code 0, or is
  stopped for a migration nobody asked it for (`LeftoverRestartRunsAgain`, `LeftoverTimerMarksTheNext`).
- Charges: an event named like something every object inherits (`toString`, ...) is accepted although it is not
  priced, and its stored count becomes text. Counts are conserved over every history exactly for the names that are
  not inherited or are priced (`ConservedExactlyIfCounted`).
- Input: a schema field named like a function every object inherits (`constructor`, `toString`, ...) never gets its
  default (`InheritedNameGetsNoDefault`).
- Schedules: the comment on `computeNextRunAt` says "at or after `currentDate`"; without a random offset a run due
  exactly now is skipped (`NowIsSkipped`). The model follows the code.

## Model

| member | source | states |
|---|---|---|
| `LogRedaction.Prepare` | src/services/log-redaction.ts:18-19 | exactly the non-empty secrets, each once, longest first |
| `LogRedaction.SplitJoinIsReplace` | src/services/log-redaction.ts:22-23 | splitting at a secret and joining with the mask replaces its occurrences from left to right |
| `LogRedaction.HeldBackIsLongest` | src/services/log-redaction.ts:25-32 | the held-back tail is the longest suffix that is a proper prefix of a secret |
| `LogRedaction.LogRedactor.HeldBackLength` | src/services/log-redaction.ts:26-32 | the countdown finds that longest suffix although it starts below the longest secret's length |
| `LogRedaction.LogRedactor.Redact` | src/services/log-redaction.ts:35-41 | emitted text and new held tail are one step of the stream |
| `LogRedaction.LogRedactor.Flush` | src/services/log-redaction.ts:42-46 | lets out what is held and holds nothing more |
| `LogRedaction.RedactAll` | src/services/log-redaction.ts:17-48 | a whole log through the redactor is the stream function of its chunks |
| `LogRedaction.TiesKeepTheirOrder` | src/services/log-redaction.ts:18-19 | secrets of one length are masked in the order they are first listed |
| `LogRedaction.NoSecretInOutput` | src/services/log-redaction.ts:17-48 | for mask-safe secrets and any chunks, no secret occurs in the whole output |
| `LogRedaction.LeaksExactlyUnlessMaskSafe` | src/services/log-redaction.ts:17-48 | for every secret alone: some chunks let it through if and only if it begins or ends with `*` or holds the whole mask |
| `LogRedaction.MaskIsScan` | src/services/log-redaction.ts:22-23 | for orderly secrets, masking one after another is one left-to-right pass over all of them |
| `LogRedaction.StreamingIsMaskingOnce` | src/services/log-redaction.ts:22-41 | for mask-safe orderly secrets, any cut gives the mask of the whole text |
| `LogRedaction.DisorderShowsTheCut` | src/services/log-redaction.ts:22-41 | whatever the other secrets are, one pair that is not orderly gives two cuts of one text with different outputs |
| `LogRedaction.CutMakesNoDifferenceExactly` | src/services/log-redaction.ts:17-48 | for every set of mask-safe secrets: every cut gives the mask of the whole text if and only if all pairs are orderly |
| `LogRedaction.CleanTextPassesThrough` | src/services/log-redaction.ts:34-47 | text without a secret comes out unchanged, whatever the cut and the secrets |
| `LogRedaction.HeldTailIsShort` | src/services/log-redaction.ts:26-41 | the held tail is empty or begins a secret, and is shorter than the longest one |
| `LogBuffer.StampedReadsBack` | src/services/logs.ts:44-60 | reading stamped text, refusing stamps anywhere but at line starts, gives the text back |
| `LogBuffer.OnlyStampedReadsBack` | src/services/logs.ts:44-60 | nothing else than the stamped text reads back so: one stamp per line start, no other |
| `LogBuffer.CutAnywhere` | src/services/logs.ts:13-16 | stamping two chunks with the line state carried over is stamping their concatenation |
| `LogBuffer.LiveLog.StampLines` | src/services/logs.ts:44-60 | the newline-hunting loop stamps exactly the line starts and leaves the right line state |
| `LogBuffer.LiveLog.AppendLog` | src/services/logs.ts:62-68 | the buffer grows by the stamped chunk; an empty chunk changes nothing |
| `LogBuffer.LiveLog.Snapshot` | src/services/logs.ts:106-115 | a flush takes out all that is buffered, in order, and leaves an empty buffer |
| `LogBuffer.StepKeeps` | src/services/logs.ts:62-118 | appends and every stretch of a flush keep: persisted, in flight and buffered text add up; flushes are serial |
| `LogBuffer.NothingIsLost` | src/services/logs.ts:62-118 | for every interleaving, persisted + in flight + buffered is everything appended, stamped as if in one piece |
| `LogBuffer.FullLogHasEverythingBefore` | src/services/logs.ts:121-137 | whatever happens meanwhile, `getFullLog` returns all that was appended before its call and nothing that was not |
| `LogBuffer.EveryFlushLands` | src/services/logs.ts:106-118 | after every history, one more flush call with those before it persists the whole log and leaves the buffer empty |
| `LogBuffer.TheMutexIsTheGate` | src/services/logs.ts:22-28 | a flush may start exactly when the keyed mutex, in any of its histories, starts its call |
| `KeyedMutex.StepKeeps` | src/storage/mutex.ts:9-23 | call, start, settlement and cleanup keep the chain of tails, the order and the entries |
| `KeyedMutex.OneRunsPerKeyInOrder` | src/storage/mutex.ts:9-23 | per key one function runs at a time, in call order; an entry exists exactly while the latest call has not returned |
| `KeyedMutex.StartsExactlyInTurn` | src/storage/mutex.ts:10-11 | in every history a call can start if and only if it waits and all earlier calls of its key have settled |
| `KeyedMutex.EveryHistoryIsSerial` | src/storage/mutex.ts:9-23 | seen from any one key, every history runs one function after the other, each whole, in call order |
| `KeyedMutex.EveryCallIsServed` | src/storage/mutex.ts:9-23 | after every history all calls can be served in the order they were made, and then no entry is left |
| `KeyedMutex.Queue.Run` | src/storage/mutex.ts:9-15 | a call waits for the tail it found and becomes the tail |
| `KeyedMutex.Queue.Finally` | src/storage/mutex.ts:16-22 | the entry goes only if the tail is still this call's own |
| `Ansi.EscapesEachCharacter` | src/console/templates.ts:9-15 | the four replacements in a row escape each character on its own |
| `Ansi.SgrStyle.ApplySgrParams` | src/console/ansi.ts:58-89 | the loop over parameters is the fold of codes, extended colours skipped with their arguments |
| `Ansi.LastWriterWins` | src/console/ansi.ts:58-89 | after any parameter string bold is what the last of 1 and 0 says, dim the last of 2 and 0, the colour the last foreground code, 39 or 0, extended colours left out; without one it stays |
| `Ansi.NumbersReadBack` | src/console/ansi.ts:60-64 | a number written out in decimal is read as that code |
| `Ansi.CssSaysTheStyle` | src/console/ansi.ts:91-97 | the entry declares bold, dim and each colour exactly if the style has it, and no two colours are written alike |
| `Ansi.ParseIsGrammatical` | src/console/ansi.ts:126-175 | every input splits into text, control sequences, OSC strings and short escapes, and joins back to itself |
| `Ansi.ParseIsTheOnlyReading` | src/console/ansi.ts:126-175 | the grammar is unambiguous: a grammatical splitting is the one found |
| `Ansi.SkipCsi` | src/console/ansi.ts:136-139 | finds the first final byte, or the end of the input |
| `Ansi.SkipOsc` | src/console/ansi.ts:151-166 | finds the end of the first terminator, or the end of the input |
| `Ansi.Escape` | src/console/ansi.ts:134-174 | one escape sequence moves the scan forward and keeps written + still to write |
| `Ansi.ControlSequence` | src/console/ansi.ts:135-150 | only `m` changes the style and the open span; anything else is stripped, a truncated sequence ends the scan |
| `Ansi.AnsiToHtml` | src/console/ansi.ts:104-179 | the scanner renders the grammar, and its HTML read back is every character outside escapes with what the last writer of each attribute, of all codes before it, says |
| `Ansi.HtmlReadsBack` | src/console/ansi.ts:110-124 | spans are balanced and never nested, entities decode, each character carries the folded style |
| `Ansi.SgrIsIdempotent` | src/console/ansi.ts:58-89 | repeating a parameter list changes nothing |
| `StandbyPool.PickIsLeastLoaded` | src/services/standby.ts:231-235 | the pick is the first least loaded run below the cap, and none only if all are at it |
| `StandbyPool.AcquireKeeps` | src/services/standby.ts:215-253 | an acquisition starts at most one run, leases one of the current build, leaves a run at or below the desired load, and keeps the invariant |
| `StandbyPool.ReleaseKeeps` | src/services/standby.ts:246-253 | a release lowers one count once, finishes a retired run or arms the idle timer, and keeps the invariant |
| `StandbyPool.StepKeeps` | src/services/standby.ts:103-352 | acquire, release, start, start failure, prune and idle expiry keep counts, membership and timers |
| `StandbyPool.StepMoves` | src/services/standby.ts:103-352 | exactly which events take a run out of the pool, mark it as retiring, finish it or settle its start |
| `StandbyPool.OpenIsHeld` | src/services/standby.ts:237-253 | summed open requests are the leases not yet released |
| `StandbyPool.EveryHistory` | src/services/standby.ts:202-352 | at every moment: counts match leases, no run over the cap, one build in the pool, nothing finished twice or while held, pool size at most 1 + peak/min(desired+1, max) |
| `StandbyPool.EveryRunEndsUp` | src/services/standby.ts:103-352 | no run is forgotten: over every history a run is pooled exactly until its start fails, it ends, idles out or is replaced; retiring exactly if replaced; finished exactly if it idled out, or was replaced and no lease is left on it |
| `StandbyPool.NewBuildRetiresTheOthers` | src/services/standby.ts:215-221 | after every history an acquisition of a build retires each pooled run of another one, and finishes it there and then exactly if nothing holds it |
| `StandbyPool.LeaseGoesToLeastLoaded` | src/services/standby.ts:230-242 | after every history a lease goes to the run of the build with the fewest leases below the cap, the oldest of equals, or to a new run if there is none; one more is started exactly if all then hold more than desired |
| `StandbyPool.PoolInOrder` | src/services/standby.ts:174-195 | after every history the pool lists its runs in the order they were started |
| `StandbyPool.StandbyService.RemoveFromPool` | src/services/standby.ts:103-110 | the entry leaves the pool and its timer is cleared |
| `StandbyPool.StandbyService.Retire` | src/services/standby.ts:346-352 | a retired entry leaves the pool and finishes at once only if nothing holds it |
| `StandbyPool.StandbyService.RetireOthers` | src/services/standby.ts:216-221 | all runs of another build are retired, the others untouched |
| `StandbyPool.StandbyService.LeastLoaded` | src/services/standby.ts:231-235 | the loop picks what the specification picks |
| `StandbyPool.StandbyService.AddRun` | src/services/standby.ts:174-195 | one new starting entry at the end of the pool |
| `StandbyPool.StandbyService.Acquire` | src/services/standby.ts:215-242 | the whole synchronous section is the acquisition step, and keeps the invariant |
| `StandbyPool.StandbyService.Release` | src/services/standby.ts:246-253 | the release step; a second release of a lease changes nothing |
| `StandbyPool.StandbyService.IdleTimerFires` | src/services/standby.ts:336-344 | a timer on an entry in use or outside the pool is a no-op, else the run is finished |
| `StandbyPool.StandbyService.Prune` | src/services/standby.ts:113-122 | an ended run leaves the pool without being finished |
| `StandbyPool.StandbyService.StartSettles` | src/services/standby.ts:187-193 | a started idle run gets its timer, a failed one leaves the pool |
| `JobStatus.TransitionMovesForward` | src/services/job-status.ts:27-75 | the gate only moves a job forward, and out of `ABORTING` only to `ABORTED` |
| `RunLifecycle.StepKeeps` | src/services/runs.ts:667-1072 | aborts, window expiry, migration, reboot, every handler stretch and resurrection keep the run's invariant |
| `RunLifecycle.EveryInterleaving` | src/services/runs.ts:667-1072 | so does every interleaving of them |
| `RunLifecycle.StatusMovesForward` | src/services/runs.ts:1016-1031 | within an incarnation the status only moves forward; once `ABORTING`, only `ABORTED` follows |
| `RunLifecycle.AbortingAlwaysFinishes` | src/services/runs.ts:993-1072 | an open window means `ABORTING`; every `ABORTING` record has a finisher, whose own steps make it `ABORTED` |
| `RunLifecycle.StartsNeedARunningRecord` | src/services/runs.ts:791-852 | a container starts only for a running record, an error restart only with the flag set, and the count grows by it |
| `RunLifecycle.RestartCountIsExact` | src/services/runs.ts:928-952 | over every history `restartCount` grows by exactly the restarts taken |
| `RunLifecycle.NoContainerAfterAbort` | src/services/runs.ts:787-852 | once a record left `READY` and `RUNNING`, its incarnation starts no container and no restart |
| `RunLifecycle.AtMostThreeRestartsAWindow` | src/services/runs.ts:922-952 | every window of 60 seconds holds at most three error restarts of the incarnation |
| `RunLifecycle.GracefulAbortsJoin` | src/services/runs.ts:1009-1068 | an open window survives everything but its expiry, a hard abort and the handler: further graceful aborts join it |
| `RunLifecycle.AbortCallsExactly` | src/services/runs.ts:1032-1072 | after every history an abort call goes to the driver if and only if the run is `READY`, or `RUNNING` or `ABORTING` and the call is a hard one; the window is open afterwards if and only if the call is graceful and the run was `RUNNING` or the window open |
| `RunLifecycle.GracefulAbortWaits` | src/services/runs.ts:1055-1064 | a graceful abort of a running run leaves its container alone until the window expires, a hard abort comes or the handler moves |
| `RunLifecycle.HandlerFinishesTheAbort` | src/services/runs.ts:676-909 | left alone, the handler finishes an abort that came before its container without starting one, and an open window at the container's exit, without waiting for it or restarting |
| `RunLifecycle.ExitDecidesTheEnd` | src/services/runs.ts:829-884 | left alone, an exit restarts a marked run, restarts an error within the limit, and else ends the run as `SUCCEEDED`, `TIMED-OUT` or `FAILED` |
| `RunLifecycle.AMinuteLaterItRestartsAgain` | src/services/runs.ts:928-952 | a minute after its last restart a run restarts on error again, however often it has |
| `RunLifecycle.LostContainerFails` | src/services/runs.ts:885-899 | an error of the driver around the container ends a running run as `FAILED` |
| `RunLifecycle.RestartKeepsSpacing` | src/services/runs.ts:929-939 | a restart the count allows is a full window behind the one three before it |
| `RunLifecycle.RestartRequestsExactly` | src/services/migrations.ts:22-99 | for every event, exactly what it does to the mark, the stop timer and the writes on their way |
| `RunLifecycle.ResurrectedIsNew` | src/services/runs.ts:570-620 | a resurrected run is a new one but for its restart count and the restart requests it was handed |
| `RunLifecycle.HandsOnExactly` | src/services/migrations.ts:84-99 | over every history of an incarnation: it hands on a restart mark, or an armed stop timer, if and only if it had no container and came with it or got it unstopped |
| `RunLifecycle.FirstIncarnationHandsOnExactly` | src/services/migrations.ts:39-82 | a run's first incarnation hands on exactly its own: a mark that landed while it was running, a migration that was never stopped |
| `RunLifecycle.ContainerClearsRestartState` | src/services/runs.ts:912-913 | an incarnation that had a container hands no restart mark and no stop timer on |
| `RunLifecycle.LeftoverRestartRunsAgain` | src/services/runs.ts:829-841 | an instance: a mark handed on restarts the next incarnation after exit code 0 |
| `RunLifecycle.LeftoverTimerMarksTheNext` | src/services/migrations.ts:27-54 | an instance: a stop timer handed on marks the next incarnation, which nobody migrated |
| `RunLifecycle.RunService.TransitionTo` | src/services/job-status.ts:61-75 | the guarded write, answering the status the record ended up with |
| `RunLifecycle.RunService.AbortRun` | src/services/runs.ts:1032-1072 | joins, opens or cancels the window, or goes the hard path, by what its own write saw |
| `RunLifecycle.RunService.FinishGracefulAbort` | src/services/runs.ts:1004-1007 | the expired window's own `ABORTED` write |
| `RunLifecycle.RunService.StartHandler` | src/services/runs.ts:675-693 | a record already aborting is finalised without a container |
| `RunLifecycle.RunService.ContainerExited` | src/services/runs.ts:826-852 | a restart mark is consumed by the exit; otherwise the exit decides restart or final status |
| `RunLifecycle.RunService.RestartAfterError` | src/services/runs.ts:928-952 | counting the recent restarts and deciding inside one write is the decision step |
| `RunLifecycle.RunService.Finish` | src/services/runs.ts:900-918 | an open window is taken over by the handler, else the restart state is cleared |
| `RunLifecycle.RunService.MigrateRun` | src/services/migrations.ts:22-37 | arms one stop timer, for a running run only |
| `RunLifecycle.RunService.RebootRun` | src/services/migrations.ts:58-63 | cancels an open migration stop on its way to its write |
| `JobEvents.WriteAgrees` | src/services/webhook-dispatches.ts:88-102 | a guarded write, a patch or a resurrection extends the trace by what keeps it in step with the record |
| `JobEvents.WritesExactly` | src/storage/registry.ts:38-75 | in every history: what each write leaves in the store, and the one event it is announced by, if any |
| `JobEvents.EventsFormTheLanguage` | src/services/webhook-dispatches.ts:88-128 | over every history of any number of jobs, a job's events are `CREATED (TERMINAL RESURRECTED)* TERMINAL?`, one `RESURRECTED` per resurrection, ending with the terminal status it has; a build is never resurrected |
| `JobEvents.Registry.Notify` | src/storage/registry.ts:67-75 | listeners see the record before and after; a deletion queues nothing |
| `JobEvents.Registry.Set` | src/storage/registry.ts:38-44 | creation is the create step |
| `JobEvents.Registry.Update` | src/storage/registry.ts:47-55 | read, mutate, write and notify are one step |
| `WebhookDispatch.BackoffInRange` | src/services/webhook-dispatches.ts:284-287 | a wait is within a quarter of its doubling delay, to the millisecond |
| `WebhookDispatch.WaitsAddUp` | src/services/webhook-dispatches.ts:43-49 | n waits add up to at most 1.25 * base * (2^n - 1) |
| `WebhookDispatch.StepKeeps` | src/services/webhook-dispatches.ts:234-309 | timer, lookup, delivery, write, rescheduling and restart keep the dispatch's invariant |
| `WebhookDispatch.DispatchIsDelivered` | src/services/webhook-dispatches.ts:177-309 | at most 12 calls (4 for a test, 1 without retries), finished with its last call exactly when final, a timer or an attempt but never both while active, the timer due when the next call is, each wait within a quarter of its doubling delay, no call before its wait is over |
| `WebhookDispatch.OutcomeDecides` | src/services/webhook-dispatches.ts:260-303 | over every history, with each delivery's outcome taken from the events: the calls are those whose delivery ended, with their times, and the status is what the last of them says, or `FAILED` if that had no final answer at the call limit |
| `WebhookDispatch.DueAttemptIsMade` | src/services/webhook-dispatches.ts:234-272 | a scheduled attempt, once due, reads, looks up, delivers and writes its call |
| `WebhookDispatch.FinalStays` | src/services/webhook-dispatches.ts:260-309 | once final, a dispatch never changes |
| `WebhookDispatch.Dispatcher.ScheduleAttempt` | src/services/webhook-dispatches.ts:234-248 | replaces the timer; an overdue attempt is due now |
| `WebhookDispatch.Dispatcher.TimerFired` | src/services/webhook-dispatches.ts:236-243 | a due timer is spent and puts one attempt in flight |
| `WebhookDispatch.Dispatcher.FinishAttempt` | src/services/webhook-dispatches.ts:273-292 | decides between the outcome, another attempt and giving up |
| `WebhookDispatch.Dispatcher.WriteOutcome` | src/services/webhook-dispatches.ts:293-303 | appends the call and finishes a final dispatch |
| `WebhookDispatch.Dispatcher.AttemptEnds` | src/services/webhook-dispatches.ts:308-309 | schedules the next attempt of an active dispatch only |
| `Charging.SumEventUsageUsd` | src/services/run-usage.ts:79-93 | the accumulating loops compute the total |
| `Charging.TotalIsCloseToExact` | src/services/run-usage.ts:22-24 | the outer rounding changes nothing; the total is off by half a millionth per event at most |
| `Charging.MoreChargesCostMore` | src/services/run-usage.ts:79-93 | charging more of any event never lowers the total |
| `Charging.CountsAreConserved` | src/services/charging.ts:65-119 | over every interleaving, a count that is a number stays one: its old value plus accepted charges, pushed items and one start charge a resurrection, those on their way included |
| `Charging.ConservedExactlyIfCounted` | src/services/charging.ts:68-97 | for every run paid per event: a name is counted right over every history if and only if it is priced or nothing every object inherits |
| `Charging.InheritedNameIsNotCounted` | src/services/charging.ts:68-94 | any other name is accepted, and one charge of it is counted by no number |
| `Charging.ResurrectAddsStartCharge` | src/services/runs.ts:577-593 | a resurrection adds exactly the start charge, and only to the start event |
| `Charging.StartsAreCharged` | src/services/pricing.ts:364-380 | a start costs one event per whole gigabyte, at least one, if it is priced, and a new run has been charged nothing else |
| `Charging.RegisteredExactly` | src/services/charging.ts:99-119 | pushes are charged from a start with the item event priced until the handler ends |
| `Charging.ResurrectsExactly` | src/services/runs.ts:509-601 | a finished run is resurrected with its cap, a higher one or none, and not at all with a lower one |
| `Charging.AcceptedOnlyWhenFree` | src/services/charging.ts:70-77 | two charges accepted under one record key are at least 180 seconds apart, whatever other runs do |
| `Charging.ChargedExactly` | src/services/charging.ts:65-97 | after every history: an `apify-` name is refused first, then a run not paid per event, then a name not in its table; any other charge is put on its way exactly if none was accepted under its key in the last 180 seconds of the history, and adds its count once it lands |
| `Charging.RecordKeysDoNotCollide` | src/services/charging.ts:72 | a record key names one run and one idempotency key |
| `Charging.CapStopsCharging` | src/services/charging.ts:132-154 | charges at or above a positive cap leave the stamp set or on its way; each incarnation is stamped at most once and aborted by the cap at most once |
| `Charging.StampsExactly` | src/services/charging.ts:132-154 | for every event, exactly when the stamp is called for, set and taken back, and when its call aborts |
| `Charging.NeverStoppedBelowTheCap` | src/services/charging.ts:132-138 | over every history without a resurrection only a run whose priced events reached its positive cap is stamped |
| `Charging.Billing.PruneIdempotencyRecords` | src/services/charging.ts:39-43 | exactly the expired records go |
| `Charging.Billing.ChargeEvent` | src/services/charging.ts:65-77 | the checks in their order; an accepted charge reserves its key before it is written |
| `Charging.Billing.IncrementChargedEventCount` | src/services/charging.ts:90-97 | one charge lands, and the record it wrote decides whether to stamp |
| `Charging.Billing.StampChargingStopped` | src/services/charging.ts:141-153 | the stamp is set once, and its setter is told to abort |
| `Pricing.EventComesBack` | src/services/pricing.ts:74-142 | a stored charge event is valid and normalises to itself |
| `Pricing.EntryComesBack` | src/services/pricing.ts:144-219 | a stored entry is valid at any later time and normalises to itself |
| `Pricing.EventIsWhatItSays` | src/services/pricing.ts:74-142 | an event is accepted and stored as this one if and only if it says this one, field by field, and that one is priced lawfully |
| `Pricing.EntryIsWhatItSays` | src/services/pricing.ts:144-219 | an entry is accepted and stored as this one if and only if it says this one, absent fields by their defaults, and that one is lawful |
| `Pricing.ValidatePricingInfos` | src/services/pricing.ts:226-235 | the loop accepts exactly the lists of valid entries, each normalised |
| `Pricing.ValidatePricingInfosUpdate` | src/services/pricing.ts:242-288 | the checks and their refusals, in order |
| `Pricing.RefusedExactly` | src/services/pricing.ts:242-288 | which refusal is given, by what is wrong with the submission |
| `Pricing.HistoryOnlyGrows` | src/services/pricing.ts:237-288 | over every sequence of submissions every earlier history is a prefix, starts strictly increase |
| `Pricing.AtMostOneFutureEntry` | src/services/pricing.ts:281-286 | while time does not run backwards, only the last entry can lie in the future |
| `Pricing.ResubmittingChangesNothing` | src/services/pricing.ts:242-274 | submitting the stored history is accepted at any time and changes nothing |
| `Pricing.EffectivePricingInfo` | src/services/pricing.ts:314-325 | the scan, loop against function |
| `Pricing.EffectiveIsLastStarted` | src/services/pricing.ts:313-325 | on every increasing history the entry in force is the last one started by the date |
| `Pricing.PastPricesStay` | src/services/pricing.ts:237-325 | whatever is appended, lookups dated before its start answer as before |
| `InputDefaults.DefaultsOnlyExtend` | src/services/input-schema.ts:113-124 | every supplied value survives at every path, nested objects outside arrays gain no keys, the top level gains exactly the fields with a default, and inherited names none |
| `InputDefaults.AssignedExtends` | src/services/input-schema.ts:158-199 | filling any object keeps every value it holds and every array's length |
| `InputDefaults.PresentKeepsKeys` | src/services/input-schema.ts:180-189 | a present nested object keeps exactly its keys, at every depth outside arrays |
| `InputDefaults.ItemsAreFilled` | src/services/input-schema.ts:191-199 | an item object gains just the item defaults it lacks; without object defaults the array stays |
| `InputDefaults.ObjectsInItemsAreFilled` | src/services/input-schema.ts:180-197 | an object inside an array item gains the item defaults under its key, or its own field's, and what is further down keeps its keys |
| `InputDefaults.MergeLeaves` | src/services/input-schema.ts:202-209 | path by path, the overrides' leaves stand and the base's fill in where they are silent, nothing else |
| `InputDefaults.DefaultsLeafByLeaf` | src/services/input-schema.ts:138-155 | each leaf of a field's defaults comes from its own object default or, where that is silent, from the nested field's defaults, at every depth |
| `InputDefaults.OwnDefaultWins` | src/services/input-schema.ts:139-155 | a field's own object default wins over nested ones leaf by leaf |
| `InputDefaults.OtherOwnDefaultYields` | src/services/input-schema.ts:143-154 | an own default that is no object is used exactly if no nested field has one |
| `InputDefaults.InheritedNameGetsNoDefault` | src/services/input-schema.ts:169-175 | a field named like an inherited function gets no default |
| `InputDefaults.AssignRecursively` | src/services/input-schema.ts:158-199 | the loop over defaults and schema fields fills each key as specified |
| `InputDefaults.FillItems` | src/services/input-schema.ts:191-197 | the loop over array items |
| `InputDefaults.FillDefaults` | src/services/input-schema.ts:113-124 | the whole merge |
| `DevFolderWalk.ResolveDirectory` | src/driver/docker-driver.ts:1717-1751 | the loop ends on every filesystem, cyclic links included, with the walk's answer |
| `DevFolderWalk.WalkIsPathnameResolution` | src/driver/docker-driver.ts:1717-1751 | if every `..` met on the way cancels a real directory, the answer is that of POSIX resolution through at most 16 links, except for the root reached through a link; ok if and only if it finds another directory, or the candidate is the root |
| `DevFolderWalk.LeadingUpsAreHarmless` | src/driver/docker-driver.ts:1736-1738 | in particular on every filesystem whose link targets have their `..` first, for every candidate |
| `DevFolderWalk.RewalkingMeetsNoLink` | src/driver/docker-driver.ts:1734-1740 | walking an already resolved prefix again follows no link |
| `DevFolderWalk.StartingOver` | src/driver/docker-driver.ts:1735-1740 | starting over at the root with the normalised target leads where following the link in place leads, if each `..` cancels a real directory |
| `DevFolderWalk.CancelledPair` | src/driver/docker-driver.ts:1737 | leaving out a real directory and the `..` behind it changes no resolution, also behind links |
| `DevFolderWalk.SkippedChangeNothing` | src/driver/docker-driver.ts:1737-1738 | empty and `.` components change nothing, also behind links |
| `DevFolderWalk.LinkToRootIsNotRecognised` | src/driver/docker-driver.ts:1745-1750 | a link to `/` is reported as no directory |
| `DevFolderWalk.UpsBehindALinkAreLost` | src/driver/docker-driver.ts:1736-1738 | a `..` behind a link makes the walk miss a directory that exists |
| `ScheduleCron.OffsetIsWithinBounds` | src/services/schedule-cron.ts:15-21 | for every shortcut and coefficient the twice-rounded offset is within its bounds and below the period |
| `ScheduleCron.OffsetFollowsCoefficient` | src/services/schedule-cron.ts:56-61 | the offset is where the coefficient puts it between the bounds, to half a step and half a second, in whole steps; without a shortcut or a coefficient it is 0 |
| `ScheduleCron.FindNextRun` | src/services/schedule-cron.ts:63-74 | the loop over the cursor is the search |
| `ScheduleCron.ComputeNextRunAt` | src/services/schedule-cron.ts:50-75 | offset and search together |
| `ScheduleCron.NextRunIsEarliest` | src/services/schedule-cron.ts:63-74 | eleven rounds suffice for every cron sequence; the answer is the earliest time not before now and 10 seconds behind the last run |
| `ScheduleCron.ShortcutsRunOnTime` | src/services/schedule-cron.ts:50-75 | the same for every shortcut with the offset it is really given |
| `ScheduleCron.NowIsSkipped` | src/services/schedule-cron.ts:49-66 | without an offset "at or after now" holds if and only if no run is possible right now |
| `ScheduleCron.ElevenRoundsAreNeeded` | src/services/schedule-cron.ts:63 | ten rounds would fail for a run every second |
| `KeyListing.SortedIsIncreasing` | src/services/kv-key-listing.ts:27 | sorting distinct keys gives them in increasing order |
| `KeyListing.LessIsLexicographic` | src/services/kv-key-listing.ts:27 | the order is that of the first differing character, a proper prefix first |
| `KeyListing.PageIsSound` | src/services/kv-key-listing.ts:26-47 | a page is increasing and holds only keys of the store behind the start |
| `KeyListing.PageIsFull` | src/services/kv-key-listing.ts:35-37 | a page holds the limit, 1000 by default, or all keys behind the start, and is truncated exactly if there are more |
| `KeyListing.PageIsComplete` | src/services/kv-key-listing.ts:29-47 | a key behind the start is on the page or behind its last key |
| `KeyListing.ListedInOrder` | src/services/kv-key-listing.ts:26-47 | whatever changes between pages, the listing is increasing, so nothing comes twice |
| `KeyListing.PersistentKeysAreListed` | src/services/kv-key-listing.ts:26-47 | a key there throughout is listed exactly once when the listing is complete |
| `KeyListing.NothingElseIsListed` | src/services/kv-key-listing.ts:35-36 | only keys some page's store had are listed |
| `KeyListing.UnchangedStoreIsListed` | src/services/kv-key-listing.ts:26-47 | on an unchanged store the pages end and join to the sorted keys behind the start |

## Left out

- Docker calls, networking, tar handling, mounts and log streams: a container starts, exits with a code or is killed.
- Express routes, response shapes, console pages, websockets, proxies, upstream API: field copying and I/O.
- AJV and schema validation, secrets, template rendering, HTTP delivery and the cron library: arbitrary outcomes, or for cron an increasing sequence of times with a cursor.
- Store failures: every registry and log write is taken to succeed, so a charge's reservation is never undone and an attempt never dies half way.
- Clock jumps: time never runs backwards.
- Abort calls still waiting on the driver when a resurrection lands: `RunLifecycle.CanResurrect` assumes they have returned. Two resurrections at once are covered by the write's guard.
- Aborts between a restart decision and the new container, overlapping builds into one tag and concurrent pricing submissions are not serialised by the source and not modelled.
- The dispatcher's startup race: a restart resumes a dispatch before anything else schedules it; a delivery lost with its process may be repeated.
- A run's own `migrationCount` and `rebootCount`, its timeout arithmetic and duration: single expressions.
- A stamp from an earlier incarnation that lands after a resurrection stamps the new one, in the model as in the source; `Charging.CapStopsCharging` speaks of the incarnation's own charges.
- Pool entries are records in a table keyed by number, not heap objects, so aliasing of an entry is an equal key; readiness probing of a standby server is not modelled.
- Input values are filled as values, not in place: the model does not capture aliasing between the input and the schema, which the source avoids by cloning. A schema field or a priced event named `__proto__` is not modelled. Of a string or array read as a record of defaults, its indexes and its length are modelled; its methods, which serialising the input drops again, are not.
- Log timestamps are one token each: where they stand is modelled, not the time they show. Subscribers, the terminal flag and the periodic flusher are left out.
- Characters are Unicode scalar values where the source uses UTF-16 code units, which matters only to comparisons and cuts inside a surrogate pair. An SGR number with a fraction too small for double precision is read as no integer, where `Number` rounds it to one.
- The text of messages, the wording of validation errors and the order in which several invalid fields are reported.
- Link targets are host paths already (`hostPathOfLinkTarget` is not part of this model); a candidate path holds no `.` or `..`.
- DevFolderWalk.WalkIsPathnameResolution: stated for walks that meet no `..` behind a name that is a link or is missing, because the walk differs from pathname resolution on some of those (`UpsBehindALinkAreLost`); on others the two agree by chance, which is not characterised.
- LogRedaction.NoSecretInOutput: stated for mask-safe secrets, because each other one can leak on its own (`LeaksExactlyUnlessMaskSafe`); which sets with such a secret happen to mask it is not characterised.
- LogRedaction.StreamingIsMaskingOnce: stated for mask-safe orderly secrets; exact for every mask-safe set (`CutMakesNoDifferenceExactly`), not examined for others.
