# Verified models of BeeMax's stateful cores

BeeMax is an agent runtime. Much of what it promises its users, that a schedule fires once, that a provider is
installed once, that a migration can be undone, that no message is lost or doubled, rests on a few pieces of code that
keep state across workers, crashes and restarts. This project models those pieces in Dafny and proves what they promise
for every input and every run.

| files | component | form |
|---|---|---|
| `AutomationModel` | the automation store: one function per SQL transaction | values |
| `AutomationStore` | the same transactions, statement by statement on the tables, proved equal to those functions | class |
| `AutomationInvariant`, `AutomationRuns` | the lease and outbox invariant, over every run | proofs |
| `AutomationSchedules`, `AutomationClaims`, `AutomationCompletion`, `AutomationBinding` | what each call writes, column by column, and when it is refused; what is bound to an occurrence comes back with its next claim | proofs |
| `AutomationFencing`, `AutomationCalendar`, `AutomationIdentity`, `AutomationCollisions`, `AutomationCollisionCases`, `AutomationRetry`, `AutomationLimits`, `AutomationHistory` | fencing, manual runs, occurrence identity and its collisions, retry limits, history bounds | proofs |
| `Outbox`, `MediaOutbox`, `OutboxTables` | the text and the media delivery row and their bisimulation; the media table; each table's runs projected on its rows | values, class, proofs |
| `OutboxRows`, `OutboxRules` | what each statement does to a row and to its table, column by column, with times and limits as numbers | proofs |
| `InstallLock`, `InstallPublication`, `InstallMisread`, `InstallProgress`, `InstallStuck` | the provider install lock and publish-once installation, one system call a step, any call failing and any process dying anywhere; the one failure that breaks the lock; release, takeover and installation by a call left alone; the one death that leaves the lock stuck | transition system |
| `ChannelMigration`, `MigrationDirectory`, `MigrationSteps` | the channel-instance migration with a crash or an error at every durable write; the same one step at a time, with other writers between any two steps | values, class, transition system |
| `InboundText`, `InboundBatches`, `DeliveryChain`, `InboundDelivery`, `InboundReplay`, `InboundReplayQueue`, `InboundDedup` | the Feishu inbound pipeline: merging, batching, delivery order, replay, all three together, duplicates | values, classes, transition system |
| `EnvFile`, `EnvReading` | the `.env` printer; the parser, and what it reads stated without it | loop and values |
| `VerifierRecord`, `Verdict`, `VerdictRules` | the verifier's receipts, the evaluation of its verdict, and when a verdict is given in terms of what was submitted | class, values |
| `TerminalMarkdown` | rendering Markdown whole and as a stream | class, values |
| `Wrappers`, `Ranking` | what several of them share, the selection of the earliest rows among it | values, loop |

## Reading the model

- Time is a parameter. Runs of the automation store and of the duplicate check take place under a clock that never runs
  backwards; `computeNextRun` is any function value (`AutomationModel.Calendar`), and where a theorem needs more, it
  requires the contract that a next due time is later than now (`Advances`).
- Identifiers, claim tokens and inode numbers are fresh: a counter stands for `randomUUID`. Install-lock owner tokens are
  unique to a call; a dead process stays dead; a lock file is complete before it is linked.
- A digest is the contents it digests. A SQL transaction is one atomic step; one that throws changes nothing.
- Where `ORDER BY updated_at DESC` leaves ties open, the younger row comes first.
- Each class method is proved to do what the function of the same name says; the theorems are about those functions and
  hence about every run of the methods. What the functions compute is stated once more without them: in columns, numbers
  and texts, in the modules the table names so and in contracts of the methods.

## What is not so

Six properties one would expect are false of the code. Each is kept as the code has it, with a concrete case and the
exact condition under which the property holds.

- **`.env` round trip.** Reading undoes writing for every map except that the key `__proto__`, which the key pattern
  admits, is swallowed by the plain object the parser fills: `EnvFile.RoundTrip`, `EnvFile.ProtoIsLost`.
- **A manifest always has its backup.** When the directory sync after the manifest's rename fails, the handler takes the
  manifest for unwritten and removes the backup beside it: `ChannelMigration.MisjudgedWitness`. Over every run with
  crashes, errors and writers, the files stay recoverable exactly when that does not happen
  (`MigrationSteps.StepsKeepRecoverable`); crashes alone never lead there (`MigrationSteps.CrashesNeverGoWrong`). Every
  later operation under that migration id is refused (`ChannelMigration.MisjudgedForever`) and the database is not
  written again; an apply that draws another id goes through (`ChannelMigration.AnotherIdApplies`).
- **A terminal manifest is written over the original database.** Between the check, or the restore, that decides a
  rollback and the manifest that records it, the database is not fenced, and another program may write to it. The
  property holds exactly when none has, or the last to do so wrote that very state: `MigrationSteps.TerminalExactly`,
  `MigrationSteps.TerminalOverForeignWrite`. No such write is ever erased: `MigrationSteps.WritesOnlyBetweenPreAndPost`.
- **A claim never fails on the unique identity.** A schedule is clear of collisions while the due times it will open
  occurrences at, its next one and the one a manual run has put aside, are free and differ. It stays clear exactly when
  a manual run is not started at its own next due time nor at a due time taken before; an update or resumption does not
  recompute the due time that a manual run has put aside; and a misfire skip does not recompute that one, nor record it
  to stay (`AutomationCollisions.RunNowKeepsExactly`, `AutomationCollisions.UpdateKeepsExactly`,
  `AutomationCollisions.SetEnabledKeepsExactly`, `AutomationCollisions.SkipKeepsExactly`). Over runs that keep to this no
  claim ever throws (`AutomationCollisions.ClaimsNeverCollide`). Where they do not,
  `AutomationCollisionCases.ClearExactly` says when one of the next two claims throws. A schedule that skips misfires is
  passed over when it is claimed too late, and that never throws, whatever identities are taken; nor does a claim whose
  obstacle pruning has deleted. `AutomationCollisionCases.RunCollidesExactly` and
  `AutomationCollisionCases.EditCollidesExactly` are the two ways to provoke a throw by hand, and
  `AutomationCollisionCases.RunCollides` and `AutomationCollisionCases.EditCollides` runs from the empty store that do.
- **The install lock excludes all others.** A call that fails to read an aged lock file takes its owner for unknown, the
  lock for abandoned, and removes it, whether or not the owner is running. One step keeps the invariant of the lock
  exactly when it does not misread it so (`InstallLock.NextKeepsLock`), and over runs without such a step exclusion holds
  (`InstallLock.MutualExclusion`). After one, a second call needs nothing but time to hold the lock too
  (`InstallMisread.MisreadBreaks`, `InstallMisread.TwoHold`). What is published stays so, and receipts agree, all the same
  (`InstallPublication.PublishedOnce`, `InstallPublication.ReceiptsAgree`).

- **A dead owner's lock is taken over.** It is if nobody has claimed its generation (`InstallProgress.DeadOwnersLockIsTaken`).
  A claimant whose process dies between claiming it and removing it leaves it claimed for good
  (`InstallStuck.ClaimantDies`): from then on no call ever holds the lock, and nothing is installed
  (`InstallStuck.StuckForever`).

A seventh holds, though not for the reason one would expect. That a stream of Markdown shows what rendering the whole text
shows is false of an arbitrary line renderer: a stream shows nothing for an empty last line, so the two agree exactly
when the last line is not empty or the renderer keeps the empty line empty (`TerminalMarkdown.StreamingIsRendering`). The
program's renderer does, so for the program the property is true.

## Model

| member | source | states |
|---|---|---|
| `AutomationRuns.ReachableLeases` | packages/automation/src/store.ts:266-397 | in every reachable store: at most one open occurrence a schedule; a job's token is carried by exactly one claimed occurrence with the same expiry; a claimed occurrence its job no longer names has expired; pending scheduled deliveries refer to succeeded occurrences; no two deliveries of one origin; renewing never throws |
| `AutomationRuns.RunsKeepLeases` | packages/automation/src/store.ts:150-477 | the lease and outbox invariant survives every allowed sequence of calls of workers and users |
| `AutomationInvariant.ClaimRowsKeep` | packages/automation/src/store.ts:266-312 | the claim loop over its selected rows, claims, reclaims and misfire skips mixed, keeps the invariant |
| `AutomationInvariant.LeaseKeeps` | packages/automation/src/store.ts:285-307 | leasing a due job, opening or resuming an occurrence, keeps the duplicated lease consistent |
| `AutomationInvariant.SkipKeeps` | packages/automation/src/store.ts:273-284 | passing over a misfired run keeps it, also while an older occurrence is still open |
| `AutomationInvariant.DueMeansExpired` | packages/automation/src/store.ts:286-289 | an open occurrence of a job that is due is one the claim will resume, and if claimed, its lease is over |
| `AutomationInvariant.HeldByOne` | packages/automation/src/store.ts:314-336 | a job's current token is held by exactly one occurrence, live exactly as long as the job's lock |
| `AutomationInvariant.RenewNeverThrows` | packages/automation/src/store.ts:314-325 | the error for a missing occurrence claim is unreachable |
| `AutomationInvariant.RenewKeeps` | packages/automation/src/store.ts:314-325 | renewing moves both expiries together |
| `AutomationInvariant.BindKeeps` | packages/automation/src/store.ts:327-331 | binding an execution keeps the invariant |
| `AutomationInvariant.CompleteKeeps` | packages/automation/src/store.ts:333-397 | completing, whether it succeeds, retries or exhausts, keeps the invariant |
| `AutomationInvariant.CompletionShape` | packages/automation/src/store.ts:333-397 | a completion writes its schedule's job row and the one occurrence that carries the claim, and otherwise only prunes |
| `AutomationInvariant.RemoveKeeps` | packages/automation/src/store.ts:240-250 | removing a schedule with its occurrences and deliveries keeps the invariant |
| `AutomationInvariant.PruningOnlyForgets` | packages/automation/src/store.ts:568-578 | pruning drops no open occurrence and none a pending delivery refers to, and rewrites nothing |
| `AutomationInvariant.PruningDeliveriesOnlyForgets` | packages/automation/src/store.ts:579-585 | delivery pruning drops no pending delivery |
| `AutomationHistory.HistoryIsBounded` | packages/automation/src/store.ts:568-578 | of the closed occurrences nothing pending refers to, at most 100 of the schedule and 10000 in all remain |
| `AutomationHistory.DeliveriesAreBounded` | packages/automation/src/store.ts:579-585 | at most 100 settled deliveries of the schedule and 10000 in all remain |
| `AutomationHistory.LatestStay` | packages/automation/src/store.ts:568-578 | pruning keeps what is open or awaited, the hundred occurrences of the schedule due last and the ten thousand updated last |
| `AutomationHistory.LatestDeliveriesStay` | packages/automation/src/store.ts:579-585 | it keeps every delivery yet to be sent, the hundred of the schedule settled last and the ten thousand in all |
| `AutomationHistory.CompletionPrunes` | packages/automation/src/store.ts:357-394 | after a completion that settles its occurrence, the history of its schedule is within both bounds |
| `AutomationHistory.SkipPrunes` | packages/automation/src/store.ts:273-284 | so it is after a misfire skip |
| `AutomationHistory.SettlingDeliveriesPrunes` | packages/automation/src/store.ts:444-470 | after a delivery is settled or abandoned, the settled deliveries and the occurrences of its schedule, and of all, are within their bounds |
| `AutomationHistory.SkipRecords` | packages/automation/src/store.ts:273-284 | a missed due time not yet on record is on record after the misfire skip, where fewer than a hundred of its schedule are due later and fewer than ten thousand are kept |
| `AutomationHistory.CompletionRecords` | packages/automation/src/store.ts:357-394 | the occurrence a completion settles is not pruned by it, with the same room |
| `AutomationHistory.SettledDeliveryStays` | packages/automation/src/store.ts:444-470 | a delivery is not pruned by the call that settles or fails it, while fewer than a hundred of its schedule and ten thousand in all were updated at that time or later |
| `Ranking.FewAreNearTheFront` | packages/automation/src/store.ts:568-585 | a newest-first listing has no more than n rows with fewer than n ahead of them |
| `AutomationFencing.Fenced` | packages/automation/src/store.ts:314-338 | a retired token changes no row and is refused, however much later and after whatever other calls |
| `AutomationFencing.TokensRetire` | packages/automation/src/store.ts:240-397 | settling, superseding, skipping and removing retire the token the job carried |
| `AutomationFencing.RetiredForever` | packages/automation/src/store.ts:266-397 | a retired token never comes back |
| `AutomationFencing.CompletesOnce` | packages/automation/src/store.ts:333-397 | `complete` returns true at most once per token, and a second call changes nothing |
| `AutomationFencing.ClosedForever` | packages/automation/src/store.ts:357-397 | a succeeded, failed or skipped occurrence is never written again |
| `AutomationCalendar.ManualRunRestoresCalendar` | packages/automation/src/store.ts:211-217 | after `runNow` on a recurring run_once schedule and any failed attempts, lost leases and other calls, the settling completion restores `next_run_at` exactly and clears the stored resume time |
| `AutomationCalendar.CalendarWaitsOrReturns` | packages/automation/src/store.ts:367-394 | each call short of an edit leaves the calendar put aside, or restores it if it settles the run |
| `AutomationCalendar.NextKeepsSnapshots` | packages/automation/src/store.ts:300-312 | what a worker was handed still equals the job row in every field its completion writes back |
| `AutomationIdentity.OccurrencesAreLater` | packages/automation/src/store.ts:266-312 | for schedules never started by hand, each newly opened occurrence is due after all due times the schedule was ever picked at, and claiming does not throw |
| `AutomationIdentity.RunsKeepIdentities` | packages/automation/src/store.ts:182-397 | updates, pauses, skips, retries and lost leases keep the calendar ahead of its past |
| `AutomationIdentity.PickingNeverThrows` | packages/automation/src/store.ts:298-307 | the unique identity of an occurrence never fails such a claim |
| `AutomationCollisions.ClaimsNeverCollide` | packages/automation/src/store.ts:266-312 | over every run from the empty store, manual runs, edits, skips, retries and lost leases included: a claim does not throw if no call before it, on any schedule it selects, started a run at a taken or its own next due time, recomputed the due time put aside, or skipped it; and computeNextRun finds next due times |
| `AutomationCollisions.RunsKeepClear` | packages/automation/src/store.ts:150-397 | a schedule on which no call of the run does that stays clear of collisions |
| `AutomationCollisions.RunNowKeepsExactly` | packages/automation/src/store.ts:211-217 | an accepted manual run keeps a schedule clear exactly when it is started at a moment whose identity is free and that is not its next due time, or an occurrence is open to be resumed |
| `AutomationCollisions.SetEnabledKeepsExactly` | packages/automation/src/store.ts:252-258 | pausing and resuming keeps it clear exactly when that does not recompute the due time put aside |
| `AutomationCollisions.UpdateKeepsExactly` | packages/automation/src/store.ts:182-209 | so does changing the schedule or its timezone |
| `AutomationCollisions.SkipKeepsExactly` | packages/automation/src/store.ts:273-284 | a misfire skip keeps it clear exactly when it does not recompute the due time put aside, and does not record that due time or pruning deletes the record at once |
| `AutomationCollisionCases.ClearExactly` | packages/automation/src/store.ts:266-374 | of a due recurring schedule, under either misfire policy: neither the next claim nor, after a success without a message, the one that follows throws exactly when the first comes so late that it is skipped; or its due time is free or an occurrence is open, and the due time after that is free and another, or its claim is skipped, or pruning has deleted the occurrence in the way |
| `AutomationCollisionCases.WaysAreClearedLate` | packages/automation/src/store.ts:568-578 | pruning deletes the occurrence in the way only with a hundred occurrences of the schedule or ten thousand in all on record |
| `AutomationCollisionCases.RunCollidesExactly` | packages/automation/src/store.ts:211-217 | the same for a manual run in terms of when it is started, claimed and claimed again: only a start at a taken moment or at the calendar's next due time makes a claim throw, and then always but for a skip or a table of ten thousand occurrences pruned |
| `AutomationCollisionCases.EditCollidesExactly` | packages/automation/src/store.ts:252-258 | the same for resuming a schedule whose manual run waits: only recomputing the due time put aside makes a claim throw, and then always but for a skip or such a table |
| `AutomationCollisionCases.RunCollides` | packages/automation/src/store.ts:211-217 | the first failing case, as a run from the empty store: created, started at its due time, claimed, succeeded; the next claim throws |
| `AutomationCollisionCases.EditCollides` | packages/automation/src/store.ts:252-258 | the second: created, started, resumed, claimed, succeeded; the next claim throws |
| `AutomationRetry.RetriesEnd` | packages/automation/src/store.ts:380-394 | with a fixed limit and no expired lease reclaimed, attempts count the claims handed out and never exceed the limit; an open occurrence's backoff index is in range |
| `AutomationRetry.NextCountsClaims` | packages/automation/src/store.ts:298-307 | an occurrence's attempts equal the number of claims ever issued for it |
| `AutomationLimits.LimitsHold` | packages/automation/src/store.ts:150-209 | in every reachable store each schedule allows one to twenty attempts and at most a week of grace, whatever was asked for |
| `AutomationLimits.FailedRunWaits` | packages/automation/src/store.ts:380-394 | a failed attempt short of the limit is retried after half a minute, a minute or five, and the schedule is not due before |
| `AutomationSchedules.CreateExactly` | packages/automation/src/store.ts:150-165 | a schedule is stored exactly when name and text are in words and not too long, there is a chat and a next due time; and every column of what is stored, defaults and limits as numbers |
| `AutomationSchedules.UpdateExactly` | packages/automation/src/store.ts:182-209 | an edit goes through exactly when the caller may make it, nobody runs the schedule and the outcome is valid; what the patch names is replaced, all else stays |
| `AutomationSchedules.RunNowExactly` | packages/automation/src/store.ts:211-217 | who may start a schedule by hand and when; what is written and put aside |
| `AutomationSchedules.SetEnabledExactly` | packages/automation/src/store.ts:252-258 | resuming recomputes the due time, pausing leaves it |
| `AutomationSchedules.RemoveExactly` | packages/automation/src/store.ts:240-250 | who may remove a schedule, and exactly which rows go with it |
| `AutomationClaims.ClaimsDescribeOccurrences` | packages/automation/src/store.ts:266-312 | at any moment of any run: each claim a claim statement returns describes an occurrence of the new store, its due time, attempt, objective and task run, and goes on with the one its schedule had open or opens the next; one claim for each selected schedule not too late, in order; those too late are stepped over; all others stay |
| `AutomationClaims.SelectsExactly` | packages/automation/src/store.ts:268-270 | the statement selects enabled schedules that are due and not leased, the earliest first, as many as asked between one and twenty |
| `AutomationClaims.SkipWrites` | packages/automation/src/store.ts:273-284 | stepping over a missed due time: the schedule moves on or ends, and the missed time is recorded closed, without an attempt, once |
| `AutomationClaims.LeaseThrowsExactly` | packages/automation/src/store.ts:298-307 | a lease throws exactly when nothing is open and the due time is on record already |
| `AutomationClaims.RenewExactly` | packages/automation/src/store.ts:314-325 | a renewal needs the current token, and then moves the ends of both leases and nothing else |
| `AutomationClaims.BindExactly` | packages/automation/src/store.ts:327-331 | a binding needs the running lease of that occurrence; a task run not given is left as it was |
| `AutomationBinding.BoundComesBack` | packages/automation/src/store.ts:285-331 | what was bound comes out of the next claim that resumes the occurrence, through any retries, lost leases and other calls between |
| `AutomationBinding.ClaimsCarryTheLast` | packages/automation/src/store.ts:285-339 | over any run, a claim carries what bindings and completions wrote to its occurrence last |
| `AutomationCompletion.CompletionAnswers` | packages/automation/src/store.ts:333-397 | a completion without the running lease is refused and changes nothing; with it, it throws exactly for a message whose key is taken or a next due time that cannot be computed, and else is accepted |
| `AutomationCompletion.CompletionQueues` | packages/automation/src/store.ts:346-356 | a success with a message queues exactly one delivery, once per occurrence: of that occurrence, to the claim's owner, with the message's text and key, uncharged and due now; nothing else changes a delivery |
| `AutomationCompletion.SuccessWrites` | packages/automation/src/store.ts:357-379 | a success frees the schedule, which runs on by its calendar or ends, and closes the occurrence, which stays while its message waits |
| `AutomationCompletion.FailureWrites` | packages/automation/src/store.ts:380-395 | a failure frees it with one error more and waits half a minute, a minute or five, or ends the attempts at the limit |
| `AutomationCompletion.EnqueueExactly` | packages/automation/src/store.ts:433-442 | a delivery queued directly: refused exactly for blank parts, dropped exactly for a used key, and else one new row with its columns |
| `AutomationStore.Tables.Create` | packages/automation/src/store.ts:150-165 | effect and failure of creating a schedule, its validation included, statement by statement |
| `AutomationStore.Tables.Update` | packages/automation/src/store.ts:182-209 | effect of editing; a running or foreign schedule, or an invalid name, text or trigger, throws and nothing changes |
| `AutomationStore.Tables.RunNow` | packages/automation/src/store.ts:211-217 | effect of a manual start, refused while running, paused or already manual |
| `AutomationStore.Tables.SetEnabled` | packages/automation/src/store.ts:252-258 | effect of pausing and resuming |
| `AutomationStore.Tables.Remove` | packages/automation/src/store.ts:240-250 | the job row, its occurrences and its deliveries go together |
| `Ranking.SelectEarliest` | packages/automation/src/store.ts:268-270 | ordering by time under a limit: no row left out is earlier than one selected, and none is left out below the limit |
| `AutomationStore.Tables.SelectDue` | packages/automation/src/store.ts:268-270 | the selection: due rows, earliest first, up to the clamped limit |
| `AutomationStore.Tables.ClaimDue` | packages/automation/src/store.ts:266-312 | the whole claim transaction, rolled back as one when a row throws; each claim describes its schedule and its occurrence as they stand, objective and task run included |
| `AutomationStore.Tables.RenewClaim` | packages/automation/src/store.ts:314-325 | both lease expiries move, or neither |
| `AutomationStore.Tables.BindClaimExecution` | packages/automation/src/store.ts:327-331 | only a live claim is bound |
| `AutomationStore.Tables.Complete` | packages/automation/src/store.ts:333-397 | the completion transaction with delivery, resumption, retry and pruning; accepted, it queues the message of a success with its own text, key and owner, and else no delivery |
| `AutomationStore.Tables.SelectDeliveriesDue` | packages/automation/src/store.ts:415-418 | the selection: due deliveries, earliest first, up to the clamped limit |
| `AutomationStore.Tables.ClaimDeliveriesDue` | packages/automation/src/store.ts:413-430 | the statement selects the due deliveries, earliest first, and leases each under its own fresh token |
| `AutomationStore.Tables.CompleteDelivery` | packages/automation/src/store.ts:444-457 | a held delivery is settled and history pruned around it |
| `AutomationStore.Tables.FailDelivery` | packages/automation/src/store.ts:459-470 | a held delivery waits for its backoff or is abandoned at the tenth attempt |
| `AutomationStore.Tables.DeferDelivery` | packages/automation/src/store.ts:472-477 | only a running lease defers; the delivery is next due at the time asked for within a second and a week, or at the nearer bound, gets its attempt back, and no other changes |
| `AutomationStore.Tables.EnqueueDelivery` | packages/automation/src/store.ts:433-442 | throws for a blank platform, chat, text or key; otherwise queued once per idempotency key |
| `Outbox.OutboxesBisimilar` | packages/automation/src/store.ts:413-548 | under equal outcomes, lease expiries included, the text and the media row answer every statement alike and stay equivalent |
| `Outbox.BisimilarUnderRenaming` | packages/automation/src/store.ts:413-548 | so they do where each table draws its own claim tokens: under any one-to-one renaming of tokens the media row answers as the text row does |
| `Outbox.FreshRowsAgree` | packages/automation/src/store.ts:413-548 | two rows enqueued together are due at the same later moments, wait for the same retry, and are abandoned together; attempts agree when queued and differ by one while delivering |
| `Outbox.FailureAbandonsAtTenth` | packages/automation/src/store.ts:459-548 | a failure abandons both rows exactly at the tenth charge, and otherwise gives both the same backoff |
| `Outbox.BackoffDoubles` | packages/automation/src/store.ts:464-465 | the backoff starts at half a minute and doubles up to an hour |
| `OutboxTables.DeliveriesFollow` | packages/automation/src/store.ts:413-477 | over any run of the whole store a text delivery goes through exactly the steps the calls are to it |
| `MediaOutbox.RowsFollow` | packages/automation/src/store.ts:500-548 | so does a media row, until it is completed or, once abandoned, pruned |
| `OutboxTables.TablesAgree` | packages/automation/src/store.ts:413-548 | two deliveries, one in each table, with the same history of claims and outcomes up to a one-to-one renaming of claim tokens, are due at the same moments, wait for the same retry and are abandoned together |
| `MediaOutbox.AbandonedAreBounded` | packages/automation/src/store.ts:540-543 | no run keeps more than a thousand abandoned media rows |
| `OutboxRules.DeferDeliveryExactly` | packages/automation/src/store.ts:472-477 | a text delivery held and deferred is next due at the time asked for, if between a second and a week from now, and at the nearer bound otherwise; at no time before |
| `OutboxRules.DeferMediaExactly` | packages/automation/src/store.ts:531-535 | so is a media row |
| `OutboxRules.FailDeliveryExactly` | packages/automation/src/store.ts:459-470 | a failure under a running lease: abandoned from the tenth attempt, and until then delayed by half a minute doubling up to an hour |
| `OutboxRules.FailMediaExactly` | packages/automation/src/store.ts:536-548 | likewise for media, charged by the failure |
| `OutboxRules.CompleteDeliveryExactly` | packages/automation/src/store.ts:444-457 | a success under a running lease settles the delivery and at most forgets settled history; any other report changes nothing |
| `OutboxRules.ClaimWrites` | packages/automation/src/store.ts:413-430 | each delivery claimed is charged and leased under a token of its own; all others stay |
| `OutboxRules.MediaClaimWrites` | packages/automation/src/store.ts:508-526 | each media row claimed is leased under a token of its own, and charged if its last lease ran out |
| `OutboxRules.NewestAbandonedStay` | packages/automation/src/store.ts:540-543 | pruning keeps the abandoned media rows enqueued last |
| `OutboxRules.AbandonedStays` | packages/automation/src/store.ts:540-543 | the failure that abandons a media row does not drop it while fewer than a thousand abandoned were enqueued later |
| `OutboxRows.LeaseShutsOut` | packages/automation/src/store.ts:413-548 | while a lease runs, no call of anybody else changes the row, text or media, over any run |
| `OutboxRows.LostLeaseIsLost` | packages/automation/src/store.ts:444-548 | a holder whose lease was taken over is refused for good |
| `MediaOutbox.MediaTable.EnqueueMedia` | packages/automation/src/store.ts:500-506 | a new queued row, or a throw for a missing field |
| `MediaOutbox.MediaTable.SelectDue` | packages/automation/src/store.ts:512-515 | the selection: due rows, earliest first, up to the clamped limit |
| `MediaOutbox.MediaTable.ClaimMediaDue` | packages/automation/src/store.ts:508-526 | each selected row is leased, and charged if its last lease ran out |
| `MediaOutbox.MediaTable.CompleteMedia` | packages/automation/src/store.ts:528-530 | a held row is deleted |
| `MediaOutbox.MediaTable.DeferMedia` | packages/automation/src/store.ts:531-535 | only a running lease defers; the row is next due at the time asked for within a second and a week, or at the nearer bound, uncharged, and no other changes |
| `MediaOutbox.MediaTable.FailMedia` | packages/automation/src/store.ts:536-548 | a held row is charged, and waits or is abandoned and the abandoned pruned |
| `InstallLock.MutualExclusion` | apps/cli/src/capability-provider-composition.ts:180-253 | under every interleaving of single system calls, reading an owner and testing that its process lives being two, every crash point and every failing call but a misread of an aged lock, from any disk left behind, at most one call is inside the guarded operation, and no claimant is about to unlink its lock |
| `InstallLock.RunsKeepLock` | apps/cli/src/capability-provider-composition.ts:180-253 | the lock invariant: who may still link, claim, inspect, unlink or hold which lock file; over runs without a misread of an aged lock |
| `InstallLock.NextKeepsLock` | apps/cli/src/capability-provider-composition.ts:180-253 | one action of anyone keeps the lock invariant exactly when it is not a misread of an aged lock that names its owner |
| `InstallMisread.MisreadBreaks` | apps/cli/src/capability-provider-composition.ts:198-206 | after such a misread, if the name of an unnamed owner's lock is not claimed yet, eleven working steps of that call make it a holder, whoever else holds the lock |
| `InstallMisread.TwoHold` | apps/cli/src/capability-provider-composition.ts:198-206 | the failing case from an empty disk: one failing read, two holders |
| `InstallLock.GenerationsFallOnce` | apps/cli/src/capability-provider-composition.ts:226-248 | a stale generation is unlinked by at most one claimant ever, and only when its owner is dead and nobody holds it |
| `InstallLock.PruneKeeps` | apps/cli/src/capability-provider-composition.ts:220-224 | a holder's pruning of tombstones reopens no old generation |
| `InstallLock.GoneForever` | apps/cli/src/capability-provider-composition.ts:186-192 | a lock file once off the lock path never returns to it |
| `InstallLock.HoldersAgree` | apps/cli/src/capability-provider-composition.ts:214-218 | two calls that hold the lock are one |
| `InstallProgress.HolderReleases` | apps/cli/src/capability-provider-composition.ts:180-253 | a holder with a result frees the lock with its next two working steps and returns that result |
| `InstallProgress.HoldersFinish` | apps/cli/src/capability-provider-composition.ts:76-132 | whatever fails, each step of a holder brings it nearer its end |
| `InstallProgress.FreesOnlyItsOwn` | apps/cli/src/capability-provider-composition.ts:180-253 | a call unlinks at its end exactly a lock that names it, even where the lock was lost |
| `InstallProgress.UnlinksOnlyWhatItRead` | apps/cli/src/capability-provider-composition.ts:226-248 | a claimed lock is removed exactly when claim, lock and owner are those that were read |
| `InstallProgress.DeadOwnersLockIsTaken` | apps/cli/src/capability-provider-composition.ts:198-248 | a call that finds a dead owner, and its generation unclaimed, holds the lock twelve working steps on |
| `InstallProgress.AloneItInstalls` | apps/cli/src/capability-provider-composition.ts:76-132 | a working call left alone on a free lock returns a receipt of the provider, installing it if it is not there, and leaves the lock free and nothing else behind |
| `InstallProgress.FailedItClearsUp` | apps/cli/src/capability-provider-composition.ts:76-132 | an installation that fails frees the lock and clears its tree and journal away, or, if aborted, leaves them marked for the next call |
| `InstallStuck.StuckForever` | apps/cli/src/capability-provider-composition.ts:226-248 | once a dead owner's lock is claimed and nobody is at work on the claim, it stays, and nothing is published, in all runs that read owners well |
| `InstallStuck.ClaimantDies` | apps/cli/src/capability-provider-composition.ts:226-248 | it comes to that when the claimant's process dies |
| `InstallPublication.OnlyRenamePublishes` | apps/cli/src/capability-provider-composition.ts:116-118 | `current` appears only by the lock holder's rename of a staging tree whose manifest is written, where nothing was published |
| `InstallPublication.PublishedOnce` | apps/cli/src/capability-provider-composition.ts:76-132 | a publication is never replaced, removed or changed, in any run, even where the lock is lost |
| `InstallPublication.RunsKeepPublication` | apps/cli/src/capability-provider-composition.ts:76-132 | over runs without a misread of an aged lock, an installer at work has its tree, with the manifest it has written, and nothing is published before its rename |
| `InstallPublication.TreesAreSafe` | apps/cli/src/capability-provider-composition.ts:255-271 | no reconciliation or other step removes or rewrites the staging tree of an installer at work |
| `InstallPublication.ReceiptsAgree` | apps/cli/src/capability-provider-composition.ts:80-120 | every receipt returned over a whole run, early or late, is the one for what is published, even where the lock is lost |
| `ChannelMigration.ApplyKeepsRecoverable` | apps/cli/src/channel-instance-migration.ts:75-114 | for any fate of any durable write, apply leaves a manifest with its matching backup exactly when it does not misjudge the manifest write |
| `ChannelMigration.RollbackKeepsRecoverable` | apps/cli/src/channel-instance-migration.ts:116-173 | rollback, wherever it stops, keeps the before-backup, and the after-snapshot once it is prepared |
| `ChannelMigration.RunsKeepRecoverable` | apps/cli/src/channel-instance-migration.ts:75-173 | so do all sequences of operations, crashes, errors and foreign writes, but for that one error |
| `ChannelMigration.MisjudgedWitness` | apps/cli/src/channel-instance-migration.ts:272-283 | the failing case: an error after the manifest's rename leaves a prepared manifest without backup |
| `ChannelMigration.MisjudgedForever` | apps/cli/src/channel-instance-migration.ts:106-109 | every later operation under the migration id so left is refused and changes nothing |
| `ChannelMigration.AnotherIdApplies` | apps/cli/src/channel-instance-migration.ts:77-114 | an apply under another id on that profile goes through, and can be undone |
| `ChannelMigration.TerminalForever` | apps/cli/src/channel-instance-migration.ts:122-124 | terminal statuses are absorbing |
| `ChannelMigration.RollbackCompletesExactly` | apps/cli/src/channel-instance-migration.ts:116-173 | an undisturbed rollback completes exactly when the backup is that of its manifest, and the database is the migrated one, or the original under an unfinished manifest; what it leaves, statuses included; otherwise it changes nothing |
| `ChannelMigration.RollbackLeaves` | apps/cli/src/channel-instance-migration.ts:116-173 | a rollback stopped anywhere has made its writes in order, each whole or not at all |
| `ChannelMigration.ApplyCompletesExactly` | apps/cli/src/channel-instance-migration.ts:75-114 | an undisturbed apply completes exactly when backup, manifest and audit row of its id are absent; what it leaves; otherwise it changes nothing |
| `ChannelMigration.ApplyLeaves` | apps/cli/src/channel-instance-migration.ts:75-114 | an apply stopped anywhere has made its writes in order, and leaves nothing if it throws before its manifest |
| `ChannelMigration.CrashRecovery` | apps/cli/src/channel-instance-migration.ts:75-173 | after any interrupted apply and any number of interrupted rollbacks, one undisturbed rollback restores the original database under a terminal manifest |
| `MigrationSteps.NextKeepsExactly` | apps/cli/src/channel-instance-migration.ts:75-173 | each step, crash or foreign write keeps the files recoverable exactly when it is not the handler removing the backup of a written manifest |
| `MigrationSteps.StepsKeepRecoverable` | apps/cli/src/channel-instance-migration.ts:75-173 | over all runs of steps, crashes, errors and foreign writes, the files stay recoverable exactly when no manifest write fails behind its rename with the handler's removal happening next |
| `MigrationSteps.CrashesNeverGoWrong` | apps/cli/src/channel-instance-migration.ts:75-173 | crashes anywhere and all other errors never lead there |
| `MigrationSteps.WritesOnlyBetweenPreAndPost` | packages/memory/src/channel-instance-migration.ts:126-179 | with writers between any two unfenced steps, only two steps of the migration change the database: its commit, from exactly the contents backed up, and its restore, from exactly the migrated contents, saved beforehand, back to those before |
| `MigrationSteps.RestoresOnlyFromPost` | apps/cli/src/channel-instance-migration.ts:141-165 | over all runs from an untouched profile, whatever went wrong in them: a database changed since the migration is never written |
| `MigrationSteps.ChecksAreMade` | apps/cli/src/channel-instance-migration.ts:116-171 | each check of a rollback is made on what is there at that step, whatever others have written since |
| `MigrationSteps.TerminalExactly` | apps/cli/src/channel-instance-migration.ts:131-171 | a terminal manifest is written over the original database exactly when nobody has written since the deciding check or restore, or the last to do so wrote that very state |
| `MigrationSteps.TerminalOverForeignWrite` | apps/cli/src/channel-instance-migration.ts:130-134 | the failing case from an untouched profile: a crash behind the prepared manifest, and a write between the rollback's digest check and its aborted manifest |
| `MigrationSteps.TerminalOnlyAtPre` | apps/cli/src/channel-instance-migration.ts:131-171 | over all runs in which no other program writes while a decision stands, every terminal manifest is written over the original database |
| `MigrationSteps.TerminalForever` | apps/cli/src/channel-instance-migration.ts:122-124 | terminal statuses are absorbing, whoever writes what and wherever processes die |
| `MigrationSteps.ApplyIsItsSteps` | apps/cli/src/channel-instance-migration.ts:75-114 | the steps of apply with nobody in between have the effect of the whole operation, for every fate of every write |
| `MigrationSteps.RollbackIsItsSteps` | apps/cli/src/channel-instance-migration.ts:116-173 | likewise the steps of rollback |
| `MigrationSteps.RecoveryExactly` | apps/cli/src/channel-instance-migration.ts:116-173 | after any run with crashes, errors and writers, one undisturbed rollback completes exactly when the backup is there and the database is the migrated one, or the original under a manifest not yet applied, and otherwise changes nothing |
| `MigrationDirectory.Directory.Apply` | apps/cli/src/channel-instance-migration.ts:75-114 | the durable writes in order with their handler have exactly the modelled effect; completed, the database is the migrated one under an applied manifest |
| `MigrationDirectory.Directory.Rollback` | apps/cli/src/channel-instance-migration.ts:116-173 | likewise for rollback, the after-snapshot created or reused; completed, the database is the original one under a terminal manifest |
| `InboundText.MergedIsJoined` | packages/channel-feishu/src/adapter.ts:1259-1261 | folding the merge over a group gives its non-empty texts joined by line feeds |
| `InboundText.MergedTextAppends` | packages/channel-feishu/src/adapter.ts:1259-1261 | it does not matter in how many steps a group is merged |
| `InboundText.FoldedExactly` | packages/channel-feishu/src/adapter.ts:1278-1290 | the message a group becomes, field by field: non-empty texts one to a line, source, time and raw event of the last, reply and kind of the first |
| `InboundText.PlainTextExactly` | packages/channel-feishu/src/adapter.ts:445-445 | plain text is text whose first character that is not white space is no slash |
| `InboundBatches.BatchingRefines` | packages/channel-feishu/src/adapter.ts:570-610 | for any arrivals and timers, the merged batches of all sessions are exactly the groups of a list-based reference |
| `InboundBatches.GroupingConserves` | packages/channel-feishu/src/adapter.ts:570-604 | a session's closed groups and its pending one are its arrivals in order; each is of one thread and reply, and within both limits unless single |
| `InboundBatches.WaitersConserved` | packages/channel-feishu/src/adapter.ts:580-667 | every arrival's waiter is pending or in the one delivery that carries its message, in order |
| `InboundBatches.DeliveriesAreGroups` | packages/channel-feishu/src/adapter.ts:570-667 | each delivery is, field by field, the one message that the next stretch of arrivals becomes, with the waiters of all of them; the stretch is of one session, thread and reply and within the limits unless single |
| `InboundBatches.TextBatches.EnqueueTextBatch` | packages/channel-feishu/src/adapter.ts:570-604 | an arrival joins the batch of its session exactly when thread and reply are the same and both limits allow it, and each field of the joined batch; otherwise that batch is admitted and the arrival starts the next; no other session changes |
| `InboundBatches.TextBatches.FlushTextBatch` | packages/channel-feishu/src/adapter.ts:656-667 | a flush admits the batch once; without one it does nothing |
| `DeliveryChain.HandlersNeverOverlap` | packages/channel-feishu/src/adapter.ts:687-701 | a started handler found all earlier deliveries of its key settled, well or not: one key's handlers neither overlap nor reorder |
| `DeliveryChain.NeverStuck` | packages/channel-feishu/src/adapter.ts:687-701 | the first unsettled delivery of a key always runs or may start, whatever failed before it, and it alone |
| `DeliveryChain.RunsKeep` | packages/channel-feishu/src/adapter.ts:687-701 | each delivery is linked to the last one of its key before it, and each tail is the last of its key |
| `DeliveryChain.FinishedKeysAreDropped` | packages/channel-feishu/src/adapter.ts:696-700 | the map of tails keeps no key all of whose callers have gone on |
| `DeliveryChain.SettledAsItsHandler` | packages/channel-feishu/src/adapter.ts:687-701 | a delivery has settled well, or not, exactly if its own handler did |
| `InboundDelivery.BatchesRunInOrder` | packages/channel-feishu/src/adapter.ts:656-701 | batching, replay and delivery together: each flushed batch is carried by a delivery of its own, and of two batches of a session the handler of the later starts only once that of the earlier has settled |
| `InboundDelivery.BatchesAreNeverStuck` | packages/channel-feishu/src/adapter.ts:656-701 | as long as a batch is unhandled, the first unsettled delivery of its session runs or may start |
| `InboundDelivery.ReplaysRunOneByOne` | packages/channel-feishu/src/adapter.ts:478-510 | each replayed group is carried by a delivery of its own, and by the time a later group, of whatever session, is handed on, the earlier has settled |
| `InboundDelivery.ReplayIsNeverStuck` | packages/channel-feishu/src/adapter.ts:478-510 | while the replay waits, its session's first unsettled delivery runs or may start; its own settled, the caller may go on; and then the group is resolved or rejected as its handler went |
| `InboundReplay.RunsAreCounted` | packages/channel-feishu/src/adapter.ts:460-533 | queued plus in flight never exceeds a thousand, and the counter is the size of the group in flight |
| `InboundReplay.LeavesInOrder` | packages/channel-feishu/src/adapter.ts:460-564 | what has left the queue and what waits are what it took in, in order |
| `InboundReplay.SettledExactlyOnce` | packages/channel-feishu/src/adapter.ts:460-564 | every message offered is settled, in flight or waiting, exactly as often as it was offered |
| `InboundReplay.GroupIsMaximal` | packages/channel-feishu/src/adapter.ts:512-533 | a replay group is the longest head of the queue one delivery may carry; anything but plain text goes alone |
| `InboundReplay.ReachExtends` | packages/channel-feishu/src/adapter.ts:520-531 | the running character count is the length of the merged text |
| `InboundReplay.DeliveriesAreGroups` | packages/channel-feishu/src/adapter.ts:485-533 | delivery i is, field by field, the one message that the i-th group handed on becomes; the groups taken, with what was dropped or cancelled between them, are the messages the queue took in, cut into consecutive stretches in order; each group is the longest head of its queue that one delivery may carry |
| `InboundReplay.SettledAsHandled` | packages/channel-feishu/src/adapter.ts:485-510 | the messages handed on resolve or are rejected as their handler ended, in the order taken, and nothing else is settled either way |
| `InboundReplay.CancellingSweeps` | packages/channel-feishu/src/adapter.ts:559-564 | cancelling settles every waiting message as cancelled, forgets its id, and touches nothing in flight |
| `InboundReplay.GroupsAreHeads` | packages/channel-feishu/src/adapter.ts:512-533 | what waited behind a group when it was taken left the queue after it or still waits, in that order: the groups are heads of the queue at their moment |
| `InboundReplay.DrainedMeansSettled` | packages/channel-feishu/src/adapter.ts:460-564 | once nothing waits or is in flight, exactly the messages offered have been settled |
| `InboundReplay.NothingIsRefused` | packages/channel-feishu/src/adapter.ts:462-471 | with a group limit below a thousand a new message always finds room, the oldest waiting one giving way |
| `InboundReplay.RefusedExactly` | packages/channel-feishu/src/adapter.ts:462-471 | a new message is refused exactly when a thousand are in flight |
| `InboundReplay.ForgetsTheUndelivered` | packages/channel-feishu/src/adapter.ts:460-568 | exactly the messages never handed to a handler are forgotten by the duplicate check |
| `InboundReplayQueue.ReplayQueue.QueuePendingInbound` | packages/channel-feishu/src/adapter.ts:460-476 | effect of offering a message: queued, the oldest dropped, or refused |
| `InboundReplayQueue.ReplayQueue.TakeReplayGroup` | packages/channel-feishu/src/adapter.ts:512-533 | the loop takes exactly the maximal group, counting each entry |
| `InboundReplayQueue.ReplayQueue.Proceed` | packages/channel-feishu/src/adapter.ts:485-495 | behind the await the group is delivered, or given up and forgotten |
| `InboundReplayQueue.ReplayQueue.Finish` | packages/channel-feishu/src/adapter.ts:494-501 | all of a group is resolved or all of it rejected, and the counter goes back |
| `InboundReplayQueue.ReplayQueue.CancelPendingInbound` | packages/channel-feishu/src/adapter.ts:559-564 | what waits is cancelled and forgotten; what is in flight is not touched |
| `InboundDedup.Dedup.PurgeDedup` | packages/channel-feishu/src/adapter.ts:879-884 | stopping at the first fresh entry removes exactly the expired ones |
| `InboundDedup.Dedup.IsDuplicate` | packages/channel-feishu/src/adapter.ts:870-877 | answer and new map, ordered by time and never above the bound |
| `InboundDedup.FreshSuffix` | packages/channel-feishu/src/adapter.ts:879-884 | in an ordered map the fresh entries are a suffix |
| `InboundDedup.MapIsHistory` | packages/channel-feishu/src/adapter.ts:566-884 | the map holds exactly the ids accepted, not expired, and since neither forgotten nor pushed out |
| `InboundDedup.DuplicateExactly` | packages/channel-feishu/src/adapter.ts:870-877 | a message is a duplicate exactly when its id was accepted within the time to live and has since been neither forgotten nor evicted |
| `EnvFile.RoundTrip` | apps/cli/src/env-file.ts:23-50 | reading undoes writing, for any values and any keys of the pattern, exactly when `__proto__` is no key |
| `EnvFile.ProtoIsLost` | apps/cli/src/env-file.ts:24-40 | the failing case |
| `EnvFile.ReadingAdds` | apps/cli/src/env-file.ts:23-50 | reading a rendering adds every assignment but that one |
| `EnvFile.JsonRoundTrip` | apps/cli/src/env-file.ts:34-49 | a JSON string, surrogates and control characters included, is read back as written (section 7 of RFC 8259) |
| `EnvFile.LineRoundTrip` | apps/cli/src/env-file.ts:26-49 | a rendered line is one line and parses to its key and value |
| `EnvReading.ParseEnv` | apps/cli/src/env-file.ts:23-45 | the loop over the lines: a key has a value exactly when some line assigns it and it is not `__proto__`, and then that of the last line that does |
| `EnvReading.ReadsExactly` | apps/cli/src/env-file.ts:23-45 | the same of any file, lines and assignments defined without the reader |
| `EnvReading.LineReadsExactly` | apps/cli/src/env-file.ts:26-43 | a line reads as an assignment exactly when it is a key of the pattern, an equals sign and an encoded value, each between white space; in terms of what JSON strings spell and apostrophes enclose |
| `EnvReading.BlanksDoNotMatter` | apps/cli/src/env-file.ts:26-32 | white space around key, equals sign and value makes no difference |
| `EnvReading.JsonReadsExactly` | apps/cli/src/env-file.ts:33-38 | quoted values are read exactly as the JSON strings of section 7 of RFC 8259 spell them |
| `EnvReading.LinesExactly` | apps/cli/src/env-file.ts:25-25 | the lines are those between line feeds, each alone or behind one carriage return |
| `EnvReading.PlainIsWrittenPlain` | apps/cli/src/env-file.ts:47-49 | what needs no escape is written as it is, between quotes |
| `EnvReading.WrittenLines` | apps/cli/src/env-file.ts:47-50 | a rendering is a line for each key in the order given, and a line feed behind each; one alone for no keys |
| `Wrappers.TrimmedExactly` | apps/cli/src/env-file.ts:26-32 | the trimming of a text is the one part of it that neither starts nor ends with white space and has nothing but white space around it |
| `EnvFile.RewritingKeepsMeaning` | apps/cli/src/env-file.ts:23-50 | rewriting any file, comments and malformed lines included, never changes what it means |
| `EnvFile.RenderInjective` | apps/cli/src/env-file.ts:47-50 | different maps are written differently |
| `EnvFile.LiteralsRead` | apps/cli/src/env-file.ts:33-43 | a bare value stands for itself, one in single quotes for what they enclose |
| `EnvFile.LineEndsDoNotMatter` | apps/cli/src/env-file.ts:25-25 | carriage returns before line feeds do not change the lines |
| `EnvFile.LaterCounts` | apps/cli/src/env-file.ts:25-43 | of two assignments of one key the later one counts |
| `VerifierRecord.Recorder.OnEvent` | apps/cli/src/gateway.ts:1090-1102 | effect of a tool event on arguments, attempts, receipts and submissions |
| `VerifierRecord.RecordsAreTraced` | apps/cli/src/gateway.ts:1090-1102 | every receipt is of a call that ended well with a material result of an evidence tool, with the arguments it was started with; every submission is what a successful submission call was started with |
| `VerifierRecord.RecordsAreComplete` | apps/cli/src/gateway.ts:1090-1102 | every started and every successful submission is counted, and each call that ended well with evidence has the receipt of its last such end |
| `VerifierRecord.EvidenceExactly` | apps/cli/src/verification-protocol.ts:17-53 | what counts as evidence: no bookkeeping tool, no skill, and a result with some text in words, some data or some detail |
| `VerifierRecord.PutKeeps` | apps/cli/src/gateway.ts:1101-1101 | receipts stay unique by call |
| `Verdict.VerdictIsSound` | apps/cli/src/gateway.ts:1149-1195 | whenever a verdict is given, assertions and criteria correspond one to one, every reference is that of a recorded receipt, accepted means all accepted, rejected means at least one rejected, and none is unavailable |
| `Verdict.EvidenceHappened` | apps/cli/src/gateway.ts:1090-1195 | over a whole run, the verdict was really submitted and every reference it keeps was really earned |
| `Verdict.FitsIsOneToOne` | apps/cli/src/gateway.ts:1169-1170 | covering every criterion with as many assertions as criteria is a one-to-one correspondence, and conversely |
| `Verdict.Pigeonhole` | apps/cli/src/gateway.ts:1169-1170 | a sequence has as many elements as places exactly when none repeats |
| `VerdictRules.AcceptedExactly` | apps/cli/src/gateway.ts:1149-1195 | a run is accepted exactly when it submitted one verdict, accepted and with a reason in words, whose acceptable items are about the criteria one to one and all accepted; and consistency, visible pairs, the exact count, a current source cited and all urls fetched were observed as far as asked for |
| `VerdictRules.RejectedExactly` | apps/cli/src/gateway.ts:1149-1195 | likewise for a rejection: at least one item rejects, none is unavailable, sources cited and fetched as asked for |
| `VerdictRules.BoundExactly` | apps/cli/src/gateway.ts:1160-1168 | an item counts exactly when its status is known, its evidence in words and every reference of it refers to a receipt; and for which assertion |
| `VerdictRules.VerdictSaysWhatWasSubmitted` | apps/cli/src/gateway.ts:1187-1194 | a verdict carries one verification for each acceptable item, in the order submitted, with its criterion's text and its receipts' references |
| `VerdictRules.FeedbackIsTheReason` | apps/cli/src/gateway.ts:1153-1194 | the feedback of a rejection is the submitted reason, trimmed and cut at five thousand characters |
| `Verdict.AcceptedByAssertions` | apps/cli/src/gateway.ts:1149-1195 | acceptance in terms of the assertions that count, every demand spelled out |
| `Verdict.RejectedByAssertions` | apps/cli/src/gateway.ts:1149-1195 | rejection likewise |
| `Verdict.NormalizedExactly` | apps/cli/src/verification-protocol.ts:31-37 | an exact receipt id stands for itself, anything else for every receipt of the tool it names; what comes out always resolves |
| `Verdict.AssertionsAreBound` | apps/cli/src/gateway.ts:1160-1168 | an assertion that counts has a known status, evidence, and references that all resolve |
| `Verdict.CriteriaAreDistinct` | packages/core/src/task-criteria.ts:7-10 | criterion ids never repeat |
| `Verdict.CriteriaAreNumbered` | packages/core/src/task-criteria.ts:7-10 | the first fifty criteria in order, numbered from C1, each cut at two thousand characters, or the one by default |
| `TerminalMarkdown.StreamingIsRendering` | apps/cli/src/terminal-markdown.ts:2-34 | for every way of cutting a text, the stream shows the rendering of the whole exactly when its last line is not empty or renders empty |
| `TerminalMarkdown.StreamingRefinesRendering` | apps/cli/src/terminal-markdown.ts:2-34 | so with the program's renderer, always |
| `TerminalMarkdown.CutsDoNotMatter` | apps/cli/src/terminal-markdown.ts:24-33 | no single output depends on how the text was cut |
| `TerminalMarkdown.SplitExtends` | apps/cli/src/terminal-markdown.ts:24-29 | more text completes lines behind those complete already and continues only the last |
| `TerminalMarkdown.SplitJoins` | apps/cli/src/terminal-markdown.ts:2-4 | splitting loses nothing |
| `TerminalMarkdown.JoinSplits` | apps/cli/src/terminal-markdown.ts:2-4 | the lines are the only way to cut a text at its line feeds |
| `TerminalMarkdown.StreamingTerminalMarkdown.Write` | apps/cli/src/terminal-markdown.ts:24-29 | every completed line is shown once, and the rest stays pending |
| `TerminalMarkdown.StreamingTerminalMarkdown.Finish` | apps/cli/src/terminal-markdown.ts:30-33 | what is pending is shown, and nothing stays behind |

## Left out

- SQL text, schema migration, the `automation_runs` table, routes, heartbeat, counters and all reads of the store.
- Titles of schedules; cron, date and duration parsing. A calendar may fail, and the call then throws. The lengths of
  names and texts count characters.
- Owner, path and MIME type of media rows. That the two outboxes pick the same rows for a batch cut off by its limit is
  not claimed: a leased text row keeps its old retry time while a media row takes its lease's end, so expired rows may be
  ordered differently.
- Fairness of the install lock: that a call gets the lock is proved of calls left alone, not of calls competing for it. The
  lock wait deadline and the polling are a free choice of the environment, as is the age of an unreadable lock file.
- Building a provider (npm, checksums, artifact layout) is one step that works or fails; ownership and symbolic-link
  checks are not modelled.
- The migration's path, ownership and parse checks, its temporary files and the profile lock; the database migration and
  its reversal are atomic commits with exact digests.
- Media batches and media replay, whose grouping awaits file sizes between looking and taking, and any order between
  batched text and slash commands or media. Messages in the replay queue carry no media.
- Cancelling batches on disconnect; the timers of batching may fire at any time, so their delays do not matter.
- Promise jobs are steps of a transition system in any order; the handlers themselves, cards, webhooks, reconnects, group
  admission and pairing are not part of the model.
- The order in which `.env` keys are written is any order; file modes and missing files are not modelled.
- Artifact and URL evidence of the verifier (consistency, visible pairs, counts, fetched URLs) enters as what was demanded
  and what was observed; the early returns before the first verdict check and the correction turn are left out.
- Texts of criteria are taken as already split into trimmed lines; error messages and the serialized evidence are not
  modelled.
- The line renderer is a parameter: its regular expressions are not modelled.
