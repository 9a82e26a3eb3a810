# Verified model of the Shelfy bot's core

Shelfy is a Telegram bot that turns text and voice messages into food products with expiry dates. This project models, in Dafny 4.11, the parts of it that hold real invariants, and proves them. `dafny verify dfyconfig.toml` checks everything.

**The mailbox dispatcher** (`Dispatcher`, `DispatcherSafety`, `DispatcherGuarantees`, `DispatcherAnswers`, `DispatcherProgress`, `DispatcherDraining`, `DispatcherScenarios`) is a concurrent protocol: one goroutine per key, a bounded channel, two kinds of lock, idle eviction, shutdown and a wait group. It is a step relation with a program counter for every caller of Submit and Shutdown and for every worker. The main results: jobs of a key run one at a time and in acceptance order over all generations of its mailbox; accepted = answered with nil = finished + running + buffered; a drained Shutdown has run everything; no run panics; and the waits of a busy agent lead to one that can step exactly if they do not lead into the one circular wait; and a closed dispatcher can finish every accepted job by its own steps, within a stated bound, exactly if no Submit is stuck that way.

**The draft lifecycle** (`DraftStore`, `DraftLifecycle`, `DraftSafety`, `DraftGuarantees`, `DraftCleaning`, `DraftRefinement`, `DraftScenarios`) is one table written by the bot, the background cleaner, the stale-draft sweep and ingestion, each with a different guard. `DraftStore.Store` is the table with its statements and the confirmation transaction; the step relation interleaves the reads and writes of all processes. The main results: products of a draft never exceed 1 + re-runs of its ingest job; every product is a copy of the locked row; what the bot closed stays closed; and the exact conditions under which a closed draft is reopened or marked failed and under which the cleaner can undo an edit. `DraftRefinement` shows that the store's handlers, undisturbed, are runs of the step relation.

**The job queue** (`JobTable`, `JobQueue`, `JobDrain`, `JobRefinement`, `Digests`): claims, retries and idempotency keys under any number of workers, a conservation law and a termination measure for all claims, the draining loop among other workers, and one digest per user and local date.

**The cleaner's acceptance rule, names and distances** (`Cleaner`, `Alignment`, `DraftNames`, `DraftNameLaws`, `DraftNameResults`, `DraftNameLoops`, `EditDistance`, `WordCorrection`, `VoiceTokens`, `Text`): the rule accepts exactly the improvements, and these descend in a well-founded order; three Levenshtein loops refine one metric; the greedy word matching decides the existence of any alignment; a normalised name is determined word by word from the stripped one.

**Dates, sound and buttons** (`Calendar`, `Wav`, `Callbacks`, `Decimal`): civil-date arithmetic, the RIFF/WAVE chunk reader (chunk layout as in chapter 2, "Resource Interchange File Format", of the IBM/Microsoft Multimedia Programming Interface and Data Specifications 1.0), and the callback-data round trips between the printers and the handlers.

## Where the code falls short of what one might expect

Each point names the theorem that states it.

- The circular wait of Submit and eviction is reachable for every buffer size and lasts until the blocked caller's context ends (`CircleIsReachable`, `CircleSurvivesRun`). Until then a Shutdown does not return either, even when its own context has ended, for it waits for that mailbox's lock (`DoomBlocksShutdown`, `AShutdownIsHeldUp`).
- `failDraftTransition` (internal/bot/draft_state.go:58-63) forbids failing a closed draft, but nothing calls it: the sweep's write can mark a confirmed draft failed (`ASweepFailsAConfirmedDraft`), exactly as long as some sweep has it on its list (`SweepMarksExactlyListed`), and an edit under way can undo the sweep (`AnEditRevivesAFailedDraft`). That is the only way back short of a re-run (`OnlyAnEditUnderWayReopens`).
- A cleaner can leave a draft incomplete that the user has completed since it was read (`TheCleanerUndoesAnEdit`), exactly if the draft had no date when the cleaner read it (`CleanerUndoesExactlyUndated`). It can also put another date or name over the one that the user has entered since (`EditedDateIsLost`, `EditedNameIsLost`).
- docs/internal/voice-cleaner-tuning.md:8 promises that only strictly better candidates are taken. They are strictly lower in the order of `AcceptedCandidateImproves`; that order puts the date before the name, so a candidate may drop the name to gain a date (`NameIsDroppedExactlyForADate`).
- A date without a year is wrong exactly for 29 February when this year has none or has passed it (`ResolveWithoutYear`).
- A status with a colon would not survive its callback (`SetRoundTrip`); the statuses in use have none.
- A second Shutdown returns nil at once although accepted jobs have not run (`ASecondShutdownDoesNotWait`); a nil return says that everything has run exactly if the call found the dispatcher open or no mailbox owes a job (`ShutdownOfOpen`, `ShutdownOfClosed`).

## Hypotheses

- A draft's callbacks come from its own user, as cards are sent to private chats; updates of one user are handled one at a time (cmd/telegram-api/main.go:197-208 gives the dispatcher key). `DraftLifecycle.Enabled` states this.
- Jobs are enqueued with a key only by the digest tick, the stale-draft sweep and the cleaner's enqueue, as in the code; `Digests.IsFaithful` states this.
- Submitted job functions return. Each SQL statement and transaction is atomic.
- The word tables are parameters. `Cleaner.Lexicon.Valid` and `DraftNames.Words.Valid` say what is asked of them: folding is idempotent and keeps spaces spaces, the tables hold folded text, no product phrase is empty, and cut phrases begin with a blank. The tables in internal/ingest/normalization_rules.go are of this form.

## Model

| member | source | states |
|---|---|---|
| `DispatcherGuarantees.JobsRunInAcceptanceOrder` | internal/dispatcher/dispatcher.go:47-175 | In every run, with any number of callers, evictions and shutdowns: per key, accepted jobs = finished jobs, then the one running, then those buffered, over all generations of the mailbox; at most one runs, and they start in acceptance order. So none is lost, doubled or overtaken. |
| `DispatcherAnswers.EverySubmitAnswersRightly` | internal/dispatcher/dispatcher.go:47-70 | In every reachable state, a step of a caller inside Submit answers nil if and only if it hands over this very job (the accepted jobs of its key grow by it, nothing else changes there), ErrDispatcherClosed if and only if its lookup found the dispatcher closed, and the context's error if and only if its own context ended. Any step that does not answer nil leaves the accepted jobs and what every mailbox owes as they were. |
| `DispatcherAnswers.AcceptedIsAnswered` | internal/dispatcher/dispatcher.go:47-161 | In every run, per key, the accepted jobs are exactly the jobs whose Submit answered nil, in the order of the answers; what has run, followed by what runs, is a beginning of these. |
| `DispatcherAnswers.BufferIsAsMade` | internal/dispatcher/dispatcher.go:30-45 | A mailbox buffers at most as many jobs as the dispatcher was made for, at least one; a Submit in its select waits exactly while that many are buffered. |
| `DispatcherGuarantees.OldGenerationIsSilent` | internal/dispatcher/dispatcher.go:109-175 | Of two mailboxes a key has had, the older one's worker, which may still be on its way out, runs no job, can receive none, and no Submit is about to send to it. |
| `DispatcherScenarios.TwoWorkersCoexist` | internal/dispatcher/dispatcher.go:125-174 | For every buffer size and key, a run in which the old worker has let go of its locks but not left the wait group while the new worker is in its loop; the wait group counts both. |
| `DispatcherGuarantees.NoRunPanics` | internal/dispatcher/dispatcher.go:61-174 | No run sends on a closed channel or closes one twice, and the eviction branch at lines 168-170 is never reached. |
| `DispatcherGuarantees.RetryNeverGetsClosedMailbox` | internal/dispatcher/dispatcher.go:51-60 | After any continuation, a lookup never hands out a mailbox that was once seen closed, and hands out an open one. |
| `DispatcherGuarantees.WaitingShutdownFreezesAcceptance` | internal/dispatcher/dispatcher.go:86-106 | Once a Shutdown waits for the wait group, the accepted jobs stay as they are and the wait group never rises, whatever happens next. |
| `DispatcherGuarantees.DrainedShutdownRanEverything` | internal/dispatcher/dispatcher.go:95-106 | A Shutdown that returns through `done` leaves every job ever accepted finished, there and after any continuation. |
| `DispatcherGuarantees.ShutdownOfOpen` | internal/dispatcher/dispatcher.go:72-106 | A Shutdown that finds the dispatcher open returns nil, if it does, only with everything accepted run. |
| `DispatcherGuarantees.ShutdownOfClosed` | internal/dispatcher/dispatcher.go:73-77 | One that finds it closed returns nil at once, and everything has run there if and only if no mailbox owes a job. |
| `DispatcherScenarios.ASecondShutdownDoesNotWait` | internal/dispatcher/dispatcher.go:73-77 | For every buffer size and key, a run in which a second Shutdown returns nil with an accepted job not started. |
| `DispatcherGuarantees.ClosedRun` | internal/dispatcher/dispatcher.go:72-94 | A closed dispatcher stays closed, creates no mailbox, and once all mailboxes are closed accepts nothing more. |
| `DispatcherSafety.ReachableInv` | internal/dispatcher/dispatcher.go:15-175 | Every reachable state keeps the structure (locks and program counters agree, an open mailbox of an open dispatcher is the registered one, a registered one is open, a superseded one owes nothing, the wait group counts the live workers) and the conservation law. |
| `DispatcherSafety.StepKeepsStructure` | internal/dispatcher/dispatcher.go:47-175 | Each of the 24 kinds of step keeps that structure. |
| `DispatcherSafety.StepConserves` | internal/dispatcher/dispatcher.go:47-175 | Each step keeps accepted = finished followed by owed, per key. |
| `DispatcherSafety.StepIsLocal` | internal/dispatcher/dispatcher.go:47-175 | Every step other than creating a mailbox and closing the registry changes one caller and one mailbox only, and every lock moves to or from that pair. |
| `DispatcherProgress.OnlyTheFullMailboxDeadlocks` | internal/dispatcher/dispatcher.go:56-161 | In every reachable state, following who waits for whom from a busy agent reaches one that can step within three links if and only if it does not run into the circular wait of a Submit blocked on a full channel and that mailbox's worker wanting the lock. |
| `DispatcherProgress.WaitingShutdownProgresses` | internal/dispatcher/dispatcher.go:95-106 | The waits of a Shutdown in its final wait always lead to an agent that can step. |
| `DispatcherProgress.CircleIsReachable` | internal/dispatcher/dispatcher.go:56-67 | For every buffer size some run ends in the circular wait. |
| `DispatcherProgress.CircleSurvivesRun` | internal/dispatcher/dispatcher.go:61-67 | Only the end of the blocked Submit's own context ends the circular wait. |
| `DispatcherDraining.ClosedRunsEnd` | internal/dispatcher/dispatcher.go:72-175 | Under every schedule, a run of a closed dispatcher has at most as many steps as a measure on owed jobs and program counters says, plus five for each new call, expired timer or ended context. |
| `DispatcherDraining.StepLowersEffort` | internal/dispatcher/dispatcher.go:47-175 | Each step of the dispatcher's own lowers that measure in a closed dispatcher; a step from outside raises it by at most four. |
| `DispatcherDraining.DrainsExactlyUndoomed` | internal/dispatcher/dispatcher.go:47-175 | From every reachable closed state, the dispatcher's own steps can finish every accepted job, within that measure and with every Shutdown on its way returning through `done`, if and only if no Submit holds a full mailbox whose worker wants its lock. |
| `DispatcherDraining.WaitingShutdownDrains` | internal/dispatcher/dispatcher.go:95-106 | Once a Shutdown waits for the wait group, every schedule is bounded, and where no agent can step any more the Shutdown has returned through `done` with every accepted job run, unless its own context ended first. |
| `DispatcherDraining.DoomBlocksShutdown` | internal/dispatcher/dispatcher.go:61-93 | While such a Submit's context lives, a closing Shutdown neither reaches its final select nor returns, whatever else happens. |
| `DispatcherScenarios.AShutdownIsHeldUp` | internal/dispatcher/dispatcher.go:61-93 | For every buffer size and key, a run that brings a Shutdown into that situation. |
| `DraftGuarantees.AtMostOneProduct` | internal/storage/postgres/products.go:107-178 | In every interleaving of the bot, the cleaner, the sweeps and ingestion, a draft yields at most one product more than its ingest job was run again (so at most one without re-runs); a confirmed draft refers to an existing product made from it. |
| `DraftGuarantees.ProductCopiesItsLockedRow` | internal/storage/postgres/products.go:141-167 | Every product of every run was made at one step of it, active, from a draft that was ready or in editing right before; its owner, name, expiry date, phrase and source equal that row's columns then, and for ever after. |
| `DraftGuarantees.ConfirmedDraftGivesItsProduct` | internal/storage/postgres/products.go:123-140 | In every run, the transaction answers a confirmed draft with the product it refers to; the two error cases of a missing reference do not occur. |
| `DraftGuarantees.ConfirmingAgainLater` | internal/storage/postgres/products.go:123-144 | However much later: without a re-run, confirming a draft that was settled as confirmed writes nothing and gives the same product with the same data, or the refusal of a failed draft once a sweep has marked it. |
| `DraftGuarantees.ClosedStaysClosed` | internal/bot/draft_state.go:39-56 | Once the bot has confirmed, canceled or deleted a draft, its status stays that or becomes failed, and its edit prompt stays cleared, through every later step, as long as its ingest job is not run again. |
| `DraftGuarantees.SettledForEver` | internal/bot/callback_feedback.go:39-46 | Without a re-run, a closed draft with no bot write on its way never changes again save for the mark of a sweep that has it on its list, and yields no further product. |
| `DraftGuarantees.SweepMarksExactlyListed` | internal/scheduler/maintenance.go:142-162 | A draft that the bot closed can still be marked failed if and only if some sweep has it on its list; otherwise every continuation without a re-run leaves its row as it is. |
| `DraftGuarantees.ClosingSettles` | internal/bot/callbacks_draft.go:47-120 | A closing write of the bot leaves the draft closed, with no write of its owner pending and no prompt. |
| `DraftGuarantees.OnlyAnEditUnderWayReopens` | internal/bot/messages.go:130-167 | A step other than a re-run makes a closed draft live again if and only if it is the write of an edit that its owner's bot had already decided on. |
| `DraftGuarantees.NameEditChangesTheName` | internal/bot/messages.go:141-152 | An undisturbed name edit stores the trimmed text, keeps date and phrase, clears the prompt and makes the draft ready; no other row changes. |
| `DraftGuarantees.DateEditChangesTheDate` | internal/bot/messages.go:153-164 | An undisturbed date edit stores the resolved date and its phrase and keeps the name. |
| `DraftGuarantees.CleanersWriteOnlyCards` | internal/storage/postgres/drafts.go:144-170 | Over every run of any number of cleaners, statuses, prompts, product references and products stay, and a draft that is not ready stays as it is. |
| `DraftScenarios.RerunsMakeProducts` | internal/ingest/pipelines.go:128-139 | For every n, a run with n re-runs and n + 1 products of one draft: the bound above is met. |
| `DraftScenarios.AnEditRevivesAFailedDraft` | internal/scheduler/maintenance.go:142-162 | A run without re-runs in which a swept draft becomes ready again through an edit under way. |
| `DraftScenarios.ASweepFailsAConfirmedDraft` | internal/scheduler/maintenance.go:147-160 | A run in which the unguarded sweep marks a confirmed draft failed although its product exists. |
| `DraftScenarios.TheCleanerUndoesAnEdit` | internal/storage/postgres/drafts.go:152-161 | Under every lexicon, a run in which a cleaner that read before the user's date edit writes a candidate which the rule accepts against what it read, and makes the draft, complete by then, incomplete. |
| `DraftSafety.ReachableInv` | internal/storage/postgres/queries/drafts.sql:1-96 | In every reachable state: stored names and phrases are trimmed and not empty, product references point at products of that draft, and products + openness never exceed 1 + re-runs. |
| `DraftSafety.StepKeepsInv` | internal/bot/callbacks_draft.go:14-120 | Each of the 13 kinds of step keeps that invariant. |
| `DraftSafety.ConfirmKeepsInv` | internal/storage/postgres/products.go:149-170 | The confirmation spends the draft's one opening on its product. |
| `DraftCleaning.HandleCleanDraft` | internal/ingest/pipelines.go:56-93 | An undisturbed cleaner job writes if and only if the draft is ready and the rule accepts, and then lowers the draft's rank. |
| `DraftCleaning.CleanerUndoesExactlyUndated` | internal/ingest/pipelines.go:56-92 | Whatever the ready row holds by now, some accepted candidate leaves it incomplete if and only if the draft had no date when the cleaner read it. |
| `DraftCleaning.AcceptedOnDatedIsComplete` | internal/ingest/pipelines.go:72-92 | A candidate accepted against a snapshot with a date leaves the draft complete with that date, whatever was written in between. |
| `DraftCleaning.EditedDateIsLost` | internal/ingest/pipelines.go:56-92 | Over any ready row, a cleaner that read no date can replace the row's date; under one that read a date, every accepted candidate does so if the row's date is another one, and none does otherwise. |
| `DraftCleaning.EditedNameIsLost` | internal/ingest/pipelines.go:56-92 | Over any ready row, a cleaner that read an incomplete draft can replace the row's name; under one that read a complete draft, every accepted candidate does so if and only if the rule would not accept the row's name itself. |
| `DraftStore.Store.ApplyCleanerUpdateIfReady` | internal/storage/postgres/drafts.go:144-170 | The row is written exactly if it is ready, in name, date and phrase only, and `updated` says so. |
| `DraftStore.Store.CreateProductFromDraft` | internal/storage/postgres/products.go:107-178 | For every status of the locked row: each error case exactly where it applies, the same product again for a confirmed draft, and for a live complete one a new active product that carries the row's owner, name, date, phrase and source, with the row confirmed and all other rows as they were. |
| `DraftStore.Store.HandleDraftCallback` | internal/bot/callbacks_draft.go:14-92 | Undisturbed: confirm, cancel, delete and the two edits each leave their status, prompt and product reference exactly where the row allows it, and every other column, row and product as it was; a product is added exactly for a confirmable draft. This is the decision on the row as read followed by its write. |
| `DraftStore.Store.HandleDraftEditMessage` | internal/bot/messages.go:130-167 | Undisturbed: in editing the name a text that is not blank becomes the name, in editing the date a resolved date becomes the date and the text its phrase; the draft is then ready without a prompt. Nothing changes otherwise. |
| `DraftStore.Store.CloseDraftWithStatus` | internal/bot/callbacks_draft.go:106-120 | Writes the closing status exactly where the transition allows it. |
| `DraftStore.Store.EnterDraftEditMode` | internal/bot/drafts.go:12-56 | A prompt that is still up is reused; otherwise the editing status and the new prompt are stored where the transition allows it. |
| `DraftStore.Store.CleanupStaleDrafts` | internal/scheduler/maintenance.go:142-162 | Undisturbed, the sweep fails exactly the ready and editing drafts that are at least 12 hours old, and changes nothing else. |
| `DraftRefinement.CallbackIsARun` | internal/bot/callbacks_draft.go:14-120 | The tables in which an undisturbed callback ends are those of a run of its read and its owner's writes, so every theorem over runs holds of it. |
| `DraftRefinement.MessageIsARun` | internal/bot/messages.go:130-167 | The same for an edit message. |
| `DraftRefinement.SweepIsARun` | internal/scheduler/maintenance.go:142-162 | The same for a sweep: a listing and the failing of each listed draft end in the tables of CleanupStaleDrafts. |
| `DraftRefinement.CleaningIsARun` | internal/ingest/pipelines.go:56-93 | The same for a cleaner's read and guarded write. |
| `JobQueue.QueueInvariant` | internal/storage/postgres/queries/jobs.sql:6-45 | In every run with any number of workers: a row has at most one holder, a held row is running, a waiting row has an attempt left, and a row was claimed exactly `attempts` times, at most `max_attempts`. |
| `JobQueue.FinalRowsNeverChange` | internal/storage/postgres/queries/jobs.sql:34-45 | Rows are never removed and keep kind and key; a done or failed row never changes again. |
| `JobQueue.RowsEndByTheirOutcome` | internal/storage/postgres/queries/jobs.sql:34-45 | In every run, a row is done if and only if a worker that held it took it to success, and failed if and only if a worker that held it failed on its last allowed claim; a failed row has used all five attempts. |
| `JobQueue.ClaimsAreConserved` | internal/storage/postgres/queries/jobs.sql:17-25 | Claims made + attempts left = attempts allowed, in every run; so claims never exceed the allowance. |
| `JobQueue.WorkersComeToRest` | internal/worker/loop.go:17-57 | Without new jobs a run has at most 2 * (attempts left) + (busy workers) steps, whatever the outcomes and clocks. |
| `JobQueue.StepBalances` | internal/storage/postgres/queries/jobs.sql:6-45 | Each step keeps the balance, and lowers the measure unless it enqueues. |
| `JobDrain.DrainDue` | internal/worker/drain.go:14-36 | Whatever other workers do between and during the rounds: at most `limit` claims (100 for a limit below one), no row twice, the rows of all successful rounds are done, and a drain stopped below the limit without an error saw nothing due at its last clock reading but rows others had locked; a failing job ends the drain and has failed for good or waits for one second. If nobody else touches the table, a drain without an error has turned exactly the claimed rows, all of which waited, into done ones, and rows present at the start are taken in run-time and id order whatever the clock and the processor's enqueues do. |
| `JobRefinement.RoundIsARun` | internal/worker/drain.go:18-34 | A round that nobody disturbs is a run of the queue: the claim, the processor's enqueues and the recorded outcome, so the theorems over runs hold of what it leaves. |
| `JobDrain.ProcessJob` | internal/worker/drain.go:38-63 | Success is reported exactly for recorded work, and its row is then done. Otherwise the row is never done: it has failed if its attempts are used up, waits for the retry time if not, and keeps running if the outcome could not be recorded; whatever others do to the table meanwhile. |
| `JobTable.Table.ClaimJob` | internal/storage/postgres/queries/jobs.sql:6-25 | Claims the first due allowed row, by run time and id, that no other claim has locked, and none exactly if there is none. |
| `JobTable.Table.MarkJobRetry` | internal/storage/postgres/queries/jobs.sql:39-45 | The row is failed if and only if its attempts are used up, waits for a retry otherwise, and gets the new run time; all else stays. |
| `JobTable.NextExists` | internal/storage/postgres/queries/jobs.sql:8-15 | Whenever an allowed row is due and not locked by another claim, one row is the next. |
| `Digests.OneDigestPerUserAndDate` | internal/scheduler/maintenance.go:33-54 | Over every sequence of ticks, clocks, time zones, digest times and steps of everyone else: a digest row for a user and local date exists if and only if some tick was due for them on that date, and never twice. |
| `Digests.TickRuns` | internal/scheduler/maintenance.go:33-54 | The statements of a tick, as steps of the queue, leave the rows that EnqueueDueDigests leaves. |
| `Digests.EnqueueDueDigests` | internal/scheduler/maintenance.go:33-54 | After a tick, complete or cut short by a failing statement: every user reached whose clock shows the digest time has a row with the key of the local date, the rows added are rows of such users, and the old ones are as they were. |
| `Digests.DigestKeyIsInjective` | internal/scheduler/maintenance.go:43-43 | Different users or different local dates have different keys, for every user id and every civil date. |
| `Digests.KeyFamiliesAreApart` | internal/scheduler/maintenance.go:148-148 | Digest, draft-cleanup and cleaner keys never collide, whatever the trace id. |
| `Digests.KeysOfSubjects` | internal/scheduler/maintenance.go:43-43 | The layout of the three keys, with the date as 2006-01-02. |
| `Digests.OtherKeysAreInjective` | internal/ingest/pipelines.go:104-104 | Draft-cleanup keys name their draft, cleaner keys their trace. |
| `Digests.KeyIsThereOnceRequested` | internal/storage/postgres/queries/jobs.sql:1-4 | A row with a key exists if and only if one was requested. |
| `Cleaner.ShouldApplyBackgroundCleaner` | internal/ingest/cleaner_pipeline.go:169-227 | The cascade gives the verdict of the rule, reason by reason. |
| `Cleaner.CompareNames` | internal/ingest/cleaner_pipeline.go:195-226 | Its second half, on the normalised names. |
| `Cleaner.AcceptedCandidateImproves` | internal/ingest/cleaner_pipeline.go:169-227 | An accepted candidate is strictly below the draft in the lexicographic order (date missing, name missing, noise, words, length of the normalised name); a date keeps its day, and a complete draft stays complete. |
| `Cleaner.AcceptsExactlyImprovements` | internal/ingest/cleaner_pipeline.go:169-227 | A candidate is accepted if and only if the draft is ready, a date that is there keeps its day, and the candidate adds a missing name, adds a missing date, or has a better name: a different one that says nothing new, is no longer unless part of the current name or free of noise, and has less noise, or as much with fewer words or as a part. |
| `Cleaner.ReasonsAreExact` | internal/ingest/cleaner_pipeline.go:187-225 | Each reason of an acceptance is given if and only if it applies: so a candidate that only removes noise, of the same entity with the date kept, is always accepted for that reason. |
| `Cleaner.RefusalsAreExact` | internal/ingest/cleaner_pipeline.go:178-215 | Each reason of a refusal is given if and only if it applies. |
| `Cleaner.NotReadyIsRefused` | internal/ingest/cleaner_pipeline.go:170-172 | A draft that is not ready is refused for that reason and no other draft is. |
| `Cleaner.NoiseIsListed` | internal/ingest/cleaner_pipeline.go:372-378 | A folded word is noise if and only if the table lists it. |
| `Cleaner.NoiseRemovalShortens` | internal/ingest/cleaner_pipeline.go:254-278 | Deleting noise words lowers the number of policy tokens. |
| `Cleaner.CleaningNeverCycles` | internal/ingest/cleaner_pipeline.go:169-227 | No chain of accepted cleanings returns to a draft it left, including what storing does to the name. |
| `Cleaner.CleaningStops` | internal/ingest/cleaner_pipeline.go:169-227 | There is no infinite chain of accepted cleanings. |
| `Cleaner.NameIsDroppedExactlyForADate` | internal/ingest/cleaner_pipeline.go:186-193 | A candidate without a name is accepted over a named draft if and only if it adds a missing date. |
| `Cleaner.CandidateRemovesOnlyNoise` | internal/ingest/cleaner_pipeline.go:254-278 | True if and only if some way of deleting one or more words, all noise, turns the current name into the non-empty candidate. |
| `Cleaner.NoiseRemovalLowersScore` | internal/ingest/cleaner_pipeline.go:358-378 | Deleting noise words lowers the noise score of the name as a whole. |
| `Cleaner.NameNoiseScore` | internal/ingest/cleaner_pipeline.go:358-366 | The loop counts the noise among the policy tokens. |
| `Cleaner.CandidateMatchesCurrentEntity` | internal/ingest/cleaner_pipeline.go:304-325 | True if and only if both names are there and the candidate's canonical tokens are among the current name's. |
| `Cleaner.EntityIsExact` | internal/ingest/cleaner_pipeline.go:304-348 | Two names match if and only if both normalise to something and are equal or every word of the candidate's stands for some word of the current one, lead words counting as their canonical form. |
| `Cleaner.NameTokenSet` | internal/ingest/cleaner_pipeline.go:327-337 | The loop builds the set of canonical tokens. |
| `Alignment.MatchGreedily` | internal/ingest/cleaner_pipeline.go:254-278 | The left-to-right matching decides whether any alignment deletes only passing elements. |
| `Alignment.GreedyDecides` | internal/ingest/cleaner_pipeline.go:259-277 | If any alignment will do, the greedy one does. |
| `Alignment.AlignmentsDeleteTheSame` | internal/ingest/cleaner_pipeline.go:261-268 | The multiset of deleted elements does not depend on the alignment. |
| `DraftNames.NormalNameIsNormal` | internal/ingest/parse_text.go:136-194 | For every input the normalised name is its own policy text: folded words with one blank between each two. |
| `DraftNameResults.CanonicalPhraseWins` | internal/ingest/parse_text.go:176-178 | Where a canonical product phrase stands in the stripped name (punctuation off, phrases rewritten, prefixes taken off), the result is the canonical form of the rule that wins there. |
| `DraftNameResults.NamePassesStages` | internal/ingest/parse_text.go:176-193 | Otherwise the result is reached from the stripped name by exactly these: leading phrases, then the noise words in front; cut phrases, then everything from the first stop on, then the links at the end; leading phrases and noise in front again; the rewrites; a canonical phrase that stands then, or else the lead entry of the first word. |
| `DraftNameResults.NameIsAStretch` | internal/ingest/parse_text.go:176-193 | Otherwise, too, the result comes from a contiguous stretch of the stripped name's words that does not begin with noise, has no stop word and no "from" before a store, does not end in a link if there is more than one word, and in which no cut phrase stands. |
| `DraftNameResults.NameIsExact` | internal/ingest/parse_text.go:136-194 | Where no phrase of the tables stands in the stripped name, the result is determined word by word: exactly the noise in front, what follows the first stop, and the links at the end are gone; only the first word may differ, and is then its lead entry. |
| `DraftNameResults.LeadingPhraseIsDropped` | internal/ingest/parse_text.go:398-403 | Two inputs whose stripped names differ by one leading phrase in front have the same result, if no other phrase comes into play. |
| `DraftNameResults.CutPhraseIsDropped` | internal/ingest/parse_text.go:339-365 | Two inputs whose stripped names differ by a cut phrase and everything behind it have the same result, if no other phrase comes into play and the name begins with no noise. |
| `DraftNameLaws.TrimSetIsExact` | internal/ingest/parse_text.go:137-137 | Exactly the punctuation at both ends is taken off. |
| `DraftNameLaws.StripAllTakesOff` | internal/ingest/parse_text.go:142-175 | The prefix loop takes off one prefix at a time, the first filler that strips, or the first action prefix if no filler does, until none strips. |
| `DraftNameLaws.BestIsExact` | internal/ingest/normalization_rules.go:482-495 | No phrase is found if and only if no rule's phrase stands in the text; otherwise the canonical form of the one rule that beats what came before it and that no later one exceeds. |
| `DraftNameLaws.ReplaceAllIsExact` | internal/ingest/normalization_rules.go:476-478 | A replacement changes the occurrences of the phrase and nothing between them, and leaves none there. |
| `DraftNameLaws.RewrittenStays` | internal/ingest/normalization_rules.go:471-480 | Normal text in which no rewrite stands is left as it is. |
| `DraftNameLaws.RewrittenReplaces` | internal/ingest/normalization_rules.go:471-480 | The first rewrite that stands is made, and the result is just that if no later one then stands. |
| `DraftNames.RuleUsesNormalNames` | internal/ingest/cleaner_pipeline.go:195-196 | With this normalisation in its lexicon, the acceptance rule compares exactly these names, so all its theorems hold of them. |
| `DraftNames.StripAllLeavesAnEnd` | internal/ingest/parse_text.go:142-175 | The prefix loop takes from the front only: what it leaves is an end of the name, normal, and no filler or action prefix can be taken off it. |
| `DraftNames.TrimmedLeadingIsNormal` | internal/ingest/parse_text.go:393-429 | Behind the cut phrases, the leading trim keeps an end of the words that does not begin with noise, or gives a canonical phrase; the result is normal. |
| `DraftNames.TrimmedTrailingIsNormal` | internal/ingest/parse_text.go:339-391 | The trailing trim keeps a beginning of the words that does not end in a linking word, or gives a canonical phrase; the result is normal. |
| `DraftNames.LeadingIsExact` | internal/ingest/parse_text.go:404-424 | Exactly the noise words in front are dropped. |
| `DraftNames.WithoutLastIsExact` | internal/ingest/parse_text.go:383-389 | Exactly the linking words at the end are dropped, the first word excepted. |
| `DraftNames.RewrittenIsNormal` | internal/ingest/normalization_rules.go:471-480 | Whatever goes in, the phrase rewrites yield policy-normal text. |
| `DraftNames.LeadCanonicalIsNormal` | internal/ingest/parse_text.go:431-440 | Replacing the lead word by its canonical form keeps the text normal. |
| `DraftNameLoops.NormalizeDraftName` | internal/ingest/parse_text.go:136-194 | The loops with their early returns compute that name, for every input. |
| `DraftNameLoops.StripPrefixes` | internal/ingest/parse_text.go:142-175 | The loop ends, with every prefix that strips taken off, filler before action prefixes. |
| `DraftNameLoops.StripOne` | internal/ingest/parse_text.go:145-171 | One pass takes off the first prefix that leaves something, and reports exactly whether there is one. |
| `DraftNameLoops.TrimLeadingNoise` | internal/ingest/parse_text.go:393-429 | The loops compute the leading trim. |
| `DraftNameLoops.TrimTrailingNoise` | internal/ingest/parse_text.go:339-391 | The loops compute the trailing trim: where it cuts, which phrase it protects, which links it drops. |
| `DraftNameLoops.RewritePhrases` | internal/ingest/normalization_rules.go:471-480 | The loop applies the rewrites in their order. |
| `DraftNameLoops.CanonicalProductPhrase` | internal/ingest/normalization_rules.go:482-495 | The rule that the length comparison lets win, found if and only if the result is not empty. |
| `DraftNames.NormalIsPolicyText` | internal/ingest/input_policy.go:62-74 | Normal text is a fixed point of the policy normalisation. |
| `EditDistance.DistanceIsLeastCost` | cmd/ingest-benchmark/evaluate.go:805-833 | The recursive distance is the least cost of an edit script (keep, insert, delete, substitute) from one word to the other. |
| `EditDistance.Identity` | internal/domain/date_resolver.go:794-828 | The distance is zero exactly between equal words. |
| `EditDistance.Symmetry` | internal/domain/date_resolver.go:794-828 | It is symmetric. |
| `EditDistance.Triangle` | internal/domain/date_resolver.go:794-828 | It satisfies the triangle inequality. |
| `EditDistance.LengthBounds` | internal/domain/date_resolver.go:802-804 | It lies between the difference of the lengths and the longer length. |
| `EditDistance.CapIsSound` | internal/domain/date_resolver.go:802-804 | With the early exit, results up to 2 are exact and 3 or more is returned if and only if the true distance is at least 3. |
| `EditDistance.LevenshteinDistance` | internal/domain/date_resolver.go:794-828 | The column loop with its exits computes the capped distance, the exact one for an empty word. |
| `EditDistance.TokenLevenshtein` | internal/ingest/input_policy.go:243-271 | The second column loop computes the capped distance. |
| `EditDistance.ColumnDistance` | internal/domain/date_resolver.go:806-827 | The single column, updated in place, holds the distance in the end. |
| `EditDistance.RowDistance` | cmd/ingest-benchmark/evaluate.go:805-833 | The two swapped rows compute the distance. |
| `WordCorrection.NormalizeDateToken` | internal/domain/date_resolver.go:612-649 | Digits, overrides and exact words come first; otherwise the first vocabulary word of least distance among those with the same first rune within the limit, and the token itself if there is none. |
| `WordCorrection.TrimDotsIsExact` | internal/domain/date_resolver.go:616-618 | Exactly the dots at both ends are taken off. |
| `VoiceTokens.CorrectVoiceToken` | internal/ingest/input_policy.go:183-212 | A token with digits or without letters, a canonical phrase, a kept word or one with a food signal stays; every other token becomes the first nearest eligible lexicon token, if there is one. |
| `VoiceTokens.LeavesAlone` | internal/ingest/input_policy.go:184-195 | The tests in their order decide exactly that. |
| `VoiceTokens.FoodLexiconMatches` | internal/ingest/input_policy.go:84-118 | The leaping search finds something if and only if some lexicon phrase occurs anywhere. |
| `VoiceTokens.LongestAt` | internal/ingest/input_policy.go:93-110 | The longest phrase that stands at a position, and none if and only if none does. |
| `WordCorrection.NearestToken` | internal/ingest/input_policy.go:196-211 | The loop yields the first of the nearest eligible words, the token itself if there is none. |
| `WordCorrection.ResolveToken` | internal/domain/date_resolver.go:685-734 | An exact entry, else a nearest one at most 2 edits away, whatever the order in which the map is walked; found if and only if there is one. |
| `WordCorrection.FilterIsSound` | internal/domain/date_resolver.go:631-640 | The length prefilter and the early exit discard no eligible word. |
| `WordCorrection.NearestIsUnique` | internal/domain/date_resolver.go:612-649 | The specification of the choice leaves one answer. |
| `Calendar.ResolveWithoutYear` | internal/domain/date_resolver.go:736-759 | Without a year the answer is the earliest such date on or after today, or none if there is no such day, if and only if it is not 29 February in a year that lacks it or has passed it. |
| `Calendar.ResolveBranches` | internal/domain/date_resolver.go:736-759 | Which of this year's date, next year's date and none is answered, for every day and month number. |
| `Calendar.ResolveWithYear` | internal/domain/date_resolver.go:736-759 | With a year, below 100 counted from 2000, the answer is that date if and only if it exists. |
| `Calendar.NextFutureDayIsEarliest` | internal/domain/date_resolver.go:779-792 | The earliest such day of this or the next month that is not past, and none if and only if neither offers one. |
| `Calendar.NextWeekdayIsEarliest` | internal/domain/date_resolver.go:549-556 | The earliest strictly later day on that weekday. |
| `Calendar.KnownWeekdays` | internal/domain/date_resolver.go:549-556 | The weekday count agrees with known dates. |
| `Calendar.MonthsOf2023` | internal/domain/date_resolver.go:549-556 | The weekdays on which the months of 2023 began. |
| `Calendar.WeekdaysFollow` | internal/domain/date_resolver.go:549-556 | The day after a date is the next date and one weekday later. |
| `Calendar.LeapDays` | internal/domain/date_resolver.go:736-747 | A 29 February exists exactly in the leap years of the Gregorian calendar. |
| `Calendar.RelativeDurationIncreases` | internal/domain/date_resolver.go:761-777 | More days, weeks or months give a strictly later date, although months overflow into the next. |
| `Calendar.RelativeDayNumber` | internal/domain/date_resolver.go:761-777 | Days count as days, weeks as seven, months through the calendar with the day kept or run over. |
| `Calendar.RelativeDurationExists` | internal/domain/date_resolver.go:761-777 | There is an answer exactly for a positive amount of a known unit. |
| `Calendar.NormalizeKeepsDayNumber` | internal/domain/date_resolver.go:736-777 | Normalising an out-of-range day keeps its place in the day count. |
| `Calendar.DayNumberOrders` | internal/domain/date_resolver.go:549-556 | The day count orders the civil dates. |
| `Wav.ReadWavSpec` | cmd/vosk-transcribe/wav.go:83-151 | The loop over a moving file position computes the chunk scan, for every byte string. |
| `Wav.FormatFirst` | cmd/vosk-transcribe/wav.go:91-150 | A RIFF/WAVE file with a valid fmt chunk and then a data chunk among any others is read as exactly their fields, and the data body is what the reader can deliver. |
| `Wav.DataFirst` | cmd/vosk-transcribe/wav.go:91-150 | The same with the data chunk first. |
| `Wav.MissingChunk` | cmd/vosk-transcribe/wav.go:147-149 | A file whose chunks lack a fmt chunk or a data chunk is rejected, whatever the others are. |
| `Wav.ShortFormatIsRejected` | cmd/vosk-transcribe/wav.go:110-113 | A fmt chunk of fewer than 16 bytes ends the scan, whatever follows. |
| `Wav.TruncatedData` | cmd/vosk-transcribe/wav.go:124-146 | Behind the fmt chunk the data chunk's header is enough: a file cut off within its data is read, and what is there of the data is delivered. |
| `Wav.PreambleIsNeeded` | cmd/vosk-transcribe/wav.go:84-90 | Nothing is read from a file that does not begin with RIFF, a size and WAVE. |
| `Wav.Identifiers` | cmd/vosk-transcribe/wav.go:88-124 | The identifiers looked for are these four in ASCII. |
| `Wav.LowByteFirst` | cmd/vosk-transcribe/wav.go:103-121 | Numbers are read low byte first. |
| `Wav.ScanSkips` | cmd/vosk-transcribe/wav.go:132-142 | Other chunks, with their pad bytes, are passed over. |
| `Wav.WavReader.ReadChunk` | cmd/vosk-transcribe/wav.go:58-77 | What a read returns comes off the front of what is left of the data; the end is reported only when nothing is left; it delivers something unless it reports. |
| `Wav.WavReader.ReadAll` | cmd/vosk-transcribe/main_linux.go:86-106 | Under every pattern of short reads the pieces handed on concatenate to exactly the available data, and to a prefix of it after a fault. |
| `Wav.OpenPcm16Mono` | cmd/vosk-transcribe/wav.go:25-52 | Opens exactly the readable PCM 16-bit mono files, at the data body. |
| `Wav.Transcribe` | cmd/vosk-transcribe/main_linux.go:49-106 | Opening and reading to the end feeds exactly the available part of the located data. |
| `Callbacks.OpenRoundTrip` | internal/ui/shared.go:36-38 | For every 64-bit id and page and every mode, handling a printed open callback recovers id, mode and page (a negative page as 0). |
| `Callbacks.SetRoundTrip` | internal/ui/shared.go:40-42 | Handling a printed set callback, through the shifted parts, recovers id, status and list if and only if the status has no colon. |
| `Callbacks.PageRoundTrip` | internal/ui/shared.go:21-34 | Handling a printed page callback asks for that list and page. |
| `Callbacks.CallbackLayouts` | internal/ui/shared.go:21-42 | The layout of the three kinds of callback data. |
| `Callbacks.DashboardViews` | internal/bot/callbacks_dashboard.go:8-28 | Which view each dashboard button asks for; any other is ignored. |
| `Callbacks.OpenWithoutOrigin` | internal/bot/dashboard_pagination.go:39-52 | Data that names no list opens the product with the first page of the list to go back to. |
| `Callbacks.SetWithoutOrigin` | internal/bot/dashboard_pagination.go:39-52 | The same for setting a status. |
| `Callbacks.PageDefaults` | internal/bot/dashboard_pagination.go:19-28 | A page that is no number stands for the first one. |
| `Callbacks.BackReturnsToTheList` | internal/bot/callbacks_product.go:11-47 | From any list page, opening a product and going Back, or setting its status, returns to that list page. |
| `Decimal.PrintParses` | internal/bot/dashboard_pagination.go:19-52 | Every 64-bit number printed is parsed as itself. |

## Left out

- Telegram, Ollama, ffmpeg and Vosk calls, Docker and files: sends only deliver a message id, the cleaner's output is arbitrary.
- The phrase grammar of dates, the `when` parser and the regular expressions: only the resolved calendar functions are modelled.
- Time zones and daylight saving: the digest theorem holds for any reading of instants as local times.
- The classes of the dispatcher: a concurrent protocol is modelled on values, as a step relation; releasing a lock is part of the critical section's last step, and a nil function is not submitted.
- Liveness of the job queue: a worker that ends leaves its row running for ever, as the code has no lease recovery.
- The endless loop of internal/worker/loop.go as a method: its claims and outcomes are the steps of `JobQueue`.
- Which of several editable drafts a text message goes to: any draft of the user in editing may be picked, a superset of the latest one.
- The trace-id lookup in front of a re-run, `draft_payload`, message ids other than the prompt's, `normalized_name` and confidences: no theorem depends on them.
- The e2e reset, which deletes rows.
- The voice transcript around the token correction (phrase rewrites with other tables, the genitive of day numbers): `DraftNames` has the rewrites, the rest adds nothing harder.
- `JobRefinement.RoundIsARun`: speaks of rounds that nobody disturbs; with other workers in between, `DrainDue` states what it promises on its own.
- Text is a sequence of runes: invalid UTF-8 and the 64-byte limit of callback data are not modelled; where the code cuts by byte length, it does so on text that its own folding leaves unchanged.
- Dashboard rendering, keyboards, copy templates, logging, configuration, reports and corpus tools: presentational.
