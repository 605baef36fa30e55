# A verified model of the control tower's stateful core

The control tower plans cards, sends them to the planning, build and verification
services, keeps them in step with issues on a git host, holds the credentials for
that host, and records every write in a tamper-evident audit chain. This project
models the parts of that program which carry unbounded promises, and proves them
over every input and every run.

| file | models |
|---|---|
| `AuditCanonical.dfy` | the hashed string of an audit entry, and the keyed digest |
| `AuditChain.dfy` | what a scan of the table reports, said of the table as a whole |
| `AuditLog.dfy` | the store: append, the one-pass scan with its dictionaries, the cached report |
| `AuditAppenders.dfy` | any number of appenders, interleaved, with and without the lock |
| `AuditVerdicts.dfy` | the reports and lists a caller sees, said of the rows alone |
| `CardIntake.dfy`, `CardIntakeCalls.dfy`, `CardIntakeRuns.dfy`, `CardIntakeRaces.dfy` | the stage machine of a card, what each call does, sequences of calls, and calls that overlap |
| `ImportLease.dfy`, `PollBackoff.dfy` | who polls a project, and how often |
| `IssueImport.dfy`, `IssueWatermark.dfy` | upserting issues into cards, and the incremental passes over them |
| `CardSync.dfy` | a card opened, adopted and mirrored under its one reference |
| `CommentSync.dfy` | comment threads: refresh windows and backfill |
| `CardKeys.dfy` | the key a card is given |
| `CredentialBinding.dfy`, `CredentialEnvelope.dfy`, `CredentialStore.dfy`, `CredentialRaces.dfy` | the associated data, the envelope, stored credentials over key rotations, and reads that overlap writes |
| `GitRepositories.dfy`, `GitTables.dfy` | connections, repositories and the tenant's one default |
| `RepoRefs.dfy` | the grammars of project paths, repository and issue references |
| `RowOwners.dfy` | which of a poll's tasks may write a shared row |
| `InstallTokens.dfy` | tokens minted from an install, against a host that rotates refresh tokens |
| `Prelude.dfy`, `Text.dfy` | result types, decimal printing, splitting and stripping |

Pure code of the program is functions and lemmas here. Code that changes rows or
objects in place is a class whose methods are proved equal to a function of the old
state; the lemmas are about runs of that function. Where
calls of several transactions can overlap and a promise depends on it (audit appends,
import leases, intake calls, credential reads), they are taken apart into their reads
and writes; elsewhere a call is one step.
Everything the program cannot decide is a parameter: clocks, randomness, what a host
or a service answers, which writes go through. HMAC-SHA256 is an injective function
of the whole message (section 2 of RFC 2104), and AES-GCM a cipher that opens a blob
only under the key and associated data that made it (section 7 of NIST SP 800-38D).

Where a comment or a docstring promises more than the code gives, the code is
modelled, and the exact condition is proved:

* two entries can share a canonical string when a text field holds the separator (`CanonicalUnambiguousIff`);
* with a separator in a text field, an edit of a row can escape the scan, even by moving columns into `prev_hash` (`EveryEditReportedIff`, `LinkCanAbsorbColumns`);
* an unlocked race can leave a `dangling` row and not only forks (`RaceCanDangle`);
* `run` can refuse after it has queued stages (`RefusedStartUnchangedIff`);
* a rejected advance need not leave the card blocked, and a card can read `done` with its verification failed (`RejectedAdvanceBlocksIff`, `DoneThoughUntested`);
* two presses of a stage before the first is recorded send it twice, and a waiting send can undo a settled stage (`DoublePressSendsTwice`, `StaleSendUndoesDone`);
* a full import is not safe at any time: under the default state filter it can lose a closure (`FullPassLosesIff`, `FullPassCanLose`);
* a card key with a superscript digit stops the assignment of keys for good (`AssignedKeysAreNew`, `OneKeyStopsAssignment`);
* a credential stored or cleared while a read of it migrates can come back as it was (`OvertakenReadRestores`);
* `rewrap` re-wraps legacy records too, keeping their binding (`RewrapKeepsSecret`);
* a legacy binding can spell a current one (`LegacyMeetsCurrentIff`);
* an edit on the board survives the next poll unless that poll returns the issue (`LocalEditOverwrittenIffReturned`, `LocalEditMustBeOverwrittenIff`);
* a repository resolves to nothing while repositories exist, once the default was cleared (`ClearedTenantResolvesToNone`, `OneDefaultUnlessCleared`);
* a repository reference survives parsing and printing except when it is read as a GitHub project that reads as qualified again (`ReprintedRefParsesIff`);
* the unique index on issue references tells issues apart only among texts in printed form, and a card may be created with another spelling (`PrintedFormIff`).

Constants are the program's own: five-minute comment overlap, sixty-second issue
overlap, eight backoff cycles with a rate limit counted as three failures, a
thirty-second report, a five-minute token margin.

## Model

| member | source | states |
|---|---|---|
| AuditCanonical.CanonicalUnambiguousIff | apps/backend/cfactory/audit.py:119-133 | no other field values share an entry's canonical string, if and only if none of its text fields holds the unit separator |
| AuditCanonical.CanonicalTsInjective | apps/backend/cfactory/audit.py:106-116 | two timestamps render alike only when they are the same to the microsecond |
| AuditCanonical.JoinInjective | apps/backend/cfactory/audit.py:119-133 | joined field lists of equal length are equal as soon as one side is free of the separator |
| AuditCanonical.Collision | apps/backend/cfactory/audit.py:119-133 | for every entry with a separator in a text field there is a different entry with the same canonical string |
| AuditCanonical.EntryHashInjective | apps/backend/cfactory/audit.py:136-149 | equal entry hashes mean the same rendered fields chained to the same predecessor, genesis included |
| AuditCanonical.IdealIsSatisfiable | apps/backend/cfactory/audit.py:136-149 | a collision-free digest as assumed exists, so what follows from it is not vacuous |
| AuditChain.VerifyReports | apps/backend/cfactory/audit.py:463-592 | an id is reported by `verify` exactly when its row is mutated, duplicated or dangling in the table; `check` is empty exactly when no row has any anomaly |
| AuditChain.ChainHashesDistinct | apps/backend/cfactory/audit.py:136-149 | no digest repeats along a keyed chain, by descent to genesis |
| AuditChain.CheckEmptyIffKeyedChain | apps/backend/cfactory/audit.py:463-519 | `check` finds nothing exactly on the tables that are keyed chains from genesis |
| AuditChain.DrawnKind | apps/backend/cfactory/audit.py:338-376 | in any selection of rows of an honest chain, the verdict on a row follows from where it and its neighbour came from |
| AuditChain.DrawnVerifiesIffPrefix | apps/backend/cfactory/audit.py:495-592 | rows of an honest chain, in any order and with repetition, verify clean if and only if they are a prefix of it: deletion, reordering and repetition are caught, cutting the tail is not |
| AuditChain.DrawnReportsMisplaced | apps/backend/cfactory/audit.py:338-376 | without repetition the ids reported are exactly those of rows not right behind their original predecessor; damage does not cascade |
| AuditCanonical.FreeEntryIsIdentified | apps/backend/cfactory/audit.py:119-149 | an entry with separator-free text and link shares its digest with no other fields and no other link, whatever characters those hold |
| AuditCanonical.LinkCanAbsorbColumns | apps/backend/cfactory/audit.py:119-149 | with a separator in the actor, an edit can move every later column up by one and put the rest into `prev_hash` with the digest unchanged |
| AuditChain.EditsReportedAsMutated | apps/backend/cfactory/audit.py:359-362 | rewriting hashed columns and links of any rows, with any characters and digests kept, reports as mutated, among rows whose original text holds no separator, exactly the rewritten ones; NULL to the empty text in `prev_hash` is no edit of the hashed message |
| AuditChain.EveryEditReportedIff | apps/backend/cfactory/audit.py:359-362 | every edit of a row is reported if and only if the row's original text fields hold no separator |
| AuditChain.RenderedEditsReported | apps/backend/cfactory/audit.py:359-362 | where the rewritten links hold no separator, the rows reported are those rendered or linked differently, whatever their text holds |
| AuditChain.AcknowledgementForgivesForksOnly | apps/backend/cfactory/audit.py:522-579 | no set of acknowledged forks changes whether a fresh report says tampered, and it is quiet exactly when every anomaly is an acknowledged fork |
| AuditLog.ClassifyMeansKindAt | apps/backend/cfactory/audit.py:338-376 | with complete dictionaries the one-row test returns the verdict whose meaning `AnomaliesSaid` gives |
| AuditVerdicts.AnomaliesSaid | apps/backend/cfactory/audit.py:338-376 | each of the four anomalies is reported on a row exactly under its own condition on digests, links and neighbours, over any table |
| AuditVerdicts.OrphansReported | apps/backend/cfactory/audit.py:367-376 | in any table a row whose parent is missing is in `verify`, whether or not it has siblings |
| AuditVerdicts.ForksHaveParents | apps/backend/cfactory/audit.py:367-376 | only a row at genesis, or one whose parent is in the table, is ever called a fork |
| AuditVerdicts.SurvivorsReported | apps/backend/cfactory/audit.py:338-376 | after deleting any rows of a raced table, a row left is reported exactly when it is not right behind its link and has lost its last sibling or its parent |
| AuditVerdicts.ReportedInOrder | apps/backend/cfactory/audit.py:495-592 | `check` and `verify` name rows in table order, each once |
| AuditVerdicts.ReportSaid | apps/backend/cfactory/audit.py:522-579 | a fresh report counts the rows, lists every anomaly but the acknowledged forks, lists those apart, and gives the verdict of what is left |
| AuditLog.AuditStore.Record | apps/backend/cfactory/audit.py:412-447 | the new row chains to the last one and every earlier row is as it was |
| AuditLog.AuditStore.Index | apps/backend/cfactory/audit.py:495-507 | both dictionaries list, for every key, exactly the ids filed under it in table order |
| AuditLog.AuditStore.Scan | apps/backend/cfactory/audit.py:495-519 | one pass finds exactly the anomalies of the table, in table order |
| AuditLog.AuditStore.VerifyIds | apps/backend/cfactory/audit.py:581-592 | the ids returned are those carrying tamper evidence |
| AuditLog.AuditStore.GetReport | apps/backend/cfactory/audit.py:522-579 | a report is fresh, or the cached one while it is at most as old as its lifetime |
| AuditAppenders.LockedTablesAreClean | apps/backend/cfactory/audit.py:152-197 | with the lock, every interleaving of any number of appenders leaves a table without anomaly |
| AuditAppenders.HonestTwins | apps/backend/cfactory/audit.py:363-366 | in a raced table a row has a duplicate exactly when a sibling of the same parent renders the same fields |
| AuditAppenders.HonestKind | apps/backend/cfactory/audit.py:359-376 | the verdict on every row of a raced table: clean, forked with a sibling, dangling without |
| AuditAppenders.FirstAnomalyIsForked | apps/backend/cfactory/audit.py:367-376 | the first anomaly of a raced table is a fork |
| AuditAppenders.UnlockedTablesOnlyFork | apps/backend/cfactory/audit.py:412-447 | without the lock, and as long as rows sharing a parent render differently, no interleaving, with rollbacks and late commits, yields a mutated or duplicate row, and where anything is wrong a fork comes first |
| AuditAppenders.DistinctFieldsDiffer | apps/backend/cfactory/audit.py:119-133 | on the real rendering, siblings with different separator-free fields render differently |
| AuditAppenders.RaceCanDangle | apps/backend/cfactory/audit.py:359-376 | four honest appends without the lock can end with a dangling row, which `verify` reports |
| CardIntake.CardStore.SendStage | apps/backend/cfactory/card_intake.py:523-588 | a delivered stage is recorded dispatched and gives a keyless card its key; a rejected one is recorded failed |
| CardIntake.CardStore.DispatchReady | apps/backend/cfactory/card_intake.py:591-650 | an implicit promotion dispatches the default stage of a ready, untouched card and nothing else |
| CardIntake.CardStore.SendNamed | apps/backend/cfactory/card_intake.py:653-696 | a named stage is refused without effect or sent |
| CardIntake.CardStore.Start | apps/backend/cfactory/card_intake.py:699-744 | `run` queues what is outstanding and sends the first of it |
| CardIntake.CardStore.SettleRuns | apps/backend/cfactory/card_intake.py:747-764 | settles the records as `EventSettlesInFlight` says of them, and moves nothing else |
| CardIntake.CardStore.AdvanceSequence | apps/backend/cfactory/card_intake.py:767-793 | the next queued stage is sent only when nothing is in flight or failed |
| CardIntake.CardStore.Apply | apps/backend/cfactory/card_intake.py:823-851 | one completion event: settle, advance, then map the column |
| CardIntakeCalls.PromotionSendsIff | apps/backend/cfactory/card_intake.py:604-650 | a promotion knocks on a door exactly for a ready card with a tier, the planner's for a hard one and the builder's otherwise, when that stage is idle and a build has a project |
| CardIntakeCalls.PromotionWithoutSend | apps/backend/cfactory/card_intake.py:604-650 | one that does not leaves the card, save that a card due to be built without a project is blocked |
| CardIntakeCalls.NamedRefusals | apps/backend/cfactory/card_intake.py:398-421 | which refusal a named stage gets, each exactly when |
| CardIntakeCalls.CompleteIsSkipped | apps/backend/cfactory/card_intake.py:668-676 | a complete stage, or a run with nothing left, is skipped with success and nothing written |
| CardIntakeCalls.SentStageKeys | apps/backend/cfactory/card_intake.py:523-588 | every send records its stage by the door's answer, and gives a keyless card the door's id or else its own key |
| CardIntakeCalls.RunSendsIff | apps/backend/cfactory/card_intake.py:699-744 | `run` sends a stage exactly when nothing is in flight, it is the first not complete, and its guards hold |
| CardIntakeCalls.RunQueuesTheRest | apps/backend/cfactory/card_intake.py:725-744 | past the first refusals, complete stages stay so, the sent one reads its answer and every other is queued |
| CardIntakeCalls.RunRefusals | apps/backend/cfactory/card_intake.py:699-744 | which refusal `run` gives, each exactly when |
| CardIntakeCalls.EventSettlesInFlight | apps/backend/cfactory/card_intake.py:747-764 | after an event a stage in flight reads failed exactly when the work item says it is stuck, done exactly when complete, and in flight otherwise |
| CardIntakeCalls.EventLeavesOthers | apps/backend/cfactory/card_intake.py:747-793 | every other record moves in an event only by being sent from the queue |
| CardIntakeCalls.EventSendsIff | apps/backend/cfactory/card_intake.py:767-793 | an event sends a stage exactly when it is the first queued, nothing failed, everything in flight is now complete, and its guards hold |
| CardIntakeCalls.StuckStageStopsSequence | apps/backend/cfactory/card_intake.py:784-787 | an event in which a stage in flight is stuck sends nothing and leaves the queue as it was |
| CardIntakeCalls.SilentItemLeavesColumn | apps/backend/cfactory/card_intake.py:796-851 | a work item that says nothing leaves the column to the advance |
| CardIntakeRuns.EverySendIsSound | apps/backend/cfactory/card_intake.py:591-793 | those conditions hold for every send by any entry point; an implicit promotion plans exactly the hard cards, and an event sends only queued stages |
| CardIntakeRuns.ColumnFollowsFurthest | apps/backend/cfactory/card_intake.py:796-851 | after an event the column is blocked, done or in progress by the furthest stage the work item knows and what is still owed |
| CardIntakeRuns.RefusedStartUnchangedIff | apps/backend/cfactory/card_intake.py:699-744 | a refused `run` leaves the card as it was exactly when it refused before queueing or everything outstanding was queued already |
| CardIntakeRuns.StartRefusesAfterQueueing | apps/backend/cfactory/card_intake.py:735-744 | a planned card without a build project is refused with two stages newly queued |
| CardIntakeRuns.EveryRunKeepsInv | apps/backend/cfactory/card_intake.py:398-421 | over every sequence of calls by any entry points, one after the other, a stage in flight or done has a key to join on, and a verification was only ever sent on a completed build |
| CardIntakeRuns.DoneIsAbsorbing | apps/backend/cfactory/card_intake.py:747-764 | a stage recorded done stays done over every sequence of calls |
| CardIntakeRuns.KeyIsWrittenOnce | apps/backend/cfactory/card_intake.py:523-588 | over every sequence of calls the correlation key never changes once written |
| CardIntakeRuns.SendsSeparatedByFailure | apps/backend/cfactory/card_intake.py:523-588 | in every sequence of calls, between two sends of one stage the stage has failed |
| CardIntakeRaces.CallAlone | apps/backend/cfactory/card_intake.py:477-588 | a call taken apart into its reads, its request and its partial writes leaves the card, and sends the stage, that the whole call does when nobody comes in between |
| CardIntakeRaces.UndisturbedKeepsInv | apps/backend/cfactory/card_intake.py:477-588 | over every interleaving of reads and writes of any number of calls in which each write of records finds what its call saw, a stage in flight or done has a key and a verification has a completed build |
| CardIntakeRaces.UndisturbedKeepsDoneAndKey | apps/backend/cfactory/card_intake.py:477-588 | over those interleavings done stays done and the key is written once |
| CardIntakeRaces.NoOverlapKeepsRecords | apps/backend/cfactory/card_intake.py:477-588 | the same at every single read and write of every interleaving in which no two calls overlap, board edits coming in anywhere |
| CardIntakeRaces.NoOverlapSeparatesSends | apps/backend/cfactory/card_intake.py:523-588 | and two sends of one stage are separated by that stage failing |
| CardIntakeRaces.DoublePressSendsTwice | apps/backend/cfactory/card_intake.py:371-372 | pressing a stage twice before the first answer is recorded sends it twice with no failure between, and re-points the key of a card that had none |
| CardIntakeRaces.StaleSendUndoesDone | apps/backend/cfactory/card_intake.py:477-484 | a send that waits while an event settles another stage writes that stage back from done to dispatched |
| CardIntakeRuns.SequenceRunsKeepShape | apps/backend/cfactory/card_intake.py:699-793 | driven by `run` and events alone, records always read: done stages, at most one in flight or failed, then queued or absent ones |
| CardIntakeRuns.FailedStageStopsSends | apps/backend/cfactory/card_intake.py:767-793 | with a failed stage no completion event sends anything |
| CardIntakeRuns.EventsDecrease | apps/backend/cfactory/card_intake.py:747-793 | an event that changes a record strictly decreases a measure |
| CardIntakeRuns.EventsSettle | apps/backend/cfactory/card_intake.py:823-851 | so at most six events change records before `run` is asked for again |
| CardIntakeRuns.FinishedOwesNothing | apps/backend/cfactory/card_intake.py:796-851 | a card an event moves to done has nothing queued or in flight |
| CardIntakeRuns.RejectedAdvanceBlocksIff | apps/backend/cfactory/card_intake.py:845-851 | a card whose advance was rejected ends blocked exactly when its furthest slice is stuck or there is none |
| CardIntakeRuns.DoneThoughUntested | apps/backend/cfactory/card_intake.py:845-851 | a run that ends in done with the verification failed |
| ImportLease.LeaseOnlyMovesForward | apps/backend/cfactory/cards.py:2455-2516 | over every run the stored lease never returns to a value it left |
| ImportLease.EachValueWonOnce | apps/backend/cfactory/cards.py:2475-2516 | under any interleaving and any clocks no value read is won twice |
| ImportLease.WinnersDisjoint | apps/backend/cfactory/cards.py:2455-2516 | the windows of successive winners never overlap |
| ImportLease.UncontendedClaim | apps/backend/cfactory/cards.py:2475-2516 | alone, a poller wins exactly when the lease it finds has expired |
| ImportLease.ImportState.CompareAndSet | apps/backend/cfactory/cards.py:2504-2516 | the update lands exactly when the stored value is still the one read |
| ImportLease.ImportState.ClaimImportLease | apps/backend/cfactory/cards.py:2455-2516 | an uncontended claim wins exactly when the lease is not held, and then stores the new expiry |
| PollBackoff.FailingProjectIsLeftAlone | apps/backend/cfactory/issue_import.py:574-618 | a project failing at every poll, in any mix, is polled at most `4 + (n - 11) / 9` times in its first `n >= 11` cycles, and plain failures reach that |
| PollBackoff.NineCyclesContainAPoll | apps/backend/cfactory/issue_import.py:574-618 | whatever happened before, nine cycles in a row contain a poll |
| PollBackoff.LadderIs | apps/backend/cfactory/issue_import.py:608-618 | the ladder rung by rung: how each outcome counts, and the cycles sat out |
| PollBackoff.RateLimitWaitsLonger | apps/backend/cfactory/issue_import.py:608-618 | a rate limit is sat out for at least four cycles, a first plain failure for one |
| PollBackoff.Backoff.Due | apps/backend/cfactory/issue_import.py:600-606 | a project is due exactly when it has no cycle left to sit out; otherwise one is consumed |
| PollBackoff.Backoff.Record | apps/backend/cfactory/issue_import.py:608-618 | success forgets the project, failure climbs the ladder, others are untouched |
| PollBackoff.Backoff.RunCycle | apps/backend/cfactory/issue_import.py:600-618 | one cycle of the object is one step of the schedule the bounds are proved about |
| CommentSync.NoCommentIsLost | apps/backend/cfactory/issue_import.py:315-435 | if a version a card's last fetch did not see is stamped less than five minutes before that fetch's marker or later, every card a pass refreshes holds every comment visible at that fetch, after any history of passes, failures and new cards |
| CommentSync.NoCommentIsLostOnTime | apps/backend/cfactory/issue_import.py:310-402 | that premise follows from clocks: if the host's stamp lag, the board clock's lead and the length of a fetch together stay within five minutes, no comment visible when a card was read is lost |
| CommentSync.SuccessfulPassBackfills | apps/backend/cfactory/issue_import.py:366-435 | a successful pass reads as many unread cards as the limit allows and unreads none |
| CommentSync.BackfillCompletes | apps/backend/cfactory/issue_import.py:366-435 | `n` unread cards are all read after exactly `ceil(n / backfill_max)` successful passes |
| CommentSync.CommentStore.StoreComments | apps/backend/cfactory/cards.py:970-1029 | when stored, every listed id is on the card with its last entry, every other id is as it was, and the marker is set; a listing that inserts an id twice is refused and changes nothing |
| CommentSync.CommentStore.SyncGroup | apps/backend/cfactory/issue_import.py:375-435 | exactly the answered and storable cards of the group move |
| CommentSync.CommentStore.OldestMarker | apps/backend/cfactory/issue_import.py:366-380 | the marker found is held by a warm card and none is older |
| CommentSync.CommentStore.SyncComments | apps/backend/cfactory/issue_import.py:318-435 | the loop over both groups is one pass of the model, asking from the oldest marker less the overlap; each card whose listing lands shows that listing under the group's stamp, and every other card what it did |
| CommentSync.AsThreadStores | apps/backend/cfactory/cards.py:1000-1021 | an upserted listing leaves the last entry of each listed id and every other id as it was |
| CommentSync.PassStoresEntries | apps/backend/cfactory/issue_import.py:384-420 | a whole pass of replies leaves every asked and listed card showing its listing, and all others untouched |
| IssueWatermark.NewestIsMax | apps/backend/cfactory/issue_import.py:248-254 | the watermark's base is the newest stamp among the issues seen |
| IssueWatermark.WatermarkTrails | apps/backend/cfactory/issue_import.py:248-254 | the watermark moves to sixty seconds behind the newest issue seen, and stays where none was |
| IssueWatermark.NextPassCompletesIff | apps/backend/cfactory/issue_import.py:228-254 | the next incremental pass is sure to leave nothing out if and only if every in-scope version the host shows has been imported or is stamped after the watermark |
| IssueWatermark.BackfillKnowsItsScope | apps/backend/cfactory/issue_import.py:493-550 | what the first pass does not import is what its state filter leaves out |
| IssueWatermark.FullPassLosesIff | apps/backend/cfactory/issue_import.py:463-493 | a full pass leaves a version that no incremental pass is bound to report exactly when one in scope, not yet known, fails the state filter and is stamped at or before the newest stamp returned less the overlap |
| IssueWatermark.DroppedUpdateStaysLost | apps/backend/cfactory/issue_import.py:493-550 | such a version stays lost through any number of incremental passes while the host stands still |
| IssueWatermark.FullPassCanLose | apps/backend/cfactory/issue_import.py:228-254 | with the default filter a closure is lost by one full pass, and its card reads open after any number of later passes |
| IssueWatermark.NoUpdateIsLost | apps/backend/cfactory/issue_import.py:85-88 | over every run of incremental and full passes, edits and host changes stamped less than sixty seconds behind the newest visible stamp, in which no full pass drops a version, one more incremental pass leaves every in-scope live card mirroring its issue |
| IssueWatermark.AllStatesLoseNothing | apps/backend/cfactory/issue_import.py:463-493 | with `import_state=all` nothing is lost over any run, full passes anywhere in it |
| IssueWatermark.LocalEditOverwrittenIffReturned | apps/backend/cfactory/issue_import.py:160-192 | a board edit of a mirrored field is overwritten exactly when the pass returns the issue |
| IssueWatermark.LocalEditMustBeOverwrittenIff | apps/backend/cfactory/issue_import.py:228-254 | a host must return an in-scope issue exactly when it is stamped after the watermark |
| IssueImport.BatchIsPointwise | apps/backend/cfactory/issue_import.py:257-307 | a batch with duplicates gives each issue the card its last version gives, each independently of the others |
| IssueImport.ResultShows | apps/backend/cfactory/issue_import.py:160-225 | field by field what the import makes of a card: title, body, labels, first assignee, milestone, state and the first tier label; the column by the issue unless the card has a key or any dispatch record |
| IssueImport.BatchSaid | apps/backend/cfactory/issue_import.py:521-535 | the same for every number of a listing with pull requests among it |
| IssueImport.LabelNamesTierIff | apps/backend/cfactory/issue_import.py:135-147 | a label names a tier exactly when, in any case, it is the prefix and that tier's word padded with whitespace |
| IssueImport.FirstNamedTierDecides | apps/backend/cfactory/issue_import.py:135-147 | an issue's tier is that of its first label naming one |
| IssueImport.ImportedCardsMirror | apps/backend/cfactory/issue_import.py:195-225 | a live card mirrors its mapping, keeps its column once the factory touched it, is never newly ready, and tombstones and other fields stay |
| IssueImport.ImportedCardsExist | apps/backend/cfactory/issue_import.py:257-307 | after a batch an issue has a card exactly when it had one or a listed version fits the create limits |
| IssueImport.ImportIsIdempotent | apps/backend/cfactory/issue_import.py:257-307 | the same batch again changes nothing |
| IssueImport.SyncAfterImport | apps/backend/cfactory/github_sync.py:228-262 | syncing an imported card with its own snapshot changes nothing exactly when the column agrees with the issue, as it does on untouched cards |
| IssueImport.BoardStore.UpsertIssue | apps/backend/cfactory/issue_import.py:257-307 | one issue is created, updated or skipped; losing the insert to a rival turns into an update of the rival's card |
| IssueImport.BoardStore.ImportBatch | apps/backend/cfactory/issue_import.py:493-550 | a number with no plain issue listed keeps what it had; any other has the card its last plain listing makes, mirrored unless a tombstone; pull requests leave no trace; and the tallies count what was created and skipped |
| CardSync.SyncedCardIsPrinted | apps/backend/cfactory/github_sync.py:228-262 | a sync that succeeds leaves the card mirroring its issue with that issue's printed reference, and touches no other card |
| CardSync.TracksNamedOrOpened | apps/backend/cfactory/github_sync.py:160-186 | the issue tracked is the one the reference named, else the one just opened, under the host's number |
| CardSync.SyncedFields | apps/backend/cfactory/github_sync.py:205-262 | which fields a sync overwrites, when, and with what |
| CardSync.FailureMarksOnly | apps/backend/cfactory/github_sync.py:298-321 | a failed call writes its reason, and `missing` exactly when the host says so, and nothing else |
| CardSync.OnePrintedCardPerIssue | apps/backend/cfactory/github_sync.py:322-333 | over every run of creates, edits and syncs no two cards with printed references track one issue |
| CardSync.SyncRefusedIff | apps/backend/cfactory/github_sync.py:322-333 | a sync is refused exactly when another card holds the printed reference, and then only the error is written |
| CardSync.ResyncChangesNothing | apps/backend/cfactory/github_sync.py:228-262 | after a success the same issue syncs again without a change or a refusal |
| CardSync.SecondSpellingIsRefused | apps/backend/cfactory/github_sync.py:322-333 | of two cards that spell one issue differently, once one is synced the other's sync is refused |
| CardSync.SyncStore.SyncCard | apps/backend/cfactory/github_sync.py:265-343 | failure, refusal and success leave exactly the rows of the model, and a change is reported exactly when there was one |
| CardSync.SyncStore.MirrorDown | apps/backend/cfactory/github_sync.py:228-262 | the changes collected field by field make the mirrored card |
| CardKeys.NextCardKey | apps/backend/cfactory/cards.py:868-885 | the scan's loop returns the next key of the model, or fails where `int` raises |
| CardKeys.NextKeyIsNew | apps/backend/cfactory/cards.py:868-885 | a key is found exactly when every key present can be read; it is then on no card, deleted ones included, and numbered one above the highest |
| CardKeys.EmptyKeyAsksForOne | apps/backend/cfactory/cards.py:852-855 | an empty key asks for an assigned one |
| CardKeys.AssignedKeysAreNew | apps/backend/cfactory/cards.py:842-885 | over every run of creates keys never repeat, and a key is assigned if and only if no caller ever named the prefix followed by `isdigit` characters one of which is not decimal; an assigned key's number is above all before |
| CardKeys.OneKeyStopsAssignment | apps/backend/cfactory/cards.py:881-885 | one card named `FCT-²` makes every later assignment fail, whatever is created afterwards |
| CredentialBinding.DekAadInjective | apps/backend/cfactory/credentials.py:232-265 | the current data-key binding determines tenant and connection for any tenant text |
| CredentialBinding.KekAadInjective | apps/backend/cfactory/credentials.py:232-257 | the current wrapping binding determines tenant, connection and key version |
| CredentialBinding.LayersSeparate | apps/backend/cfactory/credentials.py:254-265 | the two layers never share a binding |
| CredentialBinding.LegacyMeetsCurrentIff | apps/backend/cfactory/credentials.py:232-265 | a legacy binding equals a current one exactly when its tenant spells the other's length-prefixed scope |
| CredentialBinding.LegacyCanMeetCurrent | apps/backend/cfactory/credentials.py:232-251 | such a tenant name exists |
| CredentialBinding.LegacyTenantDetermined | apps/backend/cfactory/credentials.py:254-265 | among legacy bindings under one key version the tenant is determined |
| CredentialEnvelope.UnsealsOnlyWhereSealed | apps/backend/cfactory/credentials.py:288-343 | a current record unseals under exactly its tenant, its connection and a ring with its key, to exactly its secret |
| CredentialEnvelope.LegacyUnsealsPerTenant | apps/backend/cfactory/credentials.py:306-343 | a legacy record unseals under every connection of its tenant and under no other tenant |
| CredentialEnvelope.RelabelledUnsealsIff | apps/backend/cfactory/credentials.py:306-343 | a current record relabelled as legacy unseals only for a tenant spelled like its scope |
| CredentialEnvelope.UnsealRefusals | apps/backend/cfactory/credentials.py:268-343 | why a record does not unseal, each reason exactly when |
| CredentialEnvelope.RewrapKeepsSecret | apps/backend/cfactory/credentials.py:346-369 | a re-wrap reaches the active key with ciphertext, binding and secret kept, legacy records included |
| CredentialEnvelope.ResealKeepsSecret | apps/backend/cfactory/credentials.py:372-391 | a re-seal reaches the current binding with the secret kept |
| CredentialEnvelope.MigrationConverges | apps/backend/cfactory/cards.py:1784-1836 | one migration reaches the active key and the current binding, a second changes nothing, and an interrupted one loses nothing |
| CredentialEnvelope.MigrationLands | apps/backend/cfactory/cards.py:1807-1826 | what stands in the row after none, one or both of the migration's writes |
| CredentialStore.NoSecretIsLost | apps/backend/cfactory/cards.py:1784-1836 | over every sequence of rotations, writes, reads and interrupted migrations, with keys dropped only when unnamed, every record unseals to its secret |
| CredentialRaces.NoSecretIsLost | apps/backend/cfactory/cards.py:1744-1836 | the same over every interleaving of fetches and later landing writes, so long as nobody stores or clears a credential while a read of it has writes on their way |
| CredentialRaces.OvertakenReadRestores | apps/backend/cfactory/cards.py:1807-1826 | a read of a record due to move that is overtaken by a store or a clear puts the old secret back |
| CredentialStore.ReadMigrates | apps/backend/cfactory/cards.py:1744-1836 | after any run, one read moves its record to the active key and current binding and touches no other |
| CredentialStore.UnusedKeyCanGo | apps/backend/cfactory/credentials.py:114-130 | once every record has moved, any old key can be dropped with nothing lost |
| CredentialStore.CredentialTable.Set | apps/backend/cfactory/cards.py:1843-1872 | a credential is sealed for its own tenant and connection, or nothing is written without a key |
| CredentialStore.CredentialTable.MigrateSealed | apps/backend/cfactory/cards.py:1784-1836 | the two guarded writes are the migration the convergence lemma is about |
| CredentialStore.CredentialTable.Fetch | apps/backend/cfactory/cards.py:1744-1782 | a failure yields no secret and leaves the row; a success yields the secret and migrates that row only |
| GitRepositories.EveryRunKeepsValid | apps/backend/cfactory/cards.py:1076-1329 | over every run of calls by any tenants each repository's connection exists and is its tenant's, no host or project repeats, and a default is single, own and never dangling |
| GitRepositories.OthersNeverInterfere | apps/backend/cfactory/cards.py:1129-1329 | a tenant's rows are untouched by any run of other tenants' calls |
| GitRepositories.RemovalTakesExactly | apps/backend/cfactory/cards.py:1129-1168 | a removal takes its row and that connection's repositories and no other; a surviving default stays, a lost one passes to the oldest repository left |
| GitRepositories.AddedRepository | apps/backend/cfactory/cards.py:1190-1213 | when a repository is accepted, what is stored, and whether the default moves to it |
| GitRepositories.MarkedKeepsValid | apps/backend/cfactory/cards.py:1249-1272 | choosing a default leaves exactly the chosen one and every constraint in place |
| GitRepositories.OneDefaultUnlessCleared | apps/backend/cfactory/cards.py:1190-1278 | a tenant has exactly one default iff it has repositories, unless a clear with repositories was not followed by a successful create, delete or choice of its own |
| GitRepositories.OneDefaultIffRepositories | apps/backend/cfactory/cards.py:1190-1278 | without a clear: one default when there are repositories and none otherwise, after any run |
| GitRepositories.ResolveAnswers | apps/backend/cfactory/cards.py:1293-1329 | what resolution answers for every input: own rows only, the default among matches, else the oldest match, else the default, and none exactly when there is neither |
| GitRepositories.ResolveNoneMeansNoRepository | apps/backend/cfactory/cards.py:1311-1313 | for a tenant with its default in place, none means no repository |
| GitRepositories.ClearedTenantResolvesToNone | apps/backend/cfactory/cards.py:1593-1599 | a cleared tenant resolves to none with its repository in place |
| GitRepositories.SavedConfigurationResolves | apps/backend/cfactory/cards.py:1470-1591 | saving a configuration makes exactly it the default, moves at most one connection and loses no repository; saving no project leaves no default |
| GitRepositories.SaveMovesConnection | apps/backend/cfactory/cards.py:1523-1566 | which connection a save lands on: the one naming the host with no row changed, else the default's moved there, else the only one moved, else a new row |
| GitRepositories.AddedConnection | apps/backend/cfactory/cards.py:1076-1095 | a connection is added exactly when none of the tenant's names its host, and as asked |
| GitRepositories.EditedConnection | apps/backend/cfactory/cards.py:1097-1127 | which edits of a connection are refused and how, and what an accepted one changes |
| GitRepositories.RenamedRepository | apps/backend/cfactory/cards.py:1215-1237 | which renames are refused and how, and what an accepted one changes |
| GitRepositories.FlagsMove | apps/backend/cfactory/cards.py:1249-1272 | choosing a default flags that row and unflags the tenant's others, clearing unflags all, and nothing else changes |
| GitTables.Tables.CreateConnection | apps/backend/cfactory/cards.py:1076-1095 | a host is added once per tenant, or refused with nothing changed |
| GitTables.Tables.UpdateConnection | apps/backend/cfactory/cards.py:1097-1127 | an edit lands unless another connection of the tenant names that host |
| GitTables.Tables.DeleteConnection | apps/backend/cfactory/cards.py:1129-1168 | the row loop and the promotion give the deletion the run lemmas are about |
| GitTables.Tables.CreateRepository | apps/backend/cfactory/cards.py:1190-1213 | a repository is added and made default when asked or when there is none |
| GitTables.Tables.UpdateRepository | apps/backend/cfactory/cards.py:1215-1237 | a rename keeps the flag and the connection, or is refused |
| GitTables.Tables.DeleteRepository | apps/backend/cfactory/cards.py:1239-1247 | the row goes and a lost default is replaced by the oldest |
| GitTables.Tables.SetDefaultRepository | apps/backend/cfactory/cards.py:1249-1272 | exactly the chosen row holds the tenant's flag afterwards |
| GitTables.Tables.EnsureDefaultRepository | apps/backend/cfactory/cards.py:1274-1279 | the oldest repository is promoted exactly when none is default |
| GitTables.Tables.ClearDefaultRepository | apps/backend/cfactory/cards.py:1593-1599 | no row holds the tenant's flag, and nothing else changed |
| GitTables.Tables.SetGitConfig | apps/backend/cfactory/cards.py:1470-1521 | the composed calls are the save the resolution lemma is about and keep every constraint |
| GitTables.Tables.ShimConnection | apps/backend/cfactory/cards.py:1523-1566 | the connection chosen and the rows changed are those `SaveMovesConnection` speaks of |
| RepoRefs.PathGrammar | apps/backend/cfactory/git_config.py:120-122 | a project path is two or more segments joined by slashes, and reads in one way only |
| RepoRefs.AcceptedProjectIff | apps/backend/cfactory/git_config.py:249-267 | configuration accepts exactly the texts that strip to a project path, of three segments on Azure DevOps |
| RepoRefs.QualifiedRefParsesIff | apps/backend/cfactory/git_config.py:336-390 | printing then parsing a provider and project gives them back, except a GitHub project that itself reads as qualified |
| RepoRefs.ValidProjectRoundTrips | apps/backend/cfactory/git_config.py:249-267 | every project configuration accepts comes back, under any spelling of its provider |
| RepoRefs.QualifiedRefsDistinct | apps/backend/cfactory/git_config.py:336-347 | two accepted configurations never print the same reference |
| RepoRefs.RefReads | apps/backend/cfactory/git_config.py:375-390 | how any reference is read: blank, qualified by a supported name in any case and spacing, or a GitHub project as it stands |
| RepoRefs.QualifyDefaults | apps/backend/cfactory/git_config.py:336-347 | nothing is printed without a project, and a provider left out is GitHub |
| RepoRefs.ReprintedRefParsesIff | apps/backend/cfactory/git_config.py:333-390 | a reference survives parse, print and parse unless it is read as a GitHub project that reads as qualified |
| RepoRefs.ReprintedRefCanMove | apps/backend/cfactory/git_config.py:375-390 | for every other provider there are references that move to it when printed and read again |
| RepoRefs.IssueGrammar | apps/backend/cfactory/github_sync.py:90-115 | a text is read as a reference exactly when its stripped form is a project path, a hash and digits, and then as that one |
| RepoRefs.PrintedIssueParses | apps/backend/cfactory/github_sync.py:106-115 | every reference is read back from its printed form |
| RepoRefs.ParsersAgree | apps/backend/cfactory/cards.py:139-149 | on every text the issue parser accepts, the store's project half agrees with it and so does the dispatcher's number half |
| RepoRefs.SecondHalf | apps/backend/cfactory/card_intake.py:338-353 | the dispatcher reads the number after the last hash, decimal digits of any script and whitespace around it or not, and fails on a digit that is not decimal |
| RepoRefs.PrintedFormIff | apps/backend/cfactory/cards.py:251-257 | a text is its issue's printed form exactly when nothing surrounds it and its number has no leading zero |
| RowOwners.SelectionIsPerRow | apps/backend/cfactory/progress.py:128-162 | with distinct task ids the whole selection comes down to each row: its newest task if all are stamped, else its live ones, else its last |
| RowOwners.EveryRowHasAWriter | apps/backend/cfactory/progress.py:128-162 | no listed row is without a writer, and a stamped or an all-dead row has exactly one |
| RowOwners.WritersOfAStampedRow | apps/backend/cfactory/progress.py:139-146 | a writer of a fully stamped row has no newer sibling, and a task newer than all siblings is one |
| RowOwners.TieGoesToFirstListed | apps/backend/cfactory/progress.py:139-146 | among equally new tasks of a stamped row the first listed is its only writer |
| RowOwners.WritersOfAnUnstampedRow | apps/backend/cfactory/progress.py:147-157 | a row with a missing stamp is written by exactly its live tasks, or by the last listed when none lives |
| RowOwners.WritersIgnoreListOrder | apps/backend/cfactory/progress.py:128-157 | with distinct stamps, or with a live task, the writers do not depend on the order of the list |
| RowOwners.DeadRowsFollowListOrder | apps/backend/cfactory/progress.py:147-157 | an all-dead row with a missing stamp is written by whichever task is listed last |
| RowOwners.SelectWriters | apps/backend/cfactory/progress.py:133-157 | the loops over dictionaries select exactly the writers the lemmas are about, in order |
| RowOwners.GroupByKey | apps/backend/cfactory/progress.py:133-135 | groups hold each key's tasks in list order, keys in the order first listed |
| InstallTokens.ServedFromRecordedInstall | apps/backend/cfactory/git_install.py:785-815 | after any run a served token is of the recorded install; a cached one has more than 300 seconds left and costs no exchange; the install reads as working exactly when the call was served |
| InstallTokens.NoAccessTokenIsStored | apps/backend/cfactory/git_install.py:696-728 | no run stores an access token, and a mint writes at most a rotated refresh token of a GitLab install |
| InstallTokens.PersistableIsRefresh | apps/backend/cfactory/git_install.py:696-728 | only a GitLab refresh token may be stored from an exchange |
| InstallTokens.MintServedIff | apps/backend/cfactory/git_install.py:817-844 | exactly when a call without a fresh cached token is served, on either host |
| InstallTokens.ServedMintStoresCurrent | apps/backend/cfactory/git_install.py:830-843 | a served GitLab call leaves the host's current refresh token stored, written anew exactly when it was rotated |
| InstallTokens.ConnectLeaves | apps/backend/cfactory/git_config_ops.py:600-630 | what a completed consent leaves, and that a failed one leaves what was there |
| InstallTokens.DisconnectForgets | apps/backend/cfactory/cards.py:2139-2160 | after a disconnect no install, refresh token or cached token is left until somebody connects or pastes again |
| InstallTokens.PresentsCurrentUnlessLapsed | apps/backend/cfactory/git_install.py:817-844 | a presented refresh token is the host's current one if and only if, since the last install, no rotation was dropped and nothing was pasted over it |
| InstallTokens.UndisturbedPresentsCurrent | apps/backend/cfactory/git_install.py:817-844 | over runs whose answers arrive and whose writes succeed, only the current refresh token is presented |
| InstallTokens.LapsedInstallNeedsReconnect | apps/backend/cfactory/git_install.py:661-673 | once behind and out of cache, no number of retries serves a token again |
| InstallTokens.TokenSource.GetToken | apps/backend/cfactory/git_install.py:785-815 | the call returns the model's token and leaves cache, secret, install and host as the model says |
| InstallTokens.TokenSource.MintToken | apps/backend/cfactory/git_install.py:817-844 | a mint touches only the stored secret and the host, and a rotated token is stored before the access token is handed out |
| InstallTokens.TokenSource.Connect | apps/backend/cfactory/git_config_ops.py:600-630 | a completed install replaces the previous one and drops its cached token; a failed consent stores nothing |
| InstallTokens.TokenSource.DeleteInstall | apps/backend/cfactory/cards.py:2139-2160 | the install goes with its refresh token and its cached token |

## Left out

- HTTP, REST and MCP surfaces, WebSockets, schedulers, logging, configuration loading and schema migration: input and output.
- Free text: briefs, rationales, the detail line of an anomaly, actor redaction, error wording, and the service, reference and time kept beside a stage record.
- Providers, work-item adapters and the status taxonomy: their answers are parameters; a slice's status arrives already classed as done, stuck or neither.
- Cryptography and randomness: ideal functions and parameters; two seals choosing one nonce is not modelled, nor the parsing of configured keys.
- Two concurrent `InstallTokenSource.token()` calls, and a source kept across a reconnect: there is no lock in the program, and calls are sequential here.
- Edits of a connection's host beneath a live install, and its deletion: the host of a consent is fixed here.
- Cursors and paging of the audit listing, the redacted view of an entry, and reading the acknowledged set from text.
- Timestamps are naive UTC already: conversion from aware ones is not modelled.
- Matching a project's cards by a `LIKE` prefix, where an underscore matches any character: cards are found by exact project.
- Board edits of a correlation key: they are allowed by the program and break write-once, so the stage-machine runs leave them out.
- Losing the import lease makes a poller skip a cycle: backoff counts only cycles it owns.
- Newest-task hints passed on to the store, hydration, reconciliation and pruning after the writers are selected.
- The install state handshake, authorize addresses, and verifying an installation with the host.
- The label, verification state, intake project and default labels of connections and repositories.
- Overlapping calls on connections, repositories, cards being imported and install tokens, and a crash between two transactions of one such call: each is one step. Overlaps are modelled for audit appends, import leases, intake calls and credential reads.
- Column length limits on updates and on issue references.
- Outside the decimal digits of ASCII and Arabic and the superscript two, the Unicode digit tables are left to a parameter.
- IssueWatermark.NoUpdateIsLost: a host may treat `since` as exclusive, so stamps lag by strictly less than sixty seconds; a truncated listing or an issue that raises is outside the claim.
- CommentSync.NoCommentIsLost: a host may treat `since` as exclusive, so the five minutes are strict; a comment deleted on the host stays on the board, as in the program.
- CredentialRaces.NoSecretIsLost: all calls see one list of keys at a time; replicas started with different lists are not modelled.
- IssueImport.BoardStore.ImportBatch: cards are held by issue number, so two cards whose references spell one issue differently are one card here.
- RowOwners.SelectionIsPerRow: task ids are distinct within one poll; a list that repeats an id can give a dead row two writers.
