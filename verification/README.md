# Stock Profiler: the durable decision ledger, verified

A Dafny model of the parts of Stock Profiler whose purpose is crash safety, idempotence, append-only
history and gating, with proofs that quantify over every table content, every run, every interleaving
and every crash point. `dafny verify dfyconfig.toml` checks the whole project.

| module | models |
|---|---|
| `StageResults`, `Identities`, `LedgerTables` | phase outcomes, durable identities, the ledger's rows, and how a fact is built |
| `StageHistory` | the append-only stage table: occurrence identities, recording, the backfill of a committed fact |
| `EventLineage` | reading an event: its row, its mapping and the event it corrects |
| `ReportGates` | exposing a stored report through gates and clocks computed from the stage history |
| `CommitProtocol` | the single-writer store, commits in mid-transaction, lost acknowledgements, reconciliation, publication |
| `HistorySelection`, `StableOrder`, `OrderedSets` | the monitoring and concentration histories, stable sorting and first occurrences |
| `Migration0004`, `MigratedReads` | the replacement of the event table by non-transactional DDL, its repairs, the legacy backfill, and what the ledger reads afterwards |
| `Migration0007` | the numbering of old events and its undoing |
| `ResearchFacts`, `ResearchProvider`, `ResearchRecovery` | research members as persisted and decoded, the four-stage context provider and its draft guard, and the failure identity that a restart rebuilds |
| `Passkeys` | host grants, challenges, credentials and timed sessions |

SHA-256 identities are injective constructors. JSON documents are values, with a malformed document
as a separate case. Timestamps are integers where their order or arithmetic matters and opaque
strings elsewhere. A SQLite store is its durable tables plus the working rows of the one connection
that holds the write lock; a commit is applied, fails, or is applied with its acknowledgement lost.
The random identities of new challenges and sessions are taken to be new. Clocks, random values, the outcome of a commit
and the answer of the WebAuthn verification are parameters.

## What the proofs found

Each of these is a place where a plausible reading of the code is not what the code does. The model
follows the code, and a lemma says exactly when the reading holds.

- The stored JSON of a case leaves out `recovery_framework_run_id`. A fact whose case carries one, as
  corrections do, is durable after a lost acknowledgement and yet reconciled as a conflict; this is
  said of facts whose cases set no private attributes
  (`AppliedCommitIsReconciled`, `RecoveredFactIsNotRecognized`). Report reconciliation is not
  affected (`AppliedPublicationIsReconciled`).
- A closure failure opens the visibility gate of any report, but supplies no monitoring clock: a
  monitoring report that has only that is gated open and unreadable (`MonitoringClocksMissingIff`).
  The stage table takes such stages; no caller records a closure failure for a monitoring event
  (src/stock_profiler/modules/decision_cases/service.py:4739-4890).
- Monitoring clocks are those of the first success, candidate clocks those of the last one; so only
  the former are fixed by publication (`CandidateClocksFollowLastSuccess`, `CandidateClockMoves`). The
  stage table takes a repeated publication; no caller records a successful one as a repeat.
- The absolute expiry of a session is computed from a second clock read, after `created_at`
  (`CreationBoundsLifetimeIff`).
- The credential is read and its counter written in two transactions, and the write does not compare:
  of two assertions that read the same counter, the later write may take it back
  (`CounterAdvancesIff`, `CounterGoesBack`).
- Members compare equal only with their private attributes, among them the payload they were decoded
  from. The original aggregate research Run delivers payloads that it rebuilds key by key, while its
  recovery replays the persisted ones; so a payload that leaves out, say, its risk flags is refused
  live and recovered as no data failure (`LegacyCodeIsLiveIff`, `LegacyCodesDiffer`). Current and
  historical Runs agree always (`RecoveredCodeIsLive`).
- Migration 0004 accepts an event without stages under any projection contract, the ledger decodes
  one only under the first (`MigratedEventReadableIff`, `OtherContractsAreUnreadable`).
- Undoing and repeating migration 0007 numbers events by row position
  (`RenumberingKeepsOrderIff`, `RenumberingChangesOrder`); ledger runs keep the two orders equal
  (`RunsKeepNumbersIncreasing`); it changes, for one, for a table in which an event got its number
  while an earlier one had none.

## Model

| member | source | states |
|---|---|---|
| `CommitProtocol.RunKeepsLedger` | src/stock_profiler/adapters/persistence/decision_ledger.py:1587-1646 | for every interleaving of any number of connections, with commits that fail or lose their acknowledgement: event numbers stay distinct, every newly durable event outranks all earlier ones, no durable row of any table changes or disappears, and no stored report lacks a confirmed commit or belongs to a shadow scope |
| `CommitProtocol.MaxIsReached` | src/stock_profiler/adapters/persistence/decision_ledger.py:1617-1623 | the maximum is the number of some event and exceeds none; it is missing exactly when no event has a number |
| `CommitProtocol.StepKeepsLedger` | src/stock_profiler/adapters/persistence/decision_ledger.py:956-969 | each atomic step (begin, rollback, commit, mapping, event, stage, report) keeps that invariant and only extends the durable tables |
| `CommitProtocol.StepMeaning` | src/stock_profiler/adapters/persistence/decision_ledger.py:956-969 | nothing becomes durable but by an applied commit, which makes the working rows durable and frees the lock; a rollback loses them; a transaction starts from the durable rows; nobody else counts while the lock is held |
| `CommitProtocol.LockIsExclusive` | src/stock_profiler/adapters/persistence/decision_ledger.py:956-969 | while one connection holds the lock, no steps of the others have any effect |
| `CommitProtocol.WriteKeepsTables` | src/stock_profiler/adapters/persistence/decision_ledger.py:1044-1077 | each write step keeps unique mappings, unique and numbered events, bound stages and gated reports, whether it is accepted or refused |
| `CommitProtocol.AppliedCommitIsReconciled` | src/stock_profiler/adapters/persistence/decision_ledger.py:1678-1691 | after an applied commit, acknowledged or not, and any later run: reconciliation returns the attempted fact if and only if it meets the checks of the reads and its case carries no recovery Run, reports a conflict if and only if it meets them and carries one, and fails if and only if it does not; a fact that met them when it was written still does |
| `CommitProtocol.FailedCommitIsAbsent` | src/stock_profiler/adapters/persistence/decision_ledger.py:1626-1646 | an unapplied commit is reported absent after every later run in which nobody writes that identity |
| `CommitProtocol.ReconciledIff` | src/stock_profiler/adapters/persistence/decision_ledger.py:1678-1691 | reconciliation answers absent, the attempted fact, or a conflict if and only if there is no row, the read returns that fact, or the read returns another |
| `CommitProtocol.IdentityIsSettled` | src/stock_profiler/adapters/persistence/decision_ledger.py:1611-1615 | once an identity has a durable row, readable or not, every later attempt under it, after any run and on any connection, leaves the rows alone: accepted if and only if that row reads back as the attempted fact, refused as different or as unreadable otherwise |
| `CommitProtocol.RecoveredFactIsNotRecognized` | src/stock_profiler/modules/decision_cases/domain.py:1043 | a concrete durable fact whose case carries a recovery Run and whose reconciliation reports a conflict |
| `CommitProtocol.AppliedPublicationIsReconciled` | src/stock_profiler/adapters/persistence/decision_ledger.py:1693-1706 | an applied publication of a durable event is found by report reconciliation after every later run, recovered cases included |
| `CommitProtocol.FailedPublicationIsAbsent` | src/stock_profiler/adapters/persistence/decision_ledger.py:1693-1706 | a publication whose commit was not applied is reported absent after every later run in which nobody publishes that identity |
| `CommitProtocol.ReportIsReconciledIff` | src/stock_profiler/adapters/persistence/decision_ledger.py:1693-1706 | report reconciliation finds nothing if and only if no row has the identity, and otherwise the attempted report, another one or an unreadable one |
| `CommitProtocol.PublishAcceptsIff` | src/stock_profiler/adapters/persistence/decision_ledger.py:1743-1790 | a publication is accepted if and only if it is no shadow, its commit is confirmed, and the identity holds this projection or neither the identity nor the event has a report; only then the projection is added |
| `CommitProtocol.PublishedIdentityIsSettled` | src/stock_profiler/adapters/persistence/decision_ledger.py:1763-1767 | under an identity that has a row, a publication leaves the rows alone: accepted exactly for the stored projection, refused as different or unreadable otherwise |
| `CommitProtocol.SavedMappingAcceptsIff` | src/stock_profiler/adapters/persistence/decision_ledger.py:1045-1077 | a saved mapping accepts a later case if and only if its recovery input matches in one of the two normal forms |
| `CommitProtocol.SavedMappingDecides` | src/stock_profiler/adapters/persistence/decision_ledger.py:1062-1077 | whether a case may go on under any saved mapping, with or without a snapshot; nothing is written over |
| `CommitProtocol.NewMappingIs` | src/stock_profiler/adapters/persistence/decision_ledger.py:1048-1060 | a new mapping is refused if and only if its Run is taken; otherwise exactly its row is added |
| `CommitProtocol.SavedMappingReadsBack` | src/stock_profiler/adapters/persistence/decision_ledger.py:971-1003 | a saved mapping reads back as the case it was saved from, rebound to the Run of its row |
| `CommitProtocol.SavedMappingMakesBindable` | src/stock_profiler/adapters/persistence/decision_ledger.py:1648-1676 | an original fact built from the case whose mapping was just saved meets every lineage check, so its commit reads back |
| `CommitProtocol.CorrectionBindableIff` | src/stock_profiler/modules/decision_cases/service.py:2445-2490 | a correction of a readable original meets the checks if and only if the saved mapping names its case and, with a snapshot, the same legacy input |
| `CommitProtocol.HistoryIsPrefix` | src/stock_profiler/adapters/persistence/decision_ledger.py:927-954 | over every run, a readable history stays readable if and only if every event appended since meets the checks of the reads, and then the later history starts with the present one |
| `CommitProtocol.HistoryIsInSequence` | src/stock_profiler/adapters/persistence/decision_ledger.py:927-954 | the history is every event, read once, in strictly increasing order of its number |
| `CommitProtocol.BindableRunsStayReadable` | src/stock_profiler/adapters/persistence/decision_ledger.py:927-954 | a run in which every written fact was bindable when it was written keeps the whole history readable |
| `CommitProtocol.PublicForever` | src/stock_profiler/adapters/persistence/decision_ledger.py:1792-1802 | a report that is public once stays public over every run with the same identity and content; without a candidate release its result and monitoring clocks never change; a closed candidate report stays closed |
| `CommitProtocol.ExposePersists` | src/stock_profiler/adapters/persistence/decision_ledger.py:1952-2031 | appending stages never makes an exposed report unavailable |
| `CommitProtocol.ExposeKeepsReport` | src/stock_profiler/modules/decision_cases/domain.py:755-850 | exposing a report changes nothing but stages, publication clocks and, for a candidate release, the closed result; it is closed if and only if a closure failure is saved |
| `CommitProtocol.DecisionLedger.constructor` | src/stock_profiler/adapters/persistence/decision_ledger.py:188-191 | a ledger over sound durable tables starts unlocked in the invariant |
| `CommitProtocol.DecisionLedger.CommitAndRelock` | src/stock_profiler/adapters/persistence/decision_ledger.py:1638-1646 | commit, steps of the other connections, lock again: the exact run it performs; the lock is held at the end exactly when the commit was acknowledged and nobody else took it |
| `CommitProtocol.DecisionLedger.CommitEvent` | src/stock_profiler/adapters/persistence/decision_ledger.py:1587-1646 | refusal, idempotent return, write failure, commitment and uncertainty, each with the exact new store; a commitment exactly when it was acknowledged and the lock was free to retake, and the lock is lost exactly when uncertain |
| `CommitProtocol.DecisionLedger.ReconcileEventCommit` | src/stock_profiler/adapters/persistence/decision_ledger.py:1678-1691 | the reply is what a fresh connection reads after the rollback; a busy lock and an unreadable event are told apart; exact new store |
| `CommitProtocol.DecisionLedger.PublishReport` | src/stock_profiler/adapters/persistence/decision_ledger.py:1737-1790 | refusal of shadows and unconfirmed events, idempotent return, publication and uncertainty, each with the exact new store and the exact condition of success; the lock is lost exactly when uncertain |
| `EventLineage.ReadFactsAreBound` | src/stock_profiler/adapters/persistence/decision_ledger.py:1268-1362 | a returned fact is the JSON of its row, agrees with every column, has the one identity its content determines and belongs to the saved mapping of its business object |
| `EventLineage.ReadEventIff` | src/stock_profiler/adapters/persistence/decision_ledger.py:1268-1362 | an event reads back as a fact if and only if its row holds that fact with equal columns and the saved mapping is that of its case: an original with the recovery input, a correction with the legacy input and an original of the same object and Run |
| `EventLineage.CorrectionsHaveDepthOne` | src/stock_profiler/adapters/persistence/decision_ledger.py:1326-1340 | every returned correction points at an event that reads back as an original of the same business object and Run |
| `EventLineage.LongChainsAreRefused` | src/stock_profiler/adapters/persistence/decision_ledger.py:1268-1340 | in any table, two corrections in a row, and so every cycle, make the read of the first an error; the read itself is total on every table |
| `EventLineage.ReadsAreStable` | src/stock_profiler/adapters/persistence/decision_ledger.py:1218-1231 | a fact that was readable once reads back identically in every later state of the tables |
| `EventLineage.ReadsBackIffBindable` | src/stock_profiler/adapters/persistence/decision_ledger.py:1268-1362 | a committed row reads back as its fact if and only if the fact met the mapping and lineage checks |
| `EventLineage.BindableReadsBack` | src/stock_profiler/adapters/persistence/decision_ledger.py:1218-1362 | committing a bindable fact makes every later read return it |
| `LedgerTables.RebuildKeepsBuiltFacts` | src/stock_profiler/adapters/persistence/decision_ledger.py:1571-1586 | submitting a built fact at any later time submits that same fact: member registration is idempotent and all defaults are resolved |
| `LedgerTables.BuiltFactIs` | src/stock_profiler/adapters/persistence/decision_ledger.py:1648-1676 | what a built fact takes from its arguments and what from defaults, and the row that it is written as |
| `LedgerTables.BuiltFactRegisters` | src/stock_profiler/modules/decision_cases/evaluation_registration.py:16-58 | a built original registers exactly its selected members, its members with a probability and its candidates; a correction registers nothing |
| `StageResults.CodesByDecision` | src/stock_profiler/modules/decision_cases/domain.py:2020-2100 | the outcome codes by the decision they stand for |
| `StageResults.DecisionsAgree` | migrations/versions/0004_corrections_and_notification_attempts.py:163-168 | the host reads every outcome code that the migration knows as the migration does |
| `StageHistory.GeneratedIdIsFresh` | src/stock_profiler/adapters/persistence/decision_ledger.py:2069-2085 | a generated stage identity is never already in the table |
| `StageHistory.CallEffect` | src/stock_profiler/adapters/persistence/decision_ledger.py:1364-1423 | a repeat appends exactly one row, a non-repeat appends one exactly when its key is absent, neither fails, and only the end of the table changes |
| `StageHistory.CallsExtend` | src/stock_profiler/adapters/persistence/decision_ledger.py:1364-1463 | over every sequence of calls, generated and supplied identities mixed, the history is only extended at its end and its identities stay bound to their content |
| `StageHistory.SuppliedIdentityIsPinned` | src/stock_profiler/adapters/persistence/decision_ledger.py:1425-1463 | a supplied identity is accepted again with the same content and refused with any other |
| `StageHistory.BackfillCovers` | src/stock_profiler/adapters/persistence/decision_ledger.py:1708-1730 | the backfill of a committed fact covers each of its stages and adds nothing else |
| `StageHistory.BackfillResumes` | src/stock_profiler/adapters/persistence/decision_ledger.py:1708-1730 | stopped after any prefix and started over at any time, the backfill yields the rows of one uninterrupted run |
| `StageHistory.BackfillIsDoneForever` | src/stock_profiler/adapters/persistence/decision_ledger.py:1708-1730 | after a completed backfill and any further recording, repeating it changes nothing |
| `StageHistory.BackfillOpensGate` | src/stock_profiler/adapters/persistence/decision_ledger.py:1936-1950 | the backfill leaves the commit gate open if and only if it was open or the last business-commit stage of the fact succeeded |
| `StageHistory.BackfillBinds` | src/stock_profiler/adapters/persistence/decision_ledger.py:1719-1730 | after the backfill each correction and the last commit of the fact are recorded under the event, each other stage under the Run alone |
| `StageHistory.LatestCommit` | src/stock_profiler/adapters/persistence/decision_ledger.py:1710-1717 | the position of the last business-commit stage, or none when there is none |
| `StageHistory.StageTable.InsertOrValidateStage` | src/stock_profiler/adapters/persistence/decision_ledger.py:1425-1463 | the table after inserting a new identity or checking an old one |
| `StageHistory.StageTable.RecordStageResult` | src/stock_profiler/adapters/persistence/decision_ledger.py:1364-1423 | the occurrence count and its insert compute the specified recording; the time is returned exactly when a row was written |
| `StageHistory.StageTable.EnsureEventStageResults` | src/stock_profiler/adapters/persistence/decision_ledger.py:1708-1730 | the loop computes the specified backfill |
| `ReportGates.PublicReadIff` | src/stock_profiler/adapters/persistence/decision_ledger.py:1878-1934 | a public read returns a report if and only if its row, a readable event, a bound successful commit and a bound publication or closure failure exist, its JSON is the projection of the event, and its clocks exist; it then returns that projection exposed through the saved stages |
| `ReportGates.StoredReportIff` | src/stock_profiler/adapters/persistence/decision_ledger.py:1905-1934 | a stored report is returned if and only if its event is readable, its identity is the one that the event determines, and its JSON and time are those of the projection |
| `ReportGates.GatesAreClocks` | src/stock_profiler/adapters/persistence/decision_ledger.py:1936-1950 | the commit gate is open exactly when a commit clock exists, the visibility gate exactly when a publication clock or a closure failure does |
| `ReportGates.GateMeaning` | src/stock_profiler/adapters/persistence/decision_ledger.py:2033-2045 | both gates in terms of the rows: phase, status and the two reasons that close a candidate report |
| `ReportGates.CandidateClocksExist` | src/stock_profiler/adapters/persistence/decision_ledger.py:1969-2007 | for a gated candidate report neither missing-clock error can be reached |
| `ReportGates.MonitoringClocksMissingIff` | src/stock_profiler/adapters/persistence/decision_ledger.py:2010-2031 | a gated monitoring report is refused for missing clocks if and only if it has no candidate release and no successful publication is saved |
| `ReportGates.MonitoringClosureFailureIsUnreadable` | src/stock_profiler/adapters/persistence/decision_ledger.py:2033-2045 | two recorded stages, a commit and a closure failure of a monitoring event, pass both gates and leave it refused |
| `ReportGates.ClosureFailureOverrides` | src/stock_profiler/adapters/persistence/decision_ledger.py:1969-1987 | after a closure failure, later stages that are not closure failures change nothing in the exposed candidate report |
| `ReportGates.ClosedClocks` | src/stock_profiler/adapters/persistence/decision_ledger.py:1969-1987 | a closed candidate report shows the clock of its first confirmed commit, and clock and first reason of its last closure failure |
| `ReportGates.PublishedClocks` | src/stock_profiler/adapters/persistence/decision_ledger.py:1989-2007 | a published candidate report shows its history and the clocks of its last commit and its last publication |
| `ReportGates.MonitoringClocksAre` | src/stock_profiler/adapters/persistence/decision_ledger.py:2010-2031 | a monitoring report shows its history and the clocks of its first commit and its first publication |
| `ReportGates.PlainIsShown` | src/stock_profiler/adapters/persistence/decision_ledger.py:1988-2008 | any other report is shown with its publication history alone |
| `ReportGates.MonitoringClocksAreFixed` | src/stock_profiler/adapters/persistence/decision_ledger.py:2010-2031 | the clocks of a published monitoring report never change as stages are appended |
| `ReportGates.CandidateClocksFollowLastSuccess` | src/stock_profiler/adapters/persistence/decision_ledger.py:1989-2007 | the clocks of a published candidate report stay if and only if no appended success brings another clock |
| `ReportGates.CandidateClockMoves` | src/stock_profiler/adapters/persistence/decision_ledger.py:1989-2007 | three recorded stages, the last a repeated publication, move the publication clock of a candidate report |
| `ReportGates.MonitoringClocks` | src/stock_profiler/adapters/persistence/decision_ledger.py:2012-2021 | the loop keeps, for each phase, the clock of its first success |
| `ReportGates.HistoryIsShown` | src/stock_profiler/modules/decision_cases/domain.py:755-796 | a published original shows its own stages and exactly the failed attempts to publish it; a correction shows exactly the correction stages that were saved, if any, beside its other stages; an unpublished report is left alone |
| `ReportGates.ClosedReportHasNoCandidates` | src/stock_profiler/modules/decision_cases/domain.py:798-850 | a closed candidate report names no candidate and is otherwise the same release: members, reasons with the failure added once, and the stages but for the publications, for which the failure stands |
| `ReportGates.CorrectionPhases` | src/stock_profiler/modules/decision_cases/domain.py:776-782 | the phases whose saved stages a correction shows |
| `ReportGates.ReportRepeatsEvent` | src/stock_profiler/modules/decision_cases/domain.py:968-999 | a stored report repeats identities, versions, scope and result of its event; a later contract also its stages and lineage, the first neither; and it has the one identity that its event determines |
| `HistorySelection.MonitoringHistory` | src/stock_profiler/adapters/persistence/decision_ledger.py:675-706 | the loop with its mutable latest assessment computes the selection |
| `HistorySelection.CorrectionsFollowTheirTarget` | src/stock_profiler/adapters/persistence/decision_ledger.py:694-706 | every selected correction corrects the assessment selected immediately before it |
| `HistorySelection.SelectsNextIff` | src/stock_profiler/adapters/persistence/decision_ledger.py:694-706 | the next fact is selected, at the end, if and only if it is no assessment, an original, or a correction of the last selected assessment |
| `HistorySelection.CorrectedAssessmentIsOriginal` | src/stock_profiler/adapters/persistence/decision_ledger.py:694-706 | with depth-one lineage that assessment is an original |
| `HistorySelection.ReadCorrectionsFollowOriginals` | src/stock_profiler/adapters/persistence/decision_ledger.py:675-706 | the same for the history read from any table: the lineage check of the reads supplies the depth |
| `HistorySelection.OnlyCorrectionsAreDropped` | src/stock_profiler/adapters/persistence/decision_ledger.py:694-706 | originals and facts that are no assessments are all kept, in order |
| `HistorySelection.SelectionExtends` | src/stock_profiler/adapters/persistence/decision_ledger.py:675-706 | the selection on a longer log extends the selection on its prefix |
| `HistorySelection.MonitoringHistoryExtends` | src/stock_profiler/adapters/persistence/decision_ledger.py:675-706 | over every run of the ledger whose appended facts are bindable, the monitoring history seen later exists and starts with the one seen now |
| `HistorySelection.LatestObligations` | src/stock_profiler/adapters/persistence/decision_ledger.py:831-837 | stable sort and dictionary overwrite compute, for exactly the issuers with an obligation, the entry that is maximal by cutoff, event order and position |
| `HistorySelection.OverwriteWith` | src/stock_profiler/adapters/persistence/decision_ledger.py:832-837 | overwriting with one more outcome keeps the map the latest one |
| `HistorySelection.LatestIsUnique` | src/stock_profiler/adapters/persistence/decision_ledger.py:832-837 | that map is unique |
| `HistorySelection.WideningOnlyAdds` | src/stock_profiler/adapters/persistence/decision_ledger.py:811-849 | widening the accounts only adds outcomes, in order, and can only clear the uncovered-obligation flag |
| `HistorySelection.ShownIffCovered` | src/stock_profiler/adapters/persistence/decision_ledger.py:838-843 | the shown outcomes are exactly those all of whose accounts were asked for |
| `HistorySelection.UncoveredIff` | src/stock_profiler/adapters/persistence/decision_ledger.py:844-848 | the flag is raised if and only if the latest obligation of some issuer is to reduce and has an account that was not asked for |
| `StableOrder.SortContents` | src/stock_profiler/adapters/persistence/decision_ledger.py:831 | the sort is a permutation |
| `StableOrder.SortInOrder` | src/stock_profiler/adapters/persistence/decision_ledger.py:831 | the sort orders by key and keeps the input order of equal keys |
| `StableOrder.SortAppendLargest` | src/stock_profiler/adapters/persistence/decision_ledger.py:936-943 | entries that outrank all earlier ones are read after them |
| `Migration0004.CrashesDoNotMatter` | migrations/versions/0004_corrections_and_notification_attempts.py:999-1005 | with a stop after any durable step, any number of times, a later completed upgrade yields exactly the database of an uninterrupted one: event rows with lineage and stage history |
| `Migration0004.EveryStateIsOnTheWay` | migrations/versions/0004_corrections_and_notification_attempts.py:990-996 | at every durable point of an upgrade, the table chosen as authoritative holds every original event row, and the history is the old one extended by a prefix of the plan |
| `Migration0004.CompletedUpgrade` | migrations/versions/0004_corrections_and_notification_attempts.py:788-845 | an uninterrupted upgrade ends in the canonical table with the same rows, the backfilled history and the notification table |
| `Migration0004.RefusedUpgrade` | migrations/versions/0004_corrections_and_notification_attempts.py:523-581 | a refused upgrade changes nothing; one that meets a foreign notification table has done everything else |
| `Migration0004.UpgradeIsNotAtomic` | migrations/versions/0004_corrections_and_notification_attempts.py:788-845 | the states that make the repairs necessary exist: an empty new table beside the full old one, and the old one gone before the new one has its name |
| `Migration0004.PreflightMeans` | migrations/versions/0004_corrections_and_notification_attempts.py:246-290 | an event passes preflight if and only if it is a validated original with the expected result, legal stages with a passed validation and a saved commit, the identities of its row, and a mapping of its case, input and Run |
| `Migration0004.LegalByStatus` | migrations/versions/0004_corrections_and_notification_attempts.py:210-243 | the phases that each stage status is legal for |
| `Migration0004.ImpliedStagesAreValid` | migrations/versions/0004_corrections_and_notification_attempts.py:143-188 | the stages that a stage-less document implies always pass the stage checks |
| `Migration0004.PlanIs` | migrations/versions/0004_corrections_and_notification_attempts.py:638-707 | what the backfill records: the implied stages of the stage-less events, the commit under the event and the others under the Run, and the publications of the stage-less reports, with their own times |
| `Migration0004.PlanIsChronological` | migrations/versions/0004_corrections_and_notification_attempts.py:638-707 | first the events in the order of their commits, then the reports in the order of their times |
| `Migration0004.AppendAllResumes` | migrations/versions/0004_corrections_and_notification_attempts.py:584-707 | the content-addressed backfill stopped after any entry and started over yields the same rows, clocks included |
| `Migration0004.NoEventIsLost` | migrations/versions/0004_corrections_and_notification_attempts.py:1008-1056 | any mix of interrupted and completed upgrades and downgrades loses no event row and no stage |
| `Migration0004.NoAttemptIsLost` | migrations/versions/0004_corrections_and_notification_attempts.py:1012-1028 | any mix of interrupted and completed upgrades and downgrades keeps the notification attempts |
| `Migration0004.DowngradeKeepsEvents` | migrations/versions/0004_corrections_and_notification_attempts.py:975-987 | every durable state of a downgrade holds the same event rows and stages |
| `Migration0004.CompletedDowngrade` | migrations/versions/0004_corrections_and_notification_attempts.py:1008-1056 | a downgrade ends without lineage, replacement and notification table if and only if there are no attempts to lose and, with a lineage column, no correction in it and no two events of one Run |
| `Migration0004.RefusedDowngrade` | migrations/versions/0004_corrections_and_notification_attempts.py:1008-1026 | a downgrade that does not complete leaves the event table in place |
| `Migration0004.DowngradeThenUpgrade` | migrations/versions/0004_corrections_and_notification_attempts.py:1008-1056 | a completed downgrade followed by a completed upgrade is the identity on event rows |
| `Migration0004.CommitGateAfter` | migrations/versions/0004_corrections_and_notification_attempts.py:638-677 | after the migration the commit gate of an event is open if and only if it was before or the payload predates embedded stages |
| `Migration0004.VisibilityGateAfter` | migrations/versions/0004_corrections_and_notification_attempts.py:678-707 | after the migration the visibility gate is open if and only if it was before or a stored report predates embedded stages |
| `Migration0004.LegacyReportsStayReadable` | migrations/versions/0004_corrections_and_notification_attempts.py:143-188 | every event and report that pass preflight and predate embedded stages satisfy both read gates afterwards |
| `Migration0004.Migrator.Upgrade` | migrations/versions/0004_corrections_and_notification_attempts.py:999-1005 | the upgrade stopped after any number of durable steps is in exactly that state of the specified run |
| `Migration0004.Migrator.Downgrade` | migrations/versions/0004_corrections_and_notification_attempts.py:1008-1056 | likewise for the downgrade, with its guards and its unique-Run violation; no event row is lost |
| `Migration0004.Migrator.ReplaceEventTable` | migrations/versions/0004_corrections_and_notification_attempts.py:788-845 | create, copy, drop and rename, stoppable after each |
| `Migration0004.Migrator.EnsureEventCorrectionLineage` | migrations/versions/0004_corrections_and_notification_attempts.py:788-845 | a canonical table is left alone, any other is replaced |
| `Migration0004.Migrator.AppendLegacyStageHistory` | migrations/versions/0004_corrections_and_notification_attempts.py:638-707 | the loop records the plan entry by entry, stoppable after each |
| `MigratedReads.MigratedEventReadableIff` | migrations/versions/0004_corrections_and_notification_attempts.py:523-581 | what the ledger reads for an event that passed preflight: its document, if its stages are embedded or its projection contract is the first one, and its row corrects nothing; otherwise the exact error |
| `MigratedReads.MigratedReportPublicIff` | migrations/versions/0004_corrections_and_notification_attempts.py:293-317 | after the migration a report that passed preflight, under any contract, and whose event the ledger can decode is public, as it was stored, if and only if both gates of its event are open |
| `MigratedReads.LegacyReportsArePublic` | migrations/versions/0004_corrections_and_notification_attempts.py:458-488 | every report that passes preflight and predates embedded stages is publicly readable after the migration, as the report that was stored with its failed publications around it |
| `MigratedReads.OtherContractsAreUnreadable` | migrations/versions/0004_corrections_and_notification_attempts.py:523-581 | for every projection contract but the first, a database with one event without stages that passes preflight and whose event the ledger cannot decode after the upgrade |
| `MigratedReads.MigratedIsSoundIff` | migrations/versions/0007_decision_event_sequence.py:17-38 | a database upgraded by 0004 and numbered by 0007 meets the invariant of the ledger, so that its theorems apply, if and only if every report whose event has embedded stages had a confirmed commit |
| `MigratedReads.FirstContractPasses` | migrations/versions/0004_corrections_and_notification_attempts.py:246-290 | a database of the first contract with an event and a report that predate embedded stages passes preflight |
| `Migration0007.BackfillNumbersAll` | migrations/versions/0007_decision_event_sequence.py:88-112 | the completed backfill leaves no row without a number and no number twice; existing numbers stay; new ones exceed the old maximum and increase with the rowid |
| `Migration0007.BackfillResumes` | migrations/versions/0007_decision_event_sequence.py:88-112 | stopping after any update and running again gives the assignment of one uninterrupted run |
| `Migration0007.StopsDoNotMatter` | migrations/versions/0007_decision_event_sequence.py:88-112 | the same for any number of interrupted runs |
| `Migration0007.EventTable.BackfillEventSequences` | migrations/versions/0007_decision_event_sequence.py:88-112 | the loop, stopped after any number of updates, has numbered exactly the first rows of the specified assignment |
| `Migration0007.RenumberedByPosition` | migrations/versions/0007_decision_event_sequence.py:40-85 | after a downgrade and an upgrade every event is numbered by its row position |
| `Migration0007.RenumberingKeepsOrderIff` | migrations/versions/0007_decision_event_sequence.py:40-85 | that keeps the order of event reads if and only if the numbers increased with the row position |
| `Migration0007.RenumberingChangesOrder` | migrations/versions/0007_decision_event_sequence.py:88-112 | any two events, the first without a number although the second has one: backfilled against the row order, and turned round by undoing and repeating the migration |
| `Migration0007.RunsKeepNumbersIncreasing` | src/stock_profiler/adapters/persistence/decision_ledger.py:1616-1636 | every run of the ledger keeps the numbers increasing with the row position |
| `Migration0007.DowngradeResumes` | migrations/versions/0007_decision_event_sequence.py:115-127 | from every durable state of a downgrade the next one ends as the uninterrupted one, and in every state the table that a repair goes on with holds every event |
| `Migration0007.DowngradedIs` | migrations/versions/0007_decision_event_sequence.py:40-85 | a downgraded database has one table, without the column, and every event in it |
| `Migration0007.DowngradeCrashesDoNotMatter` | migrations/versions/0007_decision_event_sequence.py:40-85 | the same for any number of interrupted downgrades |
| `ResearchRecovery.RecoveredCodeIsLive` | src/stock_profiler/adapters/m_agent/frozen_decision_case.py:512-544 | for every command, current or historical, with or without a fixed member, and whatever the run had saved when the provider was asked: the failure code rebuilt after a restart is the one that the call set, no failure included |
| `ResearchRecovery.LegacyCodeIsLiveIff` | src/stock_profiler/adapters/m_agent/frozen_decision_case.py:1592-1637 | the recovery of the original aggregate Run finds the code of the live provider if and only if the command fails its data anyway, some member does not validate from its own payload, or every persisted payload has exactly the keys that the live item rebuilds |
| `ResearchRecovery.CodesMean` | src/stock_profiler/adapters/m_agent/frozen_decision_case.py:525-544 | the two failure codes, live and recovered, told apart by the command |
| `ResearchRecovery.LegacyCodesDiffer` | src/stock_profiler/adapters/m_agent/frozen_decision_case.py:1021-1067 | a command of ten members that the contract admits, whose payloads leave out the risk flags: refused live as incomplete, and recovered as no data failure |
| `ResearchRecovery.RebuiltIsPersistedIff` | src/stock_profiler/adapters/m_agent/frozen_decision_case.py:823-891 | the rebuilt payload of a decoded member is its persisted one if and only if signals and flags are there and manifest, cutoff and facts are there together or not at all |
| `ResearchProvider.EveryStageCarriesTheFacts` | src/stock_profiler/adapters/m_agent/frozen_decision_case.py:304-449 | for every member list and every run, with restarts, repeated and stale calls, each saved stage output carries exactly the security and evidence identities of the expected members |
| `ResearchProvider.EachCallAdvances` | src/stock_profiler/adapters/m_agent/frozen_decision_case.py:304-365 | for every command that meets its contract and every member of it that may be fixed: with the data there and complete, in every reachable state a call delivers the first incomplete stage and saving it completes exactly that stage; otherwise nothing is ever saved |
| `ResearchProvider.GuardAcceptsSavedDraft` | src/stock_profiler/adapters/m_agent/frozen_decision_case.py:648-701 | for every such command and member, the draft guard accepts what any run of the provider built, given every saved stage output |
| `ResearchProvider.GuardIff` | src/stock_profiler/adapters/m_agent/frozen_decision_case.py:648-701 | for every context the guard decides by its first draft alone: accepted if and only if that comes from the debate, was built over items of the context, and covers exactly the securities and evidence of the fixed member or of all members; invalid otherwise; unavailable without a draft |
| `ResearchProvider.NextStageIs` | src/stock_profiler/adapters/m_agent/frozen_decision_case.py:359-449 | when a later stage delivers, what it delivers, and how it fails otherwise, whatever its input holds |
| `ResearchProvider.ProvidersAreFromCommand` | src/stock_profiler/adapters/m_agent/frozen_decision_case.py:1676-1688 | the items selected for a fixed member of a command are that member's own |
| `ResearchProvider.FactsCarry` | src/stock_profiler/adapters/m_agent/frozen_decision_case.py:452-509 | validated items carry exactly the identities of the expected members |
| `ResearchProvider.ValidationImpliesOnePerSecurity` | src/stock_profiler/adapters/m_agent/frozen_decision_case.py:462-486 | validation of a command's own items leaves one member per security, up to equal duplicates |
| `ResearchFacts.ValidateContextItems` | src/stock_profiler/adapters/m_agent/frozen_decision_case.py:452-509 | the validating loop returns the first failed check in source order, or none, in each of the three modes |
| `ResearchFacts.ValidationPassesIff` | src/stock_profiler/adapters/m_agent/frozen_decision_case.py:452-509 | a list of items passes if and only if each decodes to its own expected member, private attributes included, and that member is complete |
| `ResearchFacts.RefusedFor` | src/stock_profiler/adapters/m_agent/frozen_decision_case.py:467-506 | the reason for which an item is refused is that of the first failing check, in the order of the checks |
| `ResearchFacts.DecodesIff` | src/stock_profiler/modules/research/contracts.py:2540-2625 | when a payload decodes in each of the three modes |
| `ResearchFacts.DecodesTo` | src/stock_profiler/modules/research/contracts.py:2540-2625 | what it decodes to, defaults and private attributes included |
| `ResearchFacts.Decode` | src/stock_profiler/modules/research/contracts.py:1945-2000 | a decoded member has evidence with distinct identities, and its manifest accounts for exactly those |
| `ResearchFacts.BuiltIsGenuine` | src/stock_profiler/adapters/m_agent/frozen_decision_case.py:782-820 | a member of the current contract survives its own JSON |
| `ResearchProvider.ReadInputs` | src/stock_profiler/adapters/m_agent/frozen_decision_case.py:363-386 | the accumulating loop returns both identity lists, or none on malformed JSON |
| `ResearchProvider.ContextProvider.constructor` | src/stock_profiler/adapters/m_agent/frozen_decision_case.py:278-299 | a new provider carries no failure code |
| `ResearchProvider.ContextProvider.ProvideItems` | src/stock_profiler/adapters/m_agent/frozen_decision_case.py:304-449 | the reply is the specified one and the failure code changes exactly on a data failure |
| `ResearchProvider.Active` | src/stock_profiler/adapters/m_agent/frozen_decision_case.py:322-337 | the first incomplete stage: all stages before it are completed and it is not |
| `OrderedSets.Dedup` | src/stock_profiler/adapters/m_agent/frozen_decision_case.py:395-396 | the same identities, each once |
| `OrderedSets.DedupKeepsOrder` | src/stock_profiler/adapters/m_agent/frozen_decision_case.py:395-396 | in the order of their first occurrences |
| `ResearchProvider.Newest` | src/stock_profiler/adapters/m_agent/frozen_decision_case.py:352-358 | the checkpoint of the previous stage with the greatest boundary |
| `Passkeys.AcceptedSessionIsLive` | src/stock_profiler/adapters/authentication/passkeys.py:228-258 | on every run with a monotone clock an accepted session belongs to an enrolled credential and is used strictly before the expiry reading of its login plus the absolute lifetime, whatever refreshes and reauthentications followed; it was active within the idle lifetime; and if recency is demanded, its own credential was proved by a verified assertion within the recency lifetime |
| `Passkeys.LoginsWereAsserted` | src/stock_profiler/adapters/authentication/passkeys.py:185-226 | every login and reauthentication follows a verified assertion of that credential, for a challenge of the purpose it names that served for nothing before |
| `Passkeys.SessionsAreEnrolled` | src/stock_profiler/adapters/authentication/passkeys.py:185-226 | on every run, the credential of every stored session is enrolled |
| `Passkeys.ChallengesAreConserved` | src/stock_profiler/adapters/authentication/passkeys.py:347-389 | a challenge identity is issued at most once; what was issued is outstanding or was consumed exactly once, across all purposes; and a consumed challenge enrolls, logs in or reauthenticates at most once |
| `Passkeys.CookieAge` | src/stock_profiler/adapters/authentication/passkeys.py:455-459 | whole seconds that end no later than the session, and no second fewer |
| `Passkeys.PasskeyAuthenticator.RegistrationOptions` | src/stock_profiler/adapters/authentication/passkeys.py:131-143 | a registration challenge is issued exactly against an active grant, with any transactions of others between check and insert |
| `Passkeys.PasskeyAuthenticator.RegistrationVerify` | src/stock_profiler/adapters/authentication/passkeys.py:145-164 | an accepted challenge is used up whatever follows; whatever others do in between, the grant goes and the credential comes together, exactly after a verified response for a grant that is still active |
| `Passkeys.PasskeyAuthenticator.AuthenticationOptions` | src/stock_profiler/adapters/authentication/passkeys.py:166-183 | a challenge is issued exactly when a passkey is enrolled |
| `Passkeys.PasskeyAuthenticator.AuthenticationVerify` | src/stock_profiler/adapters/authentication/passkeys.py:185-192 | whatever others do between its transactions, a session is opened exactly for a verified assertion of an enrolled credential against a live challenge of the given purpose |
| `Passkeys.PasskeyAuthenticator.VerifyAssertion` | src/stock_profiler/adapters/authentication/passkeys.py:194-226 | the challenge is used up; whatever others do between consumption, read and update, the counter is set to the verified count and the credential is proved exactly for a credential that was found with a verified response |
| `Passkeys.CounterIsLast` | src/stock_profiler/adapters/authentication/passkeys.py:219-225 | over every run, the counter of a credential is the count of its last assertion that took effect |
| `Passkeys.CounterAdvancesIff` | src/stock_profiler/adapters/authentication/passkeys.py:201-225 | an assertion verified against a smaller count leaves a larger one than it finds if and only if the last assertion of that credential since the read, if any, brought less |
| `Passkeys.CounterGoesBack` | src/stock_profiler/adapters/authentication/passkeys.py:201-225 | two requests that read the same count and are each verified above it: the second write takes the counter back |
| `Passkeys.PasskeyAuthenticator.RequireSession` | src/stock_profiler/adapters/authentication/passkeys.py:228-258 | acceptance as specified, with the credential and the cookie lifetime |
| `Passkeys.PasskeyAuthenticator.RequireMutableSession` | src/stock_profiler/adapters/authentication/passkeys.py:286-307 | the check returns credential and cookie lifetime exactly for a live session with its own CSRF token |
| `Passkeys.PasskeyAuthenticator.CreateSession` | src/stock_profiler/adapters/authentication/passkeys.py:327-345 | a new session under a new token for a proved credential, with both clock reads |
| `Passkeys.SessionsAreExplained` | src/stock_profiler/adapters/authentication/passkeys.py:260-345 | every stored session is explained by steps that took effect: a login, an activity and a proof at its clocks |
| `Passkeys.SessionClocksAreLast` | src/stock_profiler/adapters/authentication/passkeys.py:260-345 | over every run, a session is stored if and only if its token logged in and has not logged out since, and its clocks are those of the last steps that set them |
| `Passkeys.AcceptedIff` | src/stock_profiler/adapters/authentication/passkeys.py:228-258 | on every run, a session is accepted if and only if it is stored, before the expiry that its last login fixed, within the idle lifetime of its last activity and, if demanded, within the recency lifetime of its last proof |
| `Passkeys.MayMutateIff` | src/stock_profiler/adapters/authentication/passkeys.py:416-424 | a change of a session needs the token, a live session, and that session's CSRF token |
| `Passkeys.WritesWereChecked` | src/stock_profiler/adapters/authentication/passkeys.py:260-307 | the check and the write of a session are separate transactions: every write that advances a clock was preceded by a check at which the session was live, and carries the credential that the session still has |
| `Passkeys.CreationBoundsLifetimeIff` | src/stock_profiler/adapters/authentication/passkeys.py:327-345 | the saved creation time plus the absolute lifetime bounds a session if and only if the two clock reads of its login agree |
| `Passkeys.GrantsAreConserved` | src/stock_profiler/adapters/authentication/passkeys.py:110-164 | grants minted equal grants outstanding plus credentials enrolled, relative to the starting tables, on every run |
| `Passkeys.EnrolledGrantIsFresh` | src/stock_profiler/adapters/authentication/passkeys.py:403-414 | a credential is enrolled only against a grant minted with a configured secret less than its lifetime ago |
| `Passkeys.ConsumedChallengeIsFresh` | src/stock_profiler/adapters/authentication/passkeys.py:367-389 | a challenge is consumed only for the purpose it was issued for and within its lifetime |
| `Passkeys.PasskeyAuthenticator.constructor` | src/stock_profiler/adapters/authentication/passkeys.py:105-108 | a new authenticator over empty tables |
| `Passkeys.PasskeyAuthenticator.CreateHostConsoleGrant` | src/stock_profiler/adapters/authentication/passkeys.py:110-129 | a grant is minted exactly when the secret of its purpose is configured |
| `Passkeys.PasskeyAuthenticator.RefreshSession` | src/stock_profiler/adapters/authentication/passkeys.py:260-269 | check, transactions of other requests, write: a session that is still stored is last seen now and nothing else changes; one that ended in between is not revived |
| `Passkeys.PasskeyAuthenticator.ReauthenticateSession` | src/stock_profiler/adapters/authentication/passkeys.py:271-284 | likewise, and refused without a write when the credential is not that of the session |
| `Passkeys.PasskeyAuthenticator.EndSession` | src/stock_profiler/adapters/authentication/passkeys.py:309-325 | the session is gone exactly when the check passed |
| `Passkeys.PasskeyAuthenticator.SaveChallenge` | src/stock_profiler/adapters/authentication/passkeys.py:347-365 | a new challenge under a new identity |
| `Passkeys.PasskeyAuthenticator.ConsumeChallenge` | src/stock_profiler/adapters/authentication/passkeys.py:367-389 | the challenge is returned and gone exactly when it exists, has the purpose and is not expired |

## Left out

- The M-Agent runner, its run store, leases and policies: a third-party library; only its checkpoints appear, as input to the provider.
- The WebAuthn cryptography: its verdict is a parameter.
- SQL text, reflection and PRAGMA inspection in the migrations: a schema is one of four tags, and `INSERT … SELECT` is one durable step.
- Migrations 0001, 0002, 0003, 0005 and 0006: table and column creation with single guards.
- Rows with equal sort columns in an `ORDER BY` without a tie-break are taken in insertion order.
- The ledger's per-scope history filters, `position_snapshot_is_latest` and the notification attempts: one comprehension or one insert each.
- The scope filter inside `monitoring_history` is any per-fact view that keeps identity and lineage; the filter's own conditions are not modelled.
- CommitProtocol.DecisionLedger.PublishReport: without the audit row that a refused shadow publication leaves in another table.
- The contents of a report's body and of case documents beyond the fields that some check compares are opaque text.
- ResearchProvider.GuardAcceptsSavedDraft: assumes that the framework passes every saved stage output, and no other draft, to the model; the guard's branch for legacy drafts is not modelled, because every definition with that guard builds it for current drafts.
- ResearchFacts.Decode: the numeric and clock checks of the member contract are one predicate over the payload, taken as a parameter; a key with a null value is not told apart from a missing one.
- Stage artifacts of historical Runs differ from current ones in text fields only, which are not modelled.
- CommitProtocol.AppliedCommitIsReconciled: not for facts of legacy and historical research cases, whose decoders set private attributes that equality compares.
- ReportGates.ClosedReportHasNoCandidates: the summary, the population and availability of the release, and the members' own reasons, which closing also rewrites, are not modelled.
- ReportGates.StoredReportIff: compares documents where the source compares their canonical JSON text.
- In `MigratedReads` the commit time inside an event document is taken to be that of its row; no check compares the two.
- MigratedReads.LegacyReportsArePublic: assumes distinct report identities, which are the primary key, and a timestamp rendering that is never empty.
- Everything under `web/` and `scripts/`, settings, logging, versioning and process entry points.
