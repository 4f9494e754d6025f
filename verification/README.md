# Krenalis: verified models of its stateful core

Krenalis moves the data of customers between applications, databases, files and a warehouse. Many nodes work on one
PostgreSQL store, and its correctness rests on guarded updates, row locks and a few careful loops. This project
models these parts and proves what they promise, over every input and every interleaving.

Two forms are used side by side. A protocol is a datatype of states with a function `Apply` for its steps; what it
promises is proved of every state that any sequence of steps reaches. An object or a loop of the program is a class
or a method, proved against such a function. So the theorems hold of the objects as well.

- **Pipeline runs** (`PipelineRuns`, `PipelineRunHistory`, `PipelineRunAccounting`, `PipelineRunGaps`,
  `PipelineRunRows`, `PipelineRunStore`): creation, acquisition, preparation of the metrics, cursor saves and end of
  runs, by any number of nodes, an orphan cleaner and the disabling of organizations, with nodes that go on after their
  run was ended.
- **Consent purposes** (`ConsentPurposes`, `ConsentIntegrity`, `ConsentEffects`, `ConsentChecks`): transactions down
  to their row locks, and the check of added purposes only.
- **Warehouse operations** (`WarehouseOperations`, `WarehouseEffects`, `AlterationSources`, `IdentifierRenaming`,
  `WarehouseStore`): identity resolution and schema alteration, with connections deleted and leaders changing meanwhile.
- **Filters** (`FilterNumbers`, `FilterSyntax`, `FilterDocuments`, `FilterParser`, `FilterValidation`,
  `FilterOperators`, `FilterWhere`, `FilterMeaning`): printer and parser, the limits that are checked twice, validation,
  the stored form and its evaluation.
- **Paths** (`Strings`, `Schemas`, `AttributePaths`, `SchemaCoverage`, `Attributes`): the paths that a transformation
  writes, and the matching value that an export sets after it.
- **Pipeline cleaner** (`PipelineCleaner`): its shutdown.
- **Body buffer** (`BodyBufferLife`, `BodyBufferCalls`, `BodyBuffers`): pooled, reference-counted request bodies.
- **Import** (`UserImport`, `UserImportTotals`): batches of a hundred against one record at a time.
- **Scheduler** (`PipelineScheduler`, `PipelineTicks`, `PipelineFilings`, `PipelineObjects`, `PipelineCopies`,
  `PipelineStarts`, `PipelineExecutors`): buckets and index entries, ticks, the objects that are filed and the copies of
  them, and the storage that a tick shares with a removal.
- **Linked connections** (`LinkedConnections`, `ConnectionTransactions`): the relation and its validation, and the
  transactions statement by statement.
- **Escaping** (`Escaping`): query values and string literals.

`dafny verify dfyconfig.toml` checks everything.

## Where the code does not do what it says

Each of these is modelled as it is written, with a witness and with the exact condition.

- A run that ends before its preparation is credited with all metrics of its pipeline, and a run can be acquired and
  prepared after its end (`UnpreparedCredit`, `AcquiredAfterItsEnd`, `CreditStays`, `EndedRunIsAcquiredAndRebased`).
- A run can be inserted into an organization that was disabled after the check (`DisabledOrganizationsAreIdle`,
  `LiveRunInDisabled`).
- An executor of an alteration keeps the primary sources that it began with. Once one of them was deleted it retries
  without end, and the alteration stays pending until another executor takes over (`StaleExecutorNeverSucceeds`,
  `OnlyOthersReleaseIt`, `DeletedDuringTheAlteration`). A start that counts a source which is deleted before the lock
  is committed, and can never succeed (`DeletedAfterTheCount`, `CanStillSucceed`).
- The overflow guard of `parseUnsigned` misses wrap-arounds to a larger number (`OverflowIsMissed`,
  `NumeralRejected`, `UnsignedIsExactInRange`).
- A tick tests the object as which a pipeline was filed, and copies of the pipeline leave that object behind. So once
  a run was recorded in the filed object the pipeline is not started again until it is filed anew, by a new leader,
  another period or the enabling of its organization; nor is one that was enabled after it was filed (`StartsExactly`,
  `OneRunPerFiling`, `RunOnce`, `EnabledLater`).
- A pipeline whose period is cleared and set back is not scheduled (`SetBackIsNotScheduled`, `ClearedAndSetBack`), and a
  removal during a tick makes it skip a pipeline and read a cleared entry (`RemovalDuringATick`, `ReadAcrossRemoval`).
- `Truncate` panics for numbers that are in range as documented, once bytes were compressed
  (`TruncateKeepsItsPromise`, `TruncatePanicsInRange`); a request with a bad URL keeps its state from the pool
  (`StateIsReturnedOnce`, `LostStateIsNeverReturned`, `ClosedWithoutItsState`).

## Assumptions

Statements of PostgreSQL on one row are atomic, unique indexes and foreign keys hold, and FOR UPDATE and FOR KEY
SHARE exclude each other. Identifiers are drawn at random and are not used again, except that a run identifier may
be. The normal form of an IP address is its own normal form. The transformer works on each record by itself.

## Model

| member | source | states |
|---|---|---|
| `PipelineRuns.InvKept` | core/core.go:1321-1417 | Every statement of the run protocol (creation check, insertion, acquisition, preparation, ping, cursor save, end, disabling of an organization, deletion) keeps: at most one live run per pipeline, runs and errors of existing pipelines only, one error row per failed run, metrics never negative |
| `PipelineRuns.OneLiveRunKept` | core/pipeline.go:1104-1125 | No statement of any node makes a second live run of a pipeline |
| `PipelineRuns.AtMostOneLive` | core/pipeline.go:1117-1120 | A pipeline that has a live run has exactly one |
| `PipelineRuns.ErrorsMatchRunsKept` | core/core.go:1381-1386 | Whoever ends a run, one error row is written for it exactly if it failed |
| `PipelineRuns.ErrorsKeptByEnd` | core/core.go:1354-1410 | The end of one run adds an error row to its own pipeline only, and only with a message |
| `PipelineRuns.ErrorsKeptByDisabling` | core/organization.go:1190-1262 | The bulk end adds one error row to each pipeline of the organization that had a live run |
| `PipelineRunHistory.ReachableInv` | core/core.go:1321-1608 | Over every interleaving of every number of nodes the invariant holds |
| `PipelineRunHistory.OneLiveRunAndItsErrors` | core/core.go:1321-1417 | In every history a pipeline has at most one live run, and exactly one error row for each run that ended with an error |
| `PipelineRunHistory.RowPersists` | core/core.go:1465-1509 | Until its identifier is inserted again, a run keeps its node once it has one, its end once it has one, and its pipeline |
| `PipelineRunHistory.AcquiredAtMostOnce` | core/core.go:1460-1480 | A run is acquired by at most one node, in the whole history |
| `PipelineRunHistory.EndedAtMostOnce` | core/core.go:1354-1386 | A run is ended at most once, whether by its owner, by an orphan cleaner or by the disabling of its organization |
| `PipelineRunHistory.EndsAtMostOne` | core/organization.go:1190-1215 | One statement ends at most one run of a pipeline |
| `PipelineRunHistory.EffectsComeFromTheWinner` | core/core.go:1381-1410 | An error row and a change of health of a pipeline come only from the statement that ended one of its runs, and describe that run |
| `PipelineRunAccounting.PipelineCursorHistory` | core/core.go:1387-1394 | The cursor of a pipeline is that held by the last run that ended normally when it ended, or zero after a later creation or reset; failed, orphaned and disabled runs and late saves do not move it |
| `PipelineRunAccounting.RunCursorHistory` | core/pipeline.go:1242-1246 | The cursor of a run is the last one saved for it, also after its end, or that read when its creation was checked |
| `PipelineRunAccounting.TotalIsSum` | core/core.go:1512-1530 | What the metrics of a pipeline add up to is the sum of all increments stored for it |
| `PipelineRunAccounting.BaselineHeld` | core/core.go:1512-1549 | From its preparation on, a live run holds minus the totals at that moment |
| `PipelineRunAccounting.CreditIsTheWindow` | core/core.go:1354-1379 | The final counters of a run prepared before its end are exactly the increments stored between the two, and so not negative |
| `PipelineRunAccounting.WindowsAreDisjoint` | core/core.go:1512-1549 | The time between preparation and end of one run never overlaps that of another run of the pipeline |
| `PipelineRunAccounting.NothingCountedTwice` | core/core.go:1354-1379 | The final counters of any succession of runs of a pipeline add up to at most what was stored for it |
| `PipelineRunGaps.UnpreparedCredit` | core/core.go:1354-1379 | A run ended before its preparation is credited with all that was ever stored for the pipeline; that is its own share if and only if nothing had been stored before its creation |
| `PipelineRunGaps.PreparingAnEndedRun` | core/core.go:1516-1535 | The preparation of a run that has ended leaves its final counters alone if and only if they and the totals are zero |
| `PipelineRunGaps.EndedRunIsAcquiredAndRebased` | core/core.go:1463-1535 | A history in which an ended run is then acquired, and its final counters replaced by negative ones |
| `PipelineRunGaps.CountersAfterTheEnd` | core/core.go:1512-1549 | In every history the counters of an ended run are its credit, or minus the totals at its last preparation after the end |
| `PipelineRunGaps.CreditStays` | core/core.go:1512-1549 | In every history the final counters of a run are its credit if and only if it was not prepared after its end, or its credit and the totals that the last such preparation found are zero |
| `PipelineRunGaps.AcquiredAfterItsEnd` | core/core.go:1460-1480 | In every history an acquisition of an ended run succeeds if and only if the run had no node at its end and nobody acquired it since then |
| `PipelineRunGaps.DisabledStep` | core/pipeline.go:1079-1108 | A statement leaves a live run in a disabled organization if and only if it inserts one that was checked before the disabling |
| `PipelineRunGaps.DisabledOrganizationsAreIdle` | core/organization.go:1163-1187 | In a whole history no disabled organization has a live run if and only if no insertion was overtaken by a disabling |
| `PipelineRunGaps.LiveRunInDisabled` | core/pipeline.go:1079-1108 | A history: the organization is disabled between the check and the insertion, and has a live run |
| `PipelineRunStore.EndIsIdempotent` | core/core.go:1354-1386 | Ending again a run that has ended, for any reason, changes nothing |
| `PipelineRunStore.EndLeaves` | core/core.go:1354-1410 | What an end leaves in the run, the errors and the pipeline, counter by counter; nothing else changes |
| `PipelineRunStore.EndLeavesOthers` | core/core.go:1354-1386 | An end changes something exactly if it is of a live run of that pipeline |
| `PipelineRunRows.InsertedRunHolds` | core/pipeline.go:1095-1125 | In every history an inserted run has the mode that was requested or else that of its pipeline at the check, and the cursor that the pipeline had then, or zero |
| `PipelineRunRows.StatusIsTheLast` | core/organization.go:1146-1187 | In every history the status of an organization is that of its last change, or enabled |
| `PipelineRunRows.SettingsAreTheLast` | core/pipeline.go:905-919 | In every history organization, status and mode of a pipeline are those that its creation and its last update wrote, until it is deleted |
| `PipelineRunRows.CreationAndDeletion` | core/pipeline.go:270-320 | A pipeline is created once, without a cursor or errors; a deletion takes it with its runs and errors |
| `PipelineRunStore.RunStore.Acquire` | core/core.go:1460-1480 | The guarded update gives the run to the caller exactly if it exists and has no node |
| `PipelineRunStore.RunStore.EndOnce` | core/core.go:1354-1413 | The transaction that ends a run, as one step of the protocol; it notifies exactly if it ended one of an existing pipeline |
| `PipelineRunStore.RunStore.EndLiveRun` | core/core.go:1345-1417 | Whatever attempts are rolled back, committed unseen or repeated, the run is ended as by one attempt, or not at all if all were rolled back |
| `PipelineRunStore.RunStore.CheckCreation` | core/pipeline.go:1079-1102 | Which error a creation gets, each exactly when; and otherwise the mode, requested or else that of the pipeline, with the cursor of the pipeline if that is incremental and zero if not |
| `PipelineRunStore.RunStore.CreateRun` | core/pipeline.go:1060-1132 | Drawing identifiers until one is free, a creation inserts one run, of that mode and with that cursor, and changes nothing else; or it fails with the error of the first test that failed |
| `PipelineRunStore.RunStore.SetStatus` | core/organization.go:1146-1262 | Only a change of the status does something; a disabling ends each live run with the totals and the message, and leaves one error and a healthy pipeline, in the same transaction |
| `ConsentIntegrity.InvKept` | core/pipeline.go:1464-1556 | Each statement of a purpose or pipeline transaction, interleaved with any others under the row locks, keeps the integrity of required purposes |
| `ConsentIntegrity.RequiredPurposesExist` | core/consent_purpose.go:135-250 | In every history each purpose that a pipeline requires exists in its workspace, with event codes if an Event pipeline reads them and a profile property if a User pipeline does |
| `ConsentIntegrity.LocksExclude` | core/pipeline.go:1464-1480 | In every history no two open transactions hold conflicting locks: a purpose transaction excludes all others of its workspace, and an update those of its pipeline |
| `ConsentIntegrity.PurposeStepKeepsInv` | core/consent_purpose.go:147-170 | A step of a purpose addition, update or deletion keeps it |
| `ConsentIntegrity.PipelineStepKeepsInv` | core/pipeline.go:1481-1556 | A step of a pipeline creation or update keeps it |
| `ConsentIntegrity.FastCheckRefinesFull` | core/pipeline.go:1497-1523 | In every reachable state validating the added purposes of an update of a pipeline accepts exactly what validating all of them does |
| `ConsentIntegrity.FastTestsAreFullTests` | core/pipeline.go:1481-1556 | At each of the two tests within an interleaved transaction, an update is rolled back exactly if the test of all its purposes would roll it back |
| `ConsentEffects.PurposeCommits` | core/consent_purpose.go:60-245 | What the commit of an addition, update or deletion leaves in the purpose, field by field; everything else stays, and the transaction is over |
| `ConsentEffects.PurposeGoesOn` | core/consent_purpose.go:147-239 | Each statement before waits for its lock, gives up exactly if pipelines require what the change takes away, or goes on; no row changes |
| `ConsentEffects.ReadyIsNotRefused` | core/consent_purpose.go:214-239 | In every history a change that is ready to commit takes nothing away that a pipeline requires |
| `ConsentEffects.PipelineCommits` | core/pipeline.go:905-919 | What the commit of a creation or an update leaves in the pipeline; everything else stays |
| `ConsentEffects.PipelineGoesOn` | core/pipeline.go:1481-1556 | Each statement before waits, gives up exactly if an added purpose is missing or not located, or goes on; no row changes |
| `ConsentEffects.ValidatedUpdateWrites` | core/pipeline.go:1497-1556 | In every history an update that was validated finds its pipeline, and writes the purposes |
| `ConsentChecks.CheckRequiredPurposes` | core/pipeline.go:1481-1556 | The check passes exactly if all, or for an update all added, purposes exist and are located; an error names a purpose that is missing or is not located |
| `ConsentChecks.NotAmong` | core/pipeline.go:1510-1523 | The purposes that an update adds, in their order |
| `ConsentChecks.ValidateEventLocations` | core/consent_purpose.go:283-301 | At most five codes, each valid, all distinct; a repetition that is reported is one |
| `WarehouseOperations.InvKept` | core/core.go:2099-2180 | Every transaction keeps: resolution and alteration are never both pending, and an operation is pending exactly if its one open row exists |
| `WarehouseOperations.OperationsExclude` | core/core.go:2099-2180 | In every history a workspace never has a resolution and an alteration pending at once, and its pending resolution is exactly its one open run, if it has one |
| `WarehouseOperations.FinalizedAtMostOnce` | core/core.go:1846-1918 | With any number of current and deposed leaders, an operation is finalized at most once |
| `WarehouseOperations.NeverPendingAgain` | core/core.go:1964-1982 | An operation that is over is not taken up again |
| `WarehouseEffects.ResolutionStarts` | core/core.go:2151-2185 | A resolution is started exactly if the workspace exists with nothing pending, with an open run |
| `WarehouseEffects.ResolutionEnds` | core/core.go:1846-1918 | In every history a resolution is ended exactly if it is pending, and its run has the time and the error |
| `WarehouseEffects.AlterationStarts` | core/core.go:2112-2139 | An alteration is started exactly if the workspace exists with nothing pending, as it was asked for and without an error |
| `WarehouseEffects.AttemptLeaves` | core/core.go:1710-1774 | What an attempt leaves, field by field: nothing of an alteration that is over, only the error of one that failed, all of one that succeeds, and no change if a source is missing |
| `WarehouseEffects.FailureCanBeRecorded` | core/core.go:1759-1771 | In every history a pending alteration that fails in the warehouse can be ended, with its error |
| `WarehouseEffects.IdentifiersCommit` | core/workspace.go:1835-1842 | An update of the identifiers writes them, and nothing else |
| `WarehouseEffects.ConnectionIsDeleted` | core/connection.go:679-771 | A deleted connection leaves the sources of its workspace, the pending ones too, and nothing else changes |
| `WarehouseOperations.AttemptSucceeds` | core/core.go:1710-1774 | An attempt to finalize whose warehouse gave no error installs schema, roles, identifiers and sources if and only if the alteration is pending and every source that the executor holds exists; otherwise it changes no workspace, and is repeated exactly if the alteration is pending |
| `WarehouseOperations.OnlySuccessesChangeTheSchema` | core/core.go:1710-1774 | In every history schema and roles change only by such a success; primary sources only by it or by the deletion of a connection, which takes it out; identifiers only by it or by their own update |
| `AlterationSources.PrimarySourcesExist` | core/connection.go:733-737 | In every history each primary source of a workspace is a connection of it that exists |
| `AlterationSources.DeletionTakesItOut` | core/connection.go:733-771 | In every history the deletion of a connection takes it out of the primary sources and of the pending ones, and what was pending still is |
| `AlterationSources.FollowedSince` | core/internal/state/keep.go:821-843 | From the start of an alteration on, whatever happens: the pending sources, all copies in memory and those that executors hold are those of the start, without some that were deleted since then; in the column, without all of them |
| `AlterationSources.PendingSourcesAre` | core/connection.go:738-771 | In every history the pending sources are exactly those of the start of the alteration but for those deleted since then |
| `AlterationSources.PendingSourcesExist` | core/core.go:2095-2124 | The pending sources exist if and only if those of the start all existed when it was committed |
| `AlterationSources.SourcesComeFromTheStart` | core/core.go:1664-1681 | A success installs exactly the sources of its start that still exist |
| `AlterationSources.SchemaComesFromTheStart` | core/core.go:1683-1774 | A success installs the schema and the roles of its start, and what its operations make of identifiers that the workspace had since then; it leaves nothing pending |
| `AlterationSources.PendingWasStarted` | core/core.go:2095-2139 | Every pending alteration was started |
| `AlterationSources.StaleExecutorNeverSucceeds` | core/core.go:1743-1773 | Once a source that an executor holds was deleted, none of its attempts succeeds |
| `AlterationSources.OvertakenStartNeverSucceeds` | core/core.go:2095-2111 | An alteration one of whose sources was deleted between the count and the lock never succeeds |
| `AlterationSources.CanStillSucceed` | core/core.go:1964-1982 | A pending alteration succeeds with a new executor that knows of all deletions if and only if its sources all existed when its start was committed |
| `AlterationSources.DeletedDuringTheAlteration` | core/core.go:1664-1774 | For any request: a history in which a source is deleted during the alteration, and the executor is left with it |
| `AlterationSources.DeletedAfterTheCount` | core/core.go:2095-2139 | For any request: a history that starts an alteration with a source that does not exist any more |
| `IdentifierRenaming.RenamedAreSuitable` | core/core.go:1683-1709 | If the operations lead from a schema with these identifiers to the new one, every identifier after it leads to a property that can be one |
| `IdentifierRenaming.PathsByColumnAreVisited` | core/core.go:1683-1689 | A path by its column is that of a property that can be an identifier |
| `IdentifierRenaming.LastVisitWins` | core/core.go:1683-1689 | The path of a column is that of the last property with it |
| `IdentifierRenaming.OneIsRenamed` | core/core.go:1692-1709 | An identifier stays if no operation is on its column, moves to the path of the new column if the first one renames it, and is gone otherwise |
| `IdentifierRenaming.RenamedInOrder` | core/core.go:1692-1709 | Identifiers are renamed one by one, in their order |
| `IdentifierRenaming.RenameIdentifiers` | core/core.go:1683-1709 | The nested loops make of each identifier what the first operation on its column says |
| `WarehouseStore.WithoutConnection` | core/connection.go:746-762 | The loop deletes the paths of the connection, and finds one exactly if there is one |
| `WarehouseStore.OperationStore.SourcesExist` | core/core.go:2077-2111 | The number of rows with the distinct identifiers tells whether every source exists |
| `WarehouseStore.OperationStore.InstallSchema` | core/core.go:1724-1752 | The new columns, the deletion of the sources and the insertion of the new ones succeed exactly if all of these exist |
| `WarehouseStore.OperationStore.FinishAlterProfileSchema` | core/core.go:1710-1774 | One attempt, statement by statement, with its rollback, is one step of the protocol; it is rolled back exactly if a source is missing |
| `WarehouseStore.OperationStore.FinalizeUntilCommitted` | core/core.go:1710-1774 | The loop with what others do before each attempt goes on exactly past those that find a source missing |
| `WarehouseStore.OnlyOthersReleaseIt` | core/core.go:1710-1774 | An executor with a deleted source goes on until others finish its alteration or delete the workspace, whatever they do |
| `WarehouseStore.OperationStore.FinishIdentityResolution` | core/core.go:1846-1918 | The transaction ends the resolution if it is the pending one; the error branches for a missing row are never taken in a reachable state |
| `WarehouseStore.OperationStore.StartAlterProfileSchema` | core/core.go:2112-2139 | Under the lock the alteration is started, or fails with the error of what it found |
| `WarehouseStore.OperationStore.DeleteConnection` | core/connection.go:679-771 | The deletion, with the loop over the pending sources, is one step of the protocol |
| `FilterNumbers.ParseUnsigned` | core/filters.go:524-546 | The digit loop in 64 bits, with its guard against wrap-around, accepts what the specification does, with the wrapped value |
| `FilterNumbers.UnsignedIsExactInRange` | core/filters.go:524-546 | A string is parsed as the number it denotes if and only if it is a numeral of 64 bits |
| `FilterNumbers.NumeralRejected` | core/filters.go:524-546 | A numeral of any length is rejected if and only if, from its twentieth digit on, what 64 bits leave of some prefix falls below what they leave of the one before; otherwise its value is that of the number modulo 2^64 |
| `FilterNumbers.TwentyDigitsRejected` | core/filters.go:537-540 | In particular one of twenty digits is rejected if and only if what 64 bits leave of it is less than its first nineteen digits |
| `FilterNumbers.OverflowIsMissed` | core/filters.go:537-540 | 30000000000000000000 is accepted, as another number |
| `FilterNumbers.UnsignedRoundTrip` | core/filters.go:524-546 | A printed 64-bit number is parsed back |
| `FilterNumbers.ParseInt` | core/filters.go:493-522 | The sign, the range and the two conversions between signed and unsigned |
| `FilterNumbers.SignedIsExactInRange` | core/filters.go:493-522 | A string is parsed as the number it denotes if and only if it is a numeral of a signed 64-bit number |
| `FilterNumbers.SignedRoundTrip` | core/filters.go:493-522 | A printed signed number is parsed back, the least one included |
| `FilterNumbers.ParseYear` | core/filters.go:548-567 | One to four digits of a year from 1 to 9999 |
| `FilterNumbers.YearRoundTrip` | core/filters.go:548-567 | A printed year is parsed back |
| `FilterSyntax.RoundTrip` | core/filters.go:424-489 | Reading the printed form of a rule gives the rule, with absent and empty values told apart, if it is within the limits of depth and size; otherwise it fails |
| `FilterSyntax.OrderOfMembers` | core/filters.go:598-690 | The members of an object give the same fields in any order, or fail alike |
| `FilterSyntax.KeyOrderDoesNotMatter` | core/filters.go:598-725 | Two documents that differ in the order of keys, at any depth, are read alike |
| `FilterDocuments.FilterIsDenoted` | core/filters.go:598-725 | A document is read as a filter exactly if it is one, said without an order of reading: known keys, each once, texts and lists where they belong, at most four levels and a hundred rules; and as that one |
| `FilterDocuments.RuleIsDenoted` | core/filters.go:598-690 | So is each rule, at any depth |
| `FilterParser.StreamMeans` | core/filters.go:598-725 | Parsing the tokens of any document, in front of any others, reads what the document means and leaves the others |
| `FilterParser.ParseOfPrint` | core/filters.go:424-489 | Parsing the printed tokens of a filter returns the same filter if it has at most four levels and a hundred rules, and fails otherwise |
| `FilterParser.ParseIgnoresKeyOrder` | core/filters.go:598-725 | The result of parsing does not depend on the order of the keys |
| `FilterParser.Marshal` | core/filters.go:453-489 | The printer emits the tokens of the printed form |
| `FilterParser.MarshalCondition` | core/filters.go:424-451 | A condition is printed without values, with an empty list, or with its values |
| `FilterParser.Decoder.UnmarshalRule` | core/filters.go:598-690 | The parser, with its flags and its loop over the keys, reads what the function of the stream says |
| `FilterParser.Decoder.UnmarshalRules` | core/filters.go:697-725 | The list of rules, with its bottom-up count, is read as the function of the stream says |
| `FilterValidation.ValidateFilter` | core/filters.go:732-740 | A filter is accepted exactly if its tree is valid and within the limits; the paths returned are the strictly sorted set of those of its conditions |
| `FilterValidation.FilterValidator.ValidateGroup` | core/filters.go:970-1012 | The running count and the depth on the way down accept a group exactly if it is valid and what is left of both limits is enough |
| `FilterValidation.FilterValidator.ValidateRule` | core/filters.go:985-1008 | One rule of a group: counted first, then validated, its path collected |
| `FilterValidation.FilterValidator.Search` | core/filters.go:1000-1008 | The binary search finds a path, or where it belongs |
| `FilterValidation.FilterValidator.Collect` | core/filters.go:1000-1008 | The collected paths stay strictly sorted, and get the path |
| `FilterValidation.LimitsAgree` | core/filters.go:638-719 | On size and depth the parser rejects exactly the groups that the validator does |
| `FilterOperators.AcceptedConditions` | core/filters.go:742-960 | A condition is accepted exactly if its property exists, the type of that supports the operator by the table, and the values are as many as it takes and fit |
| `FilterOperators.AllowedAreSupported` | core/filters.go:764-878 | The switches on the operator allow what the table by types supports |
| `FilterOperators.ResolvesExactly` | core/filters.go:569-592 | A path resolves to the property that it leads to through objects, or to the JSON property inside which it goes on |
| `FilterOperators.CollectedPathIs` | core/filters.go:742-760 | The collected path is that of the property, without what is inside it |
| `FilterOperators.OperandsDenote` | core/filters.go:217-267 | Text denotes itself, a numeral in range its number, a UUID its lower case |
| `FilterWhere.ValidFiltersConvert` | core/filters.go:192-267 | Every filter that validation accepts is converted without the panic, each operand parsed |
| `FilterWhere.OperandRoundTrip` | core/filters.go:192-334 | A parsed operand, printed, is parsed back the same: text, integers, years, UUIDs, addresses, JSON |
| `FilterWhere.WhereRoundTrip` | core/filters.go:192-334 | Converting an accepted filter to the stored form, back, and again gives the same stored form |
| `FilterMeaning.StoredMeansTheSame` | core/filters.go:188-267 | Every accepted filter is stored as what selects exactly the attributes of which it holds: "and" is all rules, "or" is some, a condition is its words on the property and the parsed values |
| `FilterMeaning.OperatorsAgree` | core/internal/state/where.go:151-183 | The number of an operator is that of the test that the evaluation makes, for all twenty-six |
| `FilterMeaning.Applies` | core/internal/filters/applies.go:17-44 | The loop that ends with the first rule that decides evaluates a stored filter as all or some of its rules |
| `AttributePaths.SubPathIsProperPrefix` | core/pipeline_validate.go:961-980 | The test of length, dot and prefix on the strings is the one for a proper prefix of the names |
| `AttributePaths.ValidatePaths` | core/pipeline_validate.go:928-990 | Paths are accepted exactly if there are some, or none are needed, each is valid and in the schema, and none is, or is below, another |
| `AttributePaths.MatchingUntransformed` | core/pipeline_validate.go:366-386 | The walk through the parents of the matching property succeeds exactly if neither it nor one of them is transformed |
| `SchemaCoverage.WalkObjects` | tools/types/properties.go:225-262 | The walk with an explicit stack yields the properties in depth-first order |
| `SchemaCoverage.WalkIsTheSchema` | tools/types/properties.go:41-78 | The walk yields a property with a path exactly if the path leads to it |
| `SchemaCoverage.UnusedPropertyPath` | core/pipeline_validate.go:776-802 | No path is returned exactly if every property that is not an object is used by its own path or one above; one that is returned is not used |
| `SchemaCoverage.ValidateOutput` | core/pipeline_validate.go:239-757 | The checks of the output of a transformation function accept it exactly if its paths are valid and independent, the matching property is a leaf beside them, and no leaf is unused |
| `SchemaCoverage.UsedAreIndependent` | core/pipeline_validate.go:366-388 | The matching path is independent of the paths of the function, in both directions |
| `SchemaCoverage.EveryLeafIsCoveredOnce` | core/pipeline_validate.go:741-757 | Every leaf of an accepted output schema is covered by exactly one used path |
| `Attributes.GetSet` | core/run_export.go:558-592 | What is set at a path is read at it |
| `Attributes.GetSetElsewhere` | core/run_export.go:558-592 | A path that is neither above nor below the one that is set reads what it read before |
| `Attributes.MatchingValueClobbersNothing` | core/run_export.go:281-283 | For an accepted output, whatever the function returned: the matching value reads back, and every path of the function reads as before |
| `Attributes.UncheckedParentIsClobbered` | core/run_export.go:577-592 | Without the check of the parents a transformed value would be lost |
| `Attributes.GetAttribute` | core/run_export.go:558-573 | The loop that cuts the path and descends reads what the path means |
| `Attributes.Node.SetAttribute` | core/run_export.go:577-592 | In the heap, with nested attributes that nothing else shares: the attributes become those with the value set, in place |
| `Attributes.Node.SubNode` | core/run_export.go:579-588 | Nested attributes are created in place of anything else, once |
| `PipelineCleaner.ReachableInv` | core/pipeline_cleaner.go:104-137 | In every history the wait groups count what runs, past each wait of Close what it waits for is over, and the context is cancelled early only if that of the caller was |
| `PipelineCleaner.NothingRunsAfterClose` | core/pipeline_cleaner.go:104-122 | When the first Close has returned, every admitted operation is done and every goroutine has exited, and whatever follows, nothing is admitted or started |
| `PipelineCleaner.ClosedAdmitsNothing` | core/pipeline_cleaner.go:124-137 | From the call of Close on, before it returns, nothing more is admitted or started |
| `PipelineCleaner.CloseReturns` | core/pipeline_cleaner.go:115-122 | When nothing runs any more, the waits of Close are over, and it returns |
| `PipelineCleaner.CloseWaits` | core/pipeline_cleaner.go:117-122 | While an operation or a goroutine runs, it does not get past its wait |
| `PipelineCleaner.LookFinds` | core/pipeline_cleaner.go:115-121 | An operation that looks at the context finds it cancelled exactly if it is |
| `PipelineCleaner.InterruptedOnlyByTheCaller` | core/pipeline_cleaner.go:115-121 | An operation finds the context cancelled only if that given to Close was cancelled before |
| `PipelineCleaner.RepeatedClose` | core/pipeline_cleaner.go:104-113 | In every reachable state in which Close was called, calling it again changes nothing, and finds everything stopped if and only if both counters are zero |
| `PipelineCleaner.Cleaner.Start` | core/pipeline_cleaner.go:384-392 | A goroutine is started exactly if the cleaner is not closing |
| `PipelineCleaner.Cleaner.Admit` | core/pipeline_cleaner.go:124-134 | An operation is admitted exactly if the cleaner is not closing |
| `PipelineCleaner.Cleaner.Leave` | core/pipeline_cleaner.go:135-136 | The counter of the wait group never becomes negative |
| `PipelineCleaner.Cleaner.BeginClose` | core/pipeline_cleaner.go:108-115 | One call, the first, goes on |
| `PipelineCleaner.Cleaner.CancelGoroutines` | core/pipeline_cleaner.go:119-120 | The context is cancelled when all admitted operations are done |
| `PipelineCleaner.Cleaner.EndClose` | core/pipeline_cleaner.go:121-122 | Close returns when all goroutines have exited |
| `BodyBufferLife.InvKept` | connectors/bodybuffer.go:46-300 | Every call keeps the count of open bodies, the ownership of pooled storage, and the bytes from writing to reading |
| `BodyBufferLife.StateIsReturnedOnce` | connectors/bodybuffer.go:92-102 | In every history the pooled state is returned at most once, and it is returned exactly if the buffer is closed, no body is open, and no request failed for its URL |
| `BodyBufferLife.StorageIsPutOnce` | connectors/bodybuffer.go:429-443 | No storage is put in the pool twice, nor while a body that reads from it is open; a returned state holds none |
| `BodyBufferLife.AtMostTenBodies` | connectors/bodybuffer.go:285-298 | At most ten bodies are open |
| `BodyBufferLife.EachBodyIsWhole` | connectors/bodybuffer.go:223-300 | A body read to its end gave all that was written, or, compressed, all that the compressor made of all that was written |
| `BodyBufferLife.LostStateIsNeverReturned` | connectors/bodybuffer.go:268-273 | After a request with a bad URL the state is never returned, whatever is closed |
| `BodyBufferLife.ClosedWithoutItsState` | connectors/bodybuffer.go:268-273 | A request with a bad URL and the closing of the buffer: no body is open, and the state is not returned |
| `BodyBufferCalls.WriteAppends` | connectors/bodybuffer.go:394-420 | A write appends its bytes, while there is no request |
| `BodyBufferCalls.FlushGives` | connectors/bodybuffer.go:172-195 | A flush gives all that was written to the compressor, or marks it |
| `BodyBufferCalls.RequestTakesAll` | connectors/bodybuffer.go:223-283 | A request takes all that was written into the body, which is opened if the URL is valid |
| `BodyBufferCalls.GetBodyOpens` | connectors/bodybuffer.go:284-298 | Another body is opened from its beginning exactly if the buffer is open and fewer than ten are |
| `BodyBufferCalls.ReadGives` | connectors/bodybuffer.go:478-488 | A read gives the next bytes: as many as asked for, or all that are left |
| `BodyBufferCalls.CloseBodyCloses` | connectors/bodybuffer.go:490-496 | A body is closed once; the state goes back exactly with the last one of a closed buffer |
| `BodyBufferLife.TruncateKeepsItsPromise` | connectors/bodybuffer.go:368-386 | Truncation does what is documented if and only if nothing was compressed yet, or the number is out of range in both ways, or in neither |
| `BodyBufferLife.TruncatePanicsInRange` | connectors/bodybuffer.go:374-378 | Five unflushed bytes that cannot be truncated to two |
| `BodyBuffers.BodyWriter.Write` | connectors/bodybuffer.go:450-462 | A write appends, in place or in a larger buffer; the old one is given back, as it was |
| `BodyBuffers.BodyReader.Read` | connectors/bodybuffer.go:478-488 | A read gives the next bytes in order and keeps the rest |
| `BodyBuffers.BodyBuffer.NewRequest` | connectors/bodybuffer.go:223-283 | One request per buffer; the body becomes what the life of the buffer says |
| `BodyBuffers.BodyBuffer.GetBody` | connectors/bodybuffer.go:284-298 | Another body is given out exactly if the buffer is open and fewer than ten are |
| `BodyBuffers.BodyBuffer.CloseBody` | connectors/bodybuffer.go:490-496 | Closing a body counts once; the last one after the buffer returns the state |
| `BodyBuffers.BodyBuffer.Close` | connectors/bodybuffer.go:90-102 | Closing returns the state if no body is open; closing again does nothing |
| `BodyBuffers.BodyBuffer.Flush` | connectors/bodybuffer.go:172-195 | What is unflushed goes to the compressor, or is marked |
| `BodyBuffers.BodyBuffer.Truncate` | connectors/bodybuffer.go:368-386 | The panic and the cut, for each encoding |
| `UserImport.Import` | core/run_import.go:104-216 | Until the end or the first failing batch, the import in batches of a hundred has issued the writes, in order, the keeps and the counts that handling records one by one issues; each saved cursor is that of the records processed; without a failure all effects are the same |
| `UserImport.ProcessBatch` | core/run_import.go:109-160 | A batch does for its records, in order, what each of them calls for, or nothing if the transformer fails |
| `UserImport.OneByOneTakenApart` | core/run_import.go:104-216 | Handling records one by one is receiving them all and processing those that pass, in order |
| `UserImport.EveryRecordIsCountedOnce` | core/run_import.go:126-192 | Every record lands in exactly one final counter or is written, and exactly those with an error are kept |
| `UserImport.ReceiptBalances` | core/run_import.go:166-192 | The counters of receipt, input validation and filter add up |
| `UserImport.BatchesBalance` | core/run_import.go:126-150 | The counters of transformation, output validation and consents add up |
| `UserImport.CursorIsTheMaximum` | core/run_import.go:194-196 | The cursor is the greatest of the starting one and the times of the records that pass |
| `UserImportTotals.WritesAre` | core/run_import.go:126-150 | The identities written are, in order, those of the records that pass every step, each with its transformed values and its time |
| `UserImportTotals.KeepsAre` | core/run_import.go:126-192 | Each identity is kept as often as a record of it could not be read, does not fit, or failed in the transformation |
| `UserImportTotals.CountersAre` | core/run_import.go:104-216 | Each counter counts the records that end at its step, or get beyond it |
| `UserImportTotals.CursorIs` | core/run_import.go:194-196 | The cursor is the latest time of an accepted record, or where it started |
| `PipelineScheduler.InvKept` | core/pipeline_scheduler.go:78-236 | Every notification keeps the filing of pipelines by their index entries |
| `PipelineScheduler.OneBucketNamedByTheIndex` | core/pipeline_scheduler.go:339-372 | In every history a pipeline is in at most one bucket, once; its index entry names it; and it is that of its period and start, or the pipeline was deleted and is about to be removed |
| `PipelineScheduler.ScheduledUnlessStale` | core/pipeline_scheduler.go:375-388 | If no change of a period was stale, all that is to be scheduled is |
| `PipelineScheduler.NotificationsAre` | core/pipeline_scheduler.go:78-236 | What a node knows of pipelines, organizations and its leadership after each notification |
| `PipelineScheduler.ChangeTakesEffect` | core/pipeline_scheduler.go:375-388 | In every history a change to a period schedules the pipeline if and only if that is not the period for which it was last scheduled; otherwise the change is stale |
| `PipelineScheduler.EntryIsLastScheduled` | core/pipeline_scheduler.go:339-388 | In every history the index entry of a pipeline, if it has one, names the period for which it was last scheduled |
| `PipelineScheduler.SetBackIsNotScheduled` | core/pipeline_scheduler.go:351-388 | From any reachable state in which a pipeline is scheduled, after any steps during which it is not to be scheduled, a new period schedules it if and only if it is another one |
| `PipelineScheduler.ClearedAndSetBack` | core/pipeline_scheduler.go:374-388 | A history: the period is cleared and set back, and the pipeline is in no bucket |
| `PipelineTicks.TickLooksUpWhatIsDue` | core/pipeline_scheduler.go:293-303 | In every reachable state a tick looks up, once, each scheduled pipeline whose start is congruent to the minute, and no other that is to be scheduled |
| `PipelineTicks.GapsAreEqual` | core/pipeline_scheduler.go:293-303 | In every reachable state, from the tick that looks a pipeline up to the next one that does it is exactly the period, across midnight as well |
| `PipelineTicks.LookupsPerDay` | core/pipeline_scheduler.go:293-303 | In every reachable state the ticks of a day look a scheduled pipeline up 1440 divided by its period times |
| `PipelineFilings.ChangeErased` | core/pipeline_scheduler.go:374-388 | Without the objects that are filed, a change of period is that of the scheduler of identifiers |
| `PipelineFilings.AddAllHolds` | core/pipeline_scheduler.go:271-287 | After pipelines were filed, each entry has the object as which its pipeline was last filed |
| `PipelineObjects.ReplaceConnectionKeeps` | core/internal/state/keep.go:225-247 | A copied connection keeps the references between the objects of the state |
| `PipelineObjects.ReplaceWorkspaceKeeps` | core/internal/state/keep.go:253-283 | A copied workspace keeps them |
| `PipelineObjects.EndRunsReplace` | core/internal/state/keep.go:1444-1462 | A disabling replaces the objects of the running pipelines, by copies without the run |
| `PipelineObjects.ReplacedPipeline` | core/internal/state/keep.go:206-223 | A changed pipeline is another object that differs in what was changed |
| `PipelineObjects.RecordedRun` | core/internal/state/keep.go:1299-1304 | A run is recorded in the object itself, and nothing else changes |
| `PipelineObjects.ReplacedWorkspace` | core/internal/state/keep.go:253-283 | After the change of a mode all connections of the workspace see it, and others see what they saw |
| `PipelineObjects.ReplacedConnection` | core/internal/state/keep.go:225-247 | The pipelines of a copied connection refer to the copy, which sees the same mode |
| `PipelineCopies.MemoryKept` | core/internal/state/keep.go:206-223 | Every notification keeps: the objects refer to each other, the filing without them is the executor, and each entry has the object last filed |
| `PipelineCopies.ReachableMemory` | core/internal/state/keep.go:206-223 | So it is in every history |
| `PipelineStarts.IsTheScheduler` | core/pipeline_scheduler.go:78-242 | In every history the scheduler, without its objects, is the scheduler of identifiers |
| `PipelineStarts.EveryEventFollows` | core/pipeline_scheduler.go:339-388 | An event files the current object of a pipeline and leaves it scheduled, or leaves what was filed and schedules nothing |
| `PipelineStarts.ReplacesExactly` | core/internal/state/keep.go:206-223 | Exactly a change of the pipeline, the end of a run, a disabling during a run and a deletion leave the object of a pipeline behind |
| `PipelineStarts.CurrentUntilReplaced` | core/internal/state/keep.go:206-223 | In every history an object is that of the state until one of these happens |
| `PipelineStarts.AgedSince` | core/internal/state/keep.go:1299-1304 | An object keeps what it was made with, and shows a run if and only if it did at first or one started while it was that of the state |
| `PipelineStarts.SeenSince` | core/internal/state/keep.go:225-283 | An object sees the mode of its warehouse as the state has it, up to the first copy of its connection after it was left behind |
| `PipelineStarts.StartsExactly` | core/pipeline_scheduler.go:300-308 | In every history a tick starts a pipeline if and only if it is scheduled and due, it was enabled and without a run when it was last filed, no run was recorded in that object since, and the mode that the object last saw is normal |
| `PipelineStarts.OneRunPerFiling` | core/pipeline_scheduler.go:391-404 | In every history, once a run was recorded in the filed object no tick starts the pipeline until it is filed anew, whether or not the run has ended |
| `PipelineStarts.CurrentIsTested` | core/pipeline_scheduler.go:391-404 | While the filed object is that of the state, a tick starts the pipeline if and only if it is scheduled, due and can be executed |
| `PipelineStarts.ScheduledWasFiled` | core/pipeline_scheduler.go:339-347 | In every history a scheduled pipeline was filed by some event, and not since |
| `PipelineStarts.RunOnce` | core/internal/state/keep.go:1179-1190 | A pipeline that has run once: it can be executed and is scheduled, and no tick of any minute starts it |
| `PipelineStarts.EnabledLater` | core/internal/state/keep.go:1483-1493 | A pipeline that was enabled after it was created: likewise |
| `PipelineExecutors.RemovalDuringATick` | core/pipeline_scheduler.go:300-367 | A removal while a tick goes over the bucket: a cleared entry is read if and only if the tick was not through, and a remaining pipeline is missed if and only if the removed one was read before |
| `PipelineExecutors.PipelineExecutor.ReadAcrossRemoval` | core/pipeline_scheduler.go:300-367 | In the heap, a tick that has the slice of a bucket when a removal shifts its storage reads what that formula says |
| `PipelineExecutors.PipelineExecutor.ReadAcrossAddition` | core/pipeline_scheduler.go:300-347 | A tick that has the slice of a bucket when a pipeline is added reads what was in it before |
| `PipelineExecutors.PipelineExecutor.constructor` | core/pipeline_scheduler.go:264-287 | The executor starts with the objects of the pipelines to schedule in their buckets |
| `PipelineExecutors.PipelineExecutor.AddPipeline` | core/pipeline_scheduler.go:339-347 | The object is appended to its bucket, in new storage, and the index entry of its pipeline set |
| `PipelineExecutors.PipelineExecutor.RemovePipeline` | core/pipeline_scheduler.go:349-372 | The pipeline leaves the bucket of its index entry, which stays, by a shift in place that clears the last place; an empty bucket is deleted |
| `PipelineExecutors.PipelineExecutor.SetPeriod` | core/pipeline_scheduler.go:374-388 | A change does nothing if the index entry names the period, and moves the pipeline otherwise |
| `PipelineExecutors.PipelineExecutor.Tick` | core/pipeline_scheduler.go:293-318 | The loops over periods and buckets start, in order, exactly those filed objects that are due, enabled, have a period and no run, and whose workspace is in normal mode |
| `PipelineExecutors.TestedAlike` | core/pipeline_scheduler.go:391-404 | For an object in the heap that is one of the memory of the node, the test is that of the memory |
| `LinkedConnections.InvKept` | core/connection.go:1101-1153 | Creation, link, unlink and deletion keep the link symmetric, between existing connections of opposite roles in one workspace, and every list sorted without repetitions |
| `LinkedConnections.ReachableInv` | core/connection.go:705-725 | So it is in every history, however stale what the nodes decide on |
| `LinkedConnections.SecondUpdateFindsItsRow` | core/connection.go:1893-1904 | When the first update of an unlink finds a row, the second one does |
| `LinkedConnections.LinkAdds` | core/connection.go:1133-1151 | In every state a link of two connections that exist adds the pair, in both lists, whatever else they are linked with; and nothing else |
| `LinkedConnections.UnlinkRemoves` | core/connection.go:1884-1905 | In every state an unlink removes the pair, from both lists, and nothing else |
| `LinkedConnections.DeleteRemoves` | core/connection.go:705-725 | A deletion removes the connection from every list, and nothing else |
| `LinkedConnections.CreateAdds` | core/workspace.go:668-745 | A creation whose links are valid and still exist links the new connection with each of them, and nothing else |
| `LinkedConnections.CreateInserts` | core/workspace.go:668-745 | Exactly such a creation inserts a row; any other changes nothing |
| `LinkedConnections.UnlinkUndoesLink` | core/connection.go:1884-1905 | Unlinking restores what linking changed, but that an empty list becomes null |
| `LinkedConnections.ConnectionStore.CreateConnection` | core/workspace.go:668-745 | The count of updated rows rolls back exactly the creations with a link to a connection that is gone |
| `LinkedConnections.ConnectionStore.LinkConnection` | core/connection.go:1133-1151 | Two updates in sequence put each connection in the list of the other, or are rolled back if the destination is gone |
| `LinkedConnections.ConnectionStore.UnlinkConnection` | core/connection.go:1884-1905 | Two updates in sequence, the second without a guard |
| `LinkedConnections.ConnectionStore.DeleteConnection` | core/connection.go:705-725 | The row, and its identifier in all lists of the other role in the workspace |
| `LinkedConnections.ValidateLinkedConnections` | core/connection.go:2291-2350 | Links are accepted exactly if the connector supports events, and they are distinct, known, of the other role and support events; they come out sorted |
| `ConnectionTransactions.SystemInvKept` | core/connection.go:1133-1152 | Each statement of a creation, link, unlink or deletion, interleaved with any others under the row locks, keeps the link relation, the exclusion of locks, and what the first statement of each transaction found |
| `ConnectionTransactions.CommitIsTheStep` | core/connection.go:679-740 | What a transaction commits is what it does as one step |
| `ConnectionTransactions.Serializable` | core/workspace.go:692-757 | Every interleaving of statements leads to the rows that some sequence of whole transactions leads to |
| `ConnectionTransactions.FirstStatement` | core/connection.go:1133-1143 | In every interleaving the first statement waits exactly while its row is held; then it goes on, or gives up what would change nothing |
| `ConnectionTransactions.SecondStatement` | core/connection.go:1143-1151 | The second waits exactly while a row that it updates is held; then the transaction is over, with all that it does as one step |
| `ConnectionTransactions.UnlinkFindsBothRows` | core/connection.go:1893-1904 | Between the statements of an unlink, whatever others do, the destination exists and is linked: the second update finds its row |
| `ConnectionTransactions.DeletionFindsTheSameRows` | core/connection.go:705-725 | From the deletion of the row on, nobody links to the connection or unlinks from it until the deletion commits |
| `Escaping.QueryEscape` | connectors/bodybuffer.go:304-366 | Copying by segments equals encoding byte by byte |
| `Escaping.EscapingIsUndone` | connectors/bodybuffer.go:302-366 | Decoding a form value gives back what was escaped |
| `Escaping.EscapedIsSafe` | connectors/bodybuffer.go:302-366 | Nothing but unreserved characters, plus and percent signs comes out |
| `Escaping.OneByte` | connectors/bodybuffer.go:302-366 | Which bytes stay, and what becomes of each other one, digit by digit |
| `Escaping.QuoteString` | connectors/clickhouse/quote.go:42-66 | The loop terminates, and equals quoting byte by byte |
| `Escaping.OneChar` | connectors/clickhouse/quote.go:42-66 | A quote or a backslash has a backslash in front, and nothing else does |
| `Escaping.QuotingIsUndone` | connectors/clickhouse/quote.go:42-66 | A literal in front of any text is read back as its string, and ends where it was ended |

## Left out

- Handlers, routing, cookies, configuration, connector and warehouse registries: plumbing around what is modelled.
- Liveness: that purges run, retries succeed or deleted pipelines are removed at last is not promised by the loops.
- 32-bit counter columns and the timeslots of metrics: counters are unbounded and a pipeline has one total.
- The transformation function that a run remembers, and the local contexts of running imports and exports, which only
  cancel work.
- Which changes of a pipeline reload it: the reset of the cursor is a parameter of the update.
- The contents of roles and mappings, and which operations lead from one schema to another: given to the transactions
  that store them.
- Pipelines with groups as their target, which no connector offers.
- Error texts of the filter parser and validator, and lexing of malformed JSON: a document is a stream of tokens, and
  reading it succeeds or fails.
- Floats, decimals, dates, times and regular expressions in filters: their parsers are unknown functions, and no round
  trip is claimed for them.
- Mappings as transformations: the check of the parents is the same test on their keys; only functions are covered by
  the theorem on leaves.
- The limits on connectors and connections of an organization, which count rows under a lock that snapshots decide.
- The warehouse side of an alteration or a resolution: how it answered is a parameter, and whether it needs a change of
  its tables is not modelled. The metrics that a successful resolution records are left out.
- Updates of identifiers: their validation; what matters here is that they look for pending operations without a lock.
- Retry intervals, the content that gzip produces, OAuth, tokens and mail.
- The warehouse behind the writes and keeps of an import, and the purge at its end.
- The tests of attributes that filter conditions are made of, as for equality or order: the evaluation asks for them.
- The order of strings in PostgreSQL is taken to be that of their bytes, as in Go.
- ConnectionTransactions.Serializable: the second statement of a transaction takes all its locks at once, and deadlocks
  are aborts at any time; `DeletionFindsTheSameRows` says why taking them one by one makes no difference.
- BodyBuffers.BodyBuffer.Close: two calls of Close at the same time, which the documentation does not speak of, are not
  modelled; a pooled buffer that json.Buffer reallocates is not accounted for as lost to the pool.
- PipelineCleaner.Cleaner.EndClose: waiting is the test of a counter; the tasks that the goroutines carry out, and the
  maps that keep two of them from the same workspace or pipeline, are not part of this model.
- PipelineObjects.EndRunsReplace: the copying of objects is modelled on values with references; in the heap are the
  objects that the executor files, and the test of a tick.
- PipelineStarts.StartsExactly: a tick that starts a pipeline creates a run, which checks the database again
  (`CheckCreation`); a workspace without a store, whose pipelines a tick skips, is not part of this model.
- Attributes.Node.SetAttribute: the loop is a recursion on the rest of the path.
- UserImport.Import: keeps are counted, not ordered; the batch of a record keeps it after records that follow it.
- The formats of numbers, dates, arrays and maps in ClickHouse literals.
