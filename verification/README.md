# Mock Loom: a verified model

Mock Loom serves mock HTTP integrations whose data sources are event-sourced.
This project models four of its components in Dafny and proves what they keep.

**Entity store** (Go). A data source has immutable snapshots, an append-only
event log and working rows. `EntityStore` is the stored state and its statements,
`Payloads` the JSON of events, `ReplayInvariant` and `InterleavedRuns` the
equality of rows and replay over every run of transactions, `Operations`,
`FullRollback` and `RuntimeBatch` what the services decide to write,
`SequentialRuns` and `SourceLife` what runs of whole operations keep, `Outcomes` when
each operation succeeds and what it leaves, in terms of its input and the tables,
`StaleTransactions` what a transaction does that others have overtaken,
`ConcurrentRuns` and `CountedRuns` what holds when operations overlap, `Witnesses`
runs in which a simple law fails, and `Database` the mutable object with the
code's loops and transactions, each method tied to the functions of the other
modules. Foreign keys are enforced, as the default connection string
asks (`apps/api/internal/config/config.go:93`).

An operation is split as the code splits it: a plan made by reads, and a
transaction; one connection runs transactions one at a time. A plan is *honest*
if each event says what its row write does. `InterleavedRuns` lets every
transaction of a run carry out any honest plan at all. `ConcurrentRuns` lets the
operations begin, make each of their queries and finish in any interleaving, and
shows that what they decide is honest although their answers come from different
states. `CountedRuns` adds when record counts survive this: each transaction must
still find what its operation read of its own source. `SequentialRuns` and
`SourceLife` run each operation at once.

**Route table** (Go). `Text`, `PathTemplates`, `PackPaths`: path normalisation and
base paths; `PathMeaning` says of any text whether it is a path, and which. `RouteTable`, `RouteService`: packs, rebasing, imports and route edits
under a uniqueness invariant, each operation at once. `RouteTransactions` is what a
statement or transaction does to tables that have changed since its values were
read, `RouteRuns` lets all operations begin, query and write in any interleaving,
and `RouteWitnesses` holds runs in which a pack loses an endpoint. `RuntimeRouting`:
the request resolver, with `Sorting`; `StoredRoutes` connects the two.

**Parsers** (TypeScript). `CsvRecords`, `CsvPreview`: the CSV record machine and
the preview over it. `PathTokens`, `PathSeparators`: the path-template tokens.

**Scenario order**. `Scenarios`: the editor's renumbering against the gateway's
selection.

`Wrappers` and `Seqs` are helpers. `dafny verify dfyconfig.toml` checks everything.

## Where the code falls short of a simple law

Each of these is stated with the exact condition or a witness.

- Rows and replay agree after an upload only if it commits in time order with
  distinct ids (`ReplayInvariant.UploadSafeIff`, `Witnesses.LateUploadLosesRows`).
- The promise of rollback to any prior state (`README.md:36` of the repository)
  does not reach states of absence: a rollback to an event that left a deletion is
  refused (`Operations.RollbackRefused`, `Witnesses.DeletionIsNotRestored`).
- A stored row with a reserved top-level key does not roll back to itself
  (`Operations.RawRollbackIff`, `Witnesses.KeyedRowIsNotRestored`).
- A sync that is overtaken stores a stale count (`SourceLife.RecountIsRightIff`,
  `Witnesses.OvertakenSyncStoresStaleCount`).
- A plan that an upload of its source overtakes can leave a wrong count
  (`StaleTransactions.CommittedCountsAreRightIff`, `StaleTransactions.OvertakenPutCountIff`,
  `Witnesses.OvertakenCreationStoresStaleCount`).
- A deletion overtaken by a rename leaves snapshots that the next source on that
  slug inherits; if another source has the slug already, it loses its snapshots,
  rows and events (`StaleTransactions.DeleteIsHarmlessIff`,
  `StaleTransactions.OvertakenDeleteWipesSuccessor`, `Witnesses.OvertakenDeleteRun`).
- A token list that starts with a parameter gains an empty text
  (`PathTokens.TokenizeUndoesSerializeIff`, `PathTokens.LeadingParamGainsText`).
- Mixed line endings can lose a blank CSV record (`CsvRecords.ParseOfPrint`).
- Moving a pack to a base and back does not restore paths under either base
  (`PackPaths.MoveThereAndBackIff`, `PackPaths.MoveThereAndBackLosesBase`).
- A CSV column named `__proto__` is listed but its cells are not shown
  (`CsvPreview.EveryCellIsShownIff`, `CsvPreview.ProtoCellIsNotShown`).
- A rebase does not move endpoints that are added or edited between its listing and
  its transaction, and any other change of a pack writes back the base it read
  (`RouteTransactions.StepKeepsBasedIff`, `RouteWitnesses.RebaseMissesEndpoint`,
  `RouteWitnesses.RenameRestoresOldBase`).
- An editor that a change of its endpoint's route overtakes writes over the endpoint
  that has taken the route (`RouteTransactions.WriteFollowsRoute`).
- Moving a scenario does nothing, since the list is re-sorted by the old
  priorities (`Scenarios.MoveIsNoOpOnNumbered`).

## Model

| member | source | states |
|---|---|---|
| Payloads.RawStateIsRestoredIff | apps/api/internal/core/usecase/data_debugger_service.go:479-505 | a stored row picked as rollback target comes back as itself exactly if it has none of the six reserved keys |
| Payloads.BuildersRecord | apps/api/internal/core/usecase/data_debugger_service.go:507-575 | the three payload builders succeed exactly on objects and null states, and record the states before and after, what was restored, and their labels |
| Payloads.RecordedStateIsRestored | apps/api/internal/core/usecase/data_debugger_service.go:457-505 | a rollback to a compensation or mutation event resolves to the state it left, and to nothing if it left a deletion |
| Payloads.FirstKeyDecides | apps/api/internal/core/usecase/data_debugger_service.go:479-505 | the keys of a state are asked in a fixed order; without them a compensation left nothing, and any other object is the state itself |
| EntityStore.RowDataUpsert | apps/api/internal/adapters/sqlite/store_data_sources.go:476-506 | an upsert leaves one row with the new data for its entity and changes no other entity and no other snapshot's count |
| EntityStore.RowDataDelete | apps/api/internal/adapters/sqlite/store_data_sources.go:509-520 | a delete leaves no row for its entity and changes no other entity |
| EntityStore.RowDataWithout | apps/api/internal/adapters/sqlite/store_data_sources.go:163-178 | wiping a set of snapshots removes exactly their rows |
| EntityStore.ReplayWithout | apps/api/internal/adapters/sqlite/store_data_sources.go:180-189 | deleting the events of a set of snapshots changes no other snapshot's replay |
| EntityStore.AppliedAllLog | apps/api/internal/adapters/sqlite/store_data_sources.go:523-529 | a transaction only appends: one event per write, in order, with fresh ids |
| EntityStore.Committed | apps/api/internal/adapters/sqlite/store.go:35-46 | a committed plan changes rows, log and record counts, and neither snapshots nor slugs |
| ReplayInvariant.WriteKeepsSync | apps/api/internal/core/usecase/data_debugger_service.go:142-154 | a row write with its event keeps rows and replay of every snapshot equal |
| ReplayInvariant.CommitKeeps | apps/api/internal/core/usecase/data_debugger_service.go:346-412 | the transaction of any honest plan, however stale, keeps the invariant: foreign keys, growing event ids, well-shaped payloads, every snapshot in sync or superseded |
| ReplayInvariant.NewSnapshotInSyncIff | apps/api/internal/adapters/sqlite/store_data_sources.go:592-676 | right after an upload the rows of its snapshot equal the replay exactly if the uploaded entity ids are distinct |
| ReplayInvariant.UploadKeeps | apps/api/internal/adapters/sqlite/store_data_sources.go:592-676 | an upload with distinct ids, later than every snapshot of its table, keeps the invariant |
| ReplayInvariant.UploadSafeIff | apps/api/internal/core/usecase/data_source_service.go:256-282 | exactly when an upload leaves the latest snapshots of its table in sync, as a condition on what is there before |
| ReplayInvariant.LatestIsInSync | apps/api/internal/adapters/sqlite/store_data_sources.go:252-268 | under the invariant the latest snapshot of every table shows exactly the replay of its log, one row per entity |
| InterleavedRuns.RenameKeeps | apps/api/internal/adapters/sqlite/store_data_sources.go:115-160 | a rename between any plan and its commit keeps the invariant |
| InterleavedRuns.DeleteKeeps | apps/api/internal/adapters/sqlite/store_data_sources.go:163-210 | so does a deletion, with whatever slug it was given |
| InterleavedRuns.ReplayTheorem | apps/api/internal/core/usecase/data_debugger_service.go:142-412 | after every run of transactions from the empty store, stale plans included, the latest snapshot of every table shows the replay of its log |
| InterleavedRuns.RunKeepsSingle | apps/api/db/migrations/0001_init.up.sql:104-111 | in every such run no snapshot ever has two rows for one entity, although no constraint forbids it |
| InterleavedRuns.StoredRowsAreObjects | apps/api/internal/core/usecase/data_debugger_service.go:107-412 | in every such run every stored row, also of older snapshots, is a JSON object |
| InterleavedRuns.DuplicateIdsLoseSync | apps/api/internal/core/usecase/data_source_service.go:233-261 | an upload with two rows of one id always breaks the equality of rows and replay |
| ConcurrentRuns.AnswerIsHonest | apps/api/internal/core/usecase/data_debugger_service.go:107-412 | whatever each single query finds, in whatever state of the run it is asked, the operation ends up with writes whose events say what the row writes do |
| ConcurrentRuns.UninterruptedReads | apps/api/internal/core/usecase/data_debugger_service.go:107-412 | if nothing comes between the queries of an operation, they decide exactly its plan |
| ConcurrentRuns.UninterruptedIsServed | apps/api/internal/core/usecase/data_debugger_service.go:107-422 | every operation that nothing interrupts, its queries and its transaction, leaves the store its specification says |
| ConcurrentRuns.ProjectionIsRead | apps/api/internal/core/usecase/data_debugger_service.go:287-412 | a full rollback that has found its baseline always gets to its transaction, whatever commits before its last query |
| ConcurrentRuns.OverlappingReplayTheorem | apps/api/internal/core/usecase/data_debugger_service.go:107-412 | under every interleaving of the single queries and the transactions of all operations, with uploads finishing in time order, the latest snapshot of every table shows the replay of its log |
| ConcurrentRuns.OverlappingRowsAreObjects | apps/api/internal/core/usecase/data_debugger_service.go:107-412 | and every stored row is a JSON object |
| ConcurrentRuns.OverlappingRowsAreSingle | apps/api/db/migrations/0001_init.up.sql:104-111 | and no snapshot has two rows for one entity |
| ConcurrentRuns.OverlappingRollbackRestores | apps/api/internal/core/usecase/data_debugger_service.go:183-259 | at any moment of such a run a rollback to a logged state, run at once, restores exactly that state and nothing else |
| CountedRuns.StepKeepsTally | apps/api/internal/adapters/sqlite/store_data_sources.go:532-589 | a transaction within its window (the counted snapshots are still the latest, the slug read is still the source's, the count read still the stored one) keeps one owner per snapshot and every record count right |
| CountedRuns.OverlappingCountsTheorem | apps/api/internal/core/usecase/data_debugger_service.go:107-422 | after every step of every interleaved run whose transactions finish within their windows, every record count is the number of rows of the latest snapshot, and every snapshot has one owner |
| CountedRuns.StepKeepsLatest | apps/api/internal/adapters/sqlite/store_data_sources.go:252-268 | no transaction but an upload of the source itself moves the latest snapshot of a source that stays |
| CountedRuns.WindowLasts | apps/api/internal/core/usecase/data_debugger_service.go:107-163 | so a snapshot looked up as the latest still is at the commit, if no upload of that source finishes in between and the source stays |
| Operations.FindLatestIff | apps/api/internal/adapters/sqlite/store_data_sources.go:252-268 | a latest snapshot is found exactly if the table has one |
| Operations.FindEventById | apps/api/internal/adapters/sqlite/store_data_sources.go:426-451 | every logged event of the table and entity is found by its id |
| Operations.CreatePutsPayload | apps/api/internal/core/usecase/data_debugger_service.go:107-163 | creating an entity gives it exactly the payload, touches no other entity, appends one event and recounts |
| Operations.RollbackRestores | apps/api/internal/core/usecase/data_debugger_service.go:183-259 | in every reachable store, after any uploads, rolling back to a logged event that left a state succeeds, restores exactly that state, touches no other entity and appends one event recording both states |
| Operations.LoggedIdIsClean | apps/api/internal/core/usecase/data_debugger_service.go:112-114 | the entity id of every logged event is trimmed and not blank, so a caller who passes it gets past the checks |
| Operations.RollbackRefused | apps/api/internal/core/usecase/data_debugger_service.go:207-215 | a rollback to an event that left a deletion, or to an unknown event, is refused |
| Operations.RawRollbackIff | apps/api/internal/core/usecase/data_debugger_service.go:457-505 | a rollback to a baseline or created row restores it unchanged exactly if it has no reserved key |
| FullRollback.LastWriteWins | apps/api/internal/adapters/sqlite/store_data_sources.go:476-520 | after a list of writes every entity has what the last write to it says, and what is not written stays |
| FullRollback.CurrentMapIsRows | apps/api/internal/core/usecase/data_debugger_service.go:295-298 | the map of current states has exactly the entities with a row, with the row's data |
| FullRollback.BaselineMapOfItems | apps/api/internal/adapters/sqlite/store_data_sources.go:368-392 | the baseline read back from the log is what the upload stored |
| FullRollback.WritesKeepBaseline | apps/api/internal/core/usecase/data_debugger_service.go:300-303 | no later write changes the baseline of a snapshot |
| FullRollback.EnumeratesLength | apps/api/internal/core/usecase/data_debugger_service.go:317-352 | the loops over maps visit each key once, so the reported numbers are the numbers of differing and surplus entities |
| FullRollback.FullRollbackRestores | apps/api/internal/core/usecase/data_debugger_service.go:262-422 | in whatever order the maps are iterated, a full rollback makes the projection the baseline, keeps other snapshots, and appends one event per differing entity |
| FullRollback.SecondReading | apps/api/internal/core/usecase/data_debugger_service.go:287-352 | after a full rollback the next one reads a projection equal to the baseline |
| FullRollback.NothingLeftToRollBack | apps/api/internal/core/usecase/data_debugger_service.go:317-421 | and then writes no row and appends no event |
| RuntimeBatch.MutationWriteIsHonest | apps/api/internal/core/usecase/runtime_gateway_service.go:670-689 | on stored states the payload of a mutation is always built and its event says what its row write does |
| RuntimeBatch.TurnKeeps | apps/api/internal/core/usecase/runtime_gateway_service.go:452-555 | one mutation fails exactly if it does not resolve in the store before the batch, whatever the earlier ones wrote |
| RuntimeBatch.BatchIsFold | apps/api/internal/core/usecase/runtime_gateway_service.go:439-575 | a batch is the left fold of its mutations with entity ids and payloads of the fixed environment; only the recorded state before depends on earlier ones; it succeeds exactly if every mutation resolves |
| RuntimeBatch.BatchCommits | apps/api/internal/core/usecase/runtime_gateway_service.go:223-240 | a successful batch appends one event per mutation, keeps the invariant, and leaves every entity as its last mutation says |
| SequentialRuns.ExactlyOneOwner | apps/api/db/migrations/0002_data_sources.up.sql:1-14 | every snapshot belongs to exactly one live source |
| SequentialRuns.WritesRecordBefores | apps/api/internal/core/usecase/runtime_gateway_service.go:498-548 | every written event that records a state before records the replayed one |
| SequentialRuns.FreshPlanKeepsGood | apps/api/internal/core/usecase/data_debugger_service.go:142-154 | a plan made from the present state commits, and keeps owners, record counts and recorded states right |
| SequentialRuns.CreateIsFresh | apps/api/internal/core/usecase/data_debugger_service.go:107-141 | the plan of a creation writes one honest change to the latest snapshot and recounts it |
| SequentialRuns.RollbackIsFresh | apps/api/internal/core/usecase/data_debugger_service.go:183-236 | so does the plan of a rollback, which records the true state before |
| SequentialRuns.FullRollbackIsFresh | apps/api/internal/core/usecase/data_debugger_service.go:293-396 | the plan of a full rollback records true states before, for every entity |
| SequentialRuns.BatchIsFresh | apps/api/internal/core/usecase/runtime_gateway_service.go:498-574 | so does a batch, and it recounts exactly the sources it touches over their latest snapshots |
| SourceLife.NewSourceStartsEmpty | apps/api/internal/core/usecase/data_source_service.go:62-97 | a new source, also on the slug of a deleted one, has no snapshots |
| SourceLife.UploadKeepsGood | apps/api/internal/core/usecase/data_source_service.go:179-292 | an upload in order with distinct ids keeps all of this and sets the count to the number of rows |
| SourceLife.RenamePreserves | apps/api/internal/adapters/sqlite/store_data_sources.go:115-153 | a rename keeps the source's snapshots, its initial and latest one, all rows and its timeline |
| SourceLife.RenameKeepsGood | apps/api/internal/core/usecase/data_source_service.go:100-143 | and keeps the store good |
| SourceLife.DeleteKeepsGood | apps/api/internal/core/usecase/data_source_service.go:146-168 | deleting a source with its own slug leaves all others as they were and the store good |
| SourceLife.RecountIsRightIff | apps/api/internal/core/usecase/data_source_service.go:295-325 | in a store whose counts are right, the write of a sync keeps them right exactly if no other transaction has changed the stored count since the sync counted |
| SourceLife.SyncChangesNothing | apps/api/internal/core/usecase/data_source_service.go:295-325 | run at once, a sync finds the stored count right |
| SourceLife.ServeKeepsGood | apps/api/internal/core/usecase/data_debugger_service.go:107-422 | every operation, failed or not, leaves a good store |
| SourceLife.EveryRunIsGood | apps/api/internal/core/usecase/data_source_service.go:62-325 | in every store that any run of whole operations reaches: one owner per snapshot, record counts equal to row counts, recorded states equal to replayed ones, and only objects in rows |
| SourceLife.FirstUploadIsBaseline | apps/api/internal/adapters/sqlite/store_data_sources.go:592-676 | the first upload of a source is its first baseline |
| SourceLife.FirstBaselineStays | apps/api/internal/adapters/sqlite/store_data_sources.go:233-249 | no operation but its deletion ever changes the first baseline of a source |
| SourceLife.CompleteRollbackRestoresFirst | apps/api/internal/core/usecase/data_debugger_service.go:262-422 | a full rollback succeeds exactly if the source has a non-empty first baseline, and then the projection is that baseline |
| SourceLife.FirstBaselineLasts | apps/api/internal/adapters/sqlite/store_data_sources.go:233-249 | along every run, as long as the source is there, its first baseline is the one it had |
| SourceLife.FirstUploadDecidesRollback | apps/api/internal/core/usecase/data_debugger_service.go:262-422 | after the first upload of a source with items, and any run of operations after it, a full rollback succeeds and makes the projection the uploaded items |
| StaleTransactions.CommittedCountsAreRightIff | apps/api/internal/adapters/sqlite/store_data_sources.go:532-589 | in a store with right counts, committing a plan of any age keeps all of them right exactly if every counted snapshot is still the latest of its source, or the entities it holds before, less those the plan touches and with those it puts last, are as many as the source counts |
| StaleTransactions.OvertakenPutCountIff | apps/api/internal/core/usecase/data_debugger_service.go:142-163 | a creation or rollback that an upload overtakes leaves the count right exactly if the old snapshot, with one row more for a new entity, has as many rows as the source counts |
| StaleTransactions.DeleteIsHarmlessIff | apps/api/internal/core/usecase/data_source_service.go:146-168 | in any store whose owners and counts are right, also in the middle of overlapping operations, a deletion with an earlier read slug keeps them right and all other sources untouched exactly if the slug is still the source's or neither slug names a snapshot |
| StaleTransactions.OvertakenDeleteWipesSuccessor | apps/api/internal/adapters/sqlite/store_data_sources.go:163-210 | a source that took the slug meanwhile loses its snapshots, rows and events, and its record count is then wrong unless it was zero |
| StaleTransactions.OvertakenDeleteLeavesOrphans | apps/api/internal/core/usecase/data_source_service.go:157-167 | a deletion overtaken by a rename leaves snapshots without a source, which the next source on the slug inherits |
| Witnesses.UploadsAreAcceptable | apps/api/internal/core/usecase/data_source_ingestion.go:165-221 | the uploads of the runs below are files that the parser takes: objects of one shape under non-blank keys, with their own distinct ids |
| Witnesses.LateUploadLosesRows | apps/api/internal/core/usecase/data_source_service.go:228-282 | concrete run: of two uploads the one with the earlier time is carried out last and wipes the row of the other, whose snapshot stays the latest, so replay fails |
| Witnesses.OvertakenCreationStoresStaleCount | apps/api/internal/core/usecase/data_debugger_service.go:107-163 | concrete run: a creation finds its snapshot, an upload of three rows finishes, and the creation stores the count one |
| Witnesses.OvertakenSyncStoresStaleCount | apps/api/internal/core/usecase/data_source_service.go:295-325 | concrete run: a sync counts two rows, an entity is created, the sync stores two where there are three |
| Witnesses.OvertakenDeleteRun | apps/api/internal/core/usecase/data_source_service.go:146-168 | concrete run: a deletion reads its slug, a rename and a new source with an upload finish, and the deletion wipes the new source's snapshot and orphans the old one's |
| Witnesses.KeyedRowIsNotRestored | apps/api/internal/core/usecase/data_debugger_service.go:479-505 | concrete run: an uploaded row with the key "after" whose baseline event rolls back to another state |
| Witnesses.DeletionIsNotRestored | apps/api/internal/core/usecase/data_debugger_service.go:207-215 | concrete run: a request deletes a row, and the rollback to that logged event is an error |
| Outcomes.RegisterOutcome | apps/api/internal/core/usecase/data_source_service.go:62-97 | a source is registered exactly if no source of the integration has its slug, with no rows and no other change |
| Outcomes.RenameOutcome | apps/api/internal/core/usecase/data_source_service.go:100-143 | a source is renamed exactly if it exists and the slug is free for it; its snapshots follow, nothing else changes |
| Outcomes.DeleteOutcome | apps/api/internal/adapters/sqlite/store_data_sources.go:163-210 | a deletion takes the source, the snapshots under its slug, their rows and events, and nothing else |
| Outcomes.UploadOutcome | apps/api/internal/adapters/sqlite/store_data_sources.go:592-676 | an upload adds one snapshot with a row and an event for each item, counts them, and takes the rows of the older snapshots of the table |
| Outcomes.SyncOutcome | apps/api/internal/core/usecase/data_source_service.go:295-325 | a sync stores the number of rows of the latest snapshot, zero without one, and changes nothing else |
| Outcomes.CreateOutcome | apps/api/internal/core/usecase/data_debugger_service.go:107-163 | a creation succeeds exactly for a non-blank id, a payload, a source and a snapshot; the entity then has the payload, logged as it is |
| Outcomes.RollbackOutcome | apps/api/internal/core/usecase/data_debugger_service.go:183-259 | a rollback succeeds exactly for an event of the timeline that left a state; the entity then has that state, and the event says which one it went back to |
| Outcomes.ExecuteSucceedsIff | apps/api/internal/core/usecase/runtime_gateway_service.go:452-555 | a batch succeeds exactly if every mutation is UPSERT or DELETE, names a source with a snapshot, has a non-blank id, and for UPSERT an object as its payload |
| Outcomes.ExecuteOutcome | apps/api/internal/core/usecase/runtime_gateway_service.go:481-555 | the last mutation about an entity decides it: after UPSERT its row is the payload, after DELETE it has no row; every event has action, before, after, kind and scenario of its mutation |
| Outcomes.FullRollbackEvents | apps/api/internal/core/usecase/data_debugger_service.go:354-396 | every event of a full rollback says whether it upserts or deletes, between which states, and for which snapshot |
| Database.Store.UpsertWorkingEntity | apps/api/internal/adapters/sqlite/store_data_sources.go:476-506 | the statements compute the specified rows; fails only for a missing snapshot |
| Database.Store.DeleteWorkingEntity | apps/api/internal/adapters/sqlite/store_data_sources.go:509-520 | computes the rows without the entity |
| Database.Store.AppendEntityEvent | apps/api/internal/adapters/sqlite/store_data_sources.go:523-529 | appends the event under a fresh id, or fails and changes nothing |
| Database.Store.CountWorkingEntities | apps/api/internal/adapters/sqlite/store_data_sources.go:532-540 | counts the rows of the snapshot |
| Database.Store.UpdateSyncStats | apps/api/internal/adapters/sqlite/store_data_sources.go:572-589 | sets the count, or finds no source and changes nothing |
| Database.Store.FindWorkingEntity | apps/api/internal/adapters/sqlite/store_data_sources.go:454-473 | the current state of the entity, null without a row |
| Database.Store.FindLatestSnapshotID | apps/api/internal/adapters/sqlite/store_data_sources.go:252-268 | a newest snapshot of the table, whatever the scan order, and none exactly if the table has none; the specified one if creation times differ |
| Database.Store.FindInitialSnapshotID | apps/api/internal/adapters/sqlite/store_data_sources.go:233-249 | an oldest snapshot of the table, whatever the scan order, and none exactly if the table has none; the specified one if creation times differ |
| Database.Store.FindTimelineEvent | apps/api/internal/adapters/sqlite/store_data_sources.go:426-451 | the event with the id in the table's timeline of the entity |
| Database.Store.CommitPlan | apps/api/internal/adapters/sqlite/store.go:35-46 | carries out a plan on whatever the store has become: all of it, or an error and no change |
| Database.Store.ReplaceBaseline | apps/api/internal/adapters/sqlite/store_data_sources.go:592-676 | all of an upload, or an error and no change |
| Database.Store.Create | apps/api/internal/adapters/sqlite/store_data_sources.go:84-112 | a new source with an unused slug, or a conflict and no change |
| Database.Store.Update | apps/api/internal/adapters/sqlite/store_data_sources.go:115-160 | the new slug on the source and on its snapshots |
| Database.Store.Delete | apps/api/internal/adapters/sqlite/store_data_sources.go:163-210 | rows, events and snapshots of the table and the source go together, or nothing does |
| Database.BuildItems | apps/api/internal/core/usecase/data_source_service.go:233-261 | each parsed row gets its own id or a digest, which a row without an id then stores |
| Database.Store.CreateEntity | apps/api/internal/core/usecase/data_debugger_service.go:107-163 | the outcome is the specified one, errors leave the store alone, and the store stays good |
| Database.Store.RollbackEntity | apps/api/internal/core/usecase/data_debugger_service.go:183-259 | the outcome is the specified one, errors leave the store alone, and the store stays good |
| Database.Store.PlanUpserts | apps/api/internal/core/usecase/data_debugger_service.go:317-341 | the loop over the baseline map finds exactly the entities that are absent or different |
| Database.Store.PlanRemoves | apps/api/internal/core/usecase/data_debugger_service.go:343-352 | the loop over the current map finds exactly the entities the baseline lacks |
| Database.Store.RollbackComplete | apps/api/internal/core/usecase/data_debugger_service.go:262-422 | the specified outcome for the orders its loops took; the reported numbers are those of the upserted and the removed entities, and the log grew by their sum |
| Database.Store.ApplyMutation | apps/api/internal/core/usecase/runtime_gateway_service.go:452-555 | one turn of the loop is the specified one |
| Database.Store.Execute | apps/api/internal/core/usecase/runtime_gateway_service.go:223-240 | mutations, recounts and traffic record together, or an error and no change to any of them, also when only the traffic insert fails |
| Database.Store.UploadBaseline | apps/api/internal/core/usecase/data_source_service.go:179-292 | the outcome is the specified one; the store stays good for distinct ids in time order |
| Database.Store.RenameDataSource | apps/api/internal/core/usecase/data_source_service.go:100-143 | the specified outcome, and the store stays good |
| Database.Store.DeleteDataSource | apps/api/internal/core/usecase/data_source_service.go:146-168 | the specified outcome, and the store stays good |
| Database.Store.SyncNow | apps/api/internal/core/usecase/data_source_service.go:295-325 | counts and stores; run at once it changes nothing |
| Text.CollapseSlashes | apps/api/internal/core/usecase/integration_service.go:1255-1257 | the loop of replacements terminates with every run of slashes as one |
| PathTemplates.NormalizeParamName | apps/api/internal/core/usecase/integration_service.go:1365-1391 | the builder loop squeezes every run of other characters to one underscore and trims |
| PathTemplates.ParamNameFixes | apps/api/internal/core/usecase/integration_service.go:1365-1391 | a normal name is a fixed point |
| PathTemplates.NormalizedSegmentIsGood | apps/api/internal/core/usecase/integration_service.go:1340-1363 | an accepted segment is trimmed, free of braces, and a parameter in it has a normal name |
| PathTemplates.NormalizePathTemplate | apps/api/internal/core/usecase/integration_service.go:1243-1280 | trimming, slashing, collapsing and the segment loop compute: the normalised non-empty pieces, rendered with single slashes |
| PathTemplates.NormalizeIdempotent | apps/api/internal/core/usecase/integration_service.go:1243-1280 | every accepted path normalises to a fixed point with the same segments |
| PathTemplates.RenderInjective | apps/api/internal/core/usecase/integration_service.go:1243-1280 | normal paths and lists of good segments correspond one to one |
| PathMeaning.PathAcceptedIff | apps/api/internal/core/usecase/integration_service.go:1243-1363 | a path is accepted exactly if it is not blank, has no question mark, and every non-empty piece is a colon or braces around a text with a letter or digit, or has neither colon in front nor braces |
| PathMeaning.ParamNameIsRuns | apps/api/internal/core/usecase/integration_service.go:1365-1391 | the name of a parameter is the runs of letters and digits of any text, joined with underscores |
| PathMeaning.PathMeans | apps/api/internal/core/usecase/integration_service.go:1243-1363 | what an accepted path becomes, piece by piece |
| PathMeaning.BracesAreColon | apps/api/internal/core/usecase/integration_service.go:1346-1358 | in any path a parameter in braces and one with a colon normalise alike, or are both refused |
| PathMeaning.BracesExample | apps/api/internal/core/usecase/integration_service.go:1352-1358 | concrete path: /users/{id} is /users/:id |
| PackPaths.StartsAtBaseIsPrefix | apps/api/internal/core/usecase/integration_service.go:1306-1316 | the textual test for a base path is a prefix test on segments |
| PackPaths.ComposeOnSegments | apps/api/internal/core/usecase/integration_service.go:1282-1304 | composing prepends the base's segments unless the path has them already |
| PackPaths.RelativeOnSegments | apps/api/internal/core/usecase/integration_service.go:1318-1338 | taking the base off drops its segments if the path has them |
| PackPaths.ComposeLandsUnderBase | apps/api/internal/core/usecase/integration_service.go:1282-1304 | a composed path is normal and under the base at a segment boundary |
| PackPaths.ComposeIdempotent | apps/api/internal/core/usecase/integration_service.go:1282-1304 | composing again changes nothing, for every base and path |
| PackPaths.ComposeEqualIff | apps/api/internal/core/usecase/integration_service.go:1282-1304 | exactly when two paths compose to the same one |
| PackPaths.ComposeInjective | apps/api/internal/core/usecase/integration_service.go:1282-1316 | composition is injective on paths not under the base |
| PackPaths.ComposeUndoesRelativeIff | apps/api/internal/core/usecase/integration_service.go:1282-1338 | composing undoes taking the base off exactly if the base does not repeat |
| PackPaths.MoveThereAndBackIff | apps/api/internal/core/usecase/integration_service.go:332-340 | moving a pack to another base and back restores a path exactly if its relative part lies under neither base |
| PackPaths.MoveFromRootLosesBase | apps/api/internal/core/usecase/integration_service.go:332-340 | every path under a base comes back without that base when its pack is moved from the root to the base and back |
| PackPaths.MoveThereAndBackLosesBase | apps/api/internal/core/usecase/integration_service.go:332-340 | concrete paths: /a/x moved from / to /a and back is /x |
| RouteTable.RouteKeyInjective | apps/api/internal/core/usecase/integration_service.go:1231-1233 | between stored routes the textual key identifies method and path |
| RouteTable.EditedRouteMeaning | apps/api/internal/core/usecase/integration_service.go:1094-1113 | an edit is accepted for a method and a path that does not repeat the base, and lands under the base |
| RouteTable.EveryPartialRebaseIsUnique | apps/api/internal/core/usecase/integration_service.go:321-375 | if the rebase checks pass, whichever rows are already moved, method and path are unique |
| RouteTable.RebaseAllowedIffSafe | apps/api/internal/core/usecase/integration_service.go:321-375 | the rebase checks are exact: they pass if and only if the rows can be moved in every order without a clash |
| RouteTable.RebasedTableIsGood | apps/api/internal/core/usecase/integration_service.go:361-375 | after a rebase the table is good under the new base |
| RouteTable.ImportStepKeeps | apps/api/internal/core/usecase/integration_service.go:486-567 | one import turn keeps the table good and counts its route once |
| RouteTable.ImportFoldKeeps | apps/api/internal/core/usecase/integration_service.go:482-567 | created, updated and skipped add up to the routes, and the table grows by the created ones |
| RouteTable.FoldWrites | apps/api/internal/core/usecase/integration_service.go:482-567 | a successful import leaves an endpoint with validated content for every route, and counts each key once |
| RouteTable.PrepareMeans | apps/api/internal/core/usecase/integration_service.go:486-560 | a route can be imported exactly if no other pack has it, and its contract or else the default one, and the kept or else the default scenarios are valid; this is what its endpoint then holds |
| RouteTable.FoldImports | apps/api/internal/core/usecase/integration_service.go:482-567 | an import succeeds exactly if every path composes and the first route of every key can be imported; every such route then has its own contract, not the default one, and keeps its id, policy and valid scenarios |
| RouteTable.FoldSettles | apps/api/internal/core/usecase/integration_service.go:482-567 | with a validator that leaves what it validated alone, no endpoint would be changed by its route again |
| RouteTable.ReimportIsIdentityIff | apps/api/internal/core/usecase/integration_service.go:426-577 | importing the same routes again changes no endpoint, ids included, exactly if validating the stored scenarios of these routes once more leaves them as they are; then it creates nothing |
| RouteTable.ReimportIsIdentity | apps/api/internal/core/usecase/integration_service.go:426-577 | so with a validator that leaves what it validated alone, repeating an import creates nothing and changes no endpoint |
| RouteTable.ValidationKeepsValue | apps/api/internal/core/validation/endpoint_payload.go:62-259 | validation accepts exactly the arrays that pass its checks, in any layout, and returns a text that reads as the same value |
| RouteTable.ValidatedScenariosAreCanonical | apps/api/internal/core/validation/endpoint_payload.go:62-259 | validating a validated scenario text returns it again, whatever is checked, if the JSON library reads back what it prints |
| RouteService.Tables.CreatePack | apps/api/internal/core/usecase/integration_service.go:204-244 | exactly when a pack is refused, in conflict over its slug, or created, and with which fields |
| RouteService.Tables.UpdatePackRow | apps/api/internal/adapters/sqlite/store.go:500-528 | one pack row updated, or a slug conflict and no change |
| RouteService.Tables.UpdateRow | apps/api/internal/adapters/sqlite/store.go:692-716 | one row updated, or not found, or a uniqueness conflict and no change |
| RouteService.Tables.UpsertRow | apps/api/internal/adapters/sqlite/store.go:652-689 | whoever holds the method and path is overwritten under its id, otherwise a row is inserted, which fails for an id in use or a missing pack |
| RouteService.Tables.UpdateEndpointRoute | apps/api/internal/core/usecase/integration_service.go:1078-1129 | refused, in conflict, or stored; the table stays good |
| RouteService.Tables.PlanRebase | apps/api/internal/core/usecase/integration_service.go:312-360 | the checking loop, in any order, accepts exactly the allowed rebases and collects one row for each endpoint of the pack |
| RouteService.Tables.CommitRebase | apps/api/internal/core/usecase/integration_service.go:366-382 | whatever has changed since the checks: the pack and all listed rows, or the error of the first statement that fails and every table as it was |
| RouteService.Tables.UpdatePack | apps/api/internal/core/usecase/integration_service.go:247-383 | refused for a blank field, a bad base path or a bad policy, in conflict over its slug or a route, or every given field set, every other kept, and the endpoints moved with it; the table stays good and slugs distinct |
| RouteService.Tables.ReadImport | apps/api/internal/core/usecase/integration_service.go:458-472 | the index loops, in any order, describe the table |
| RouteService.Tables.ImportPackRoutes | apps/api/internal/core/usecase/integration_service.go:426-577 | succeeds exactly if every path composes and the first route of every key can be imported, and then each of these has an endpoint with its own validated contract, or the default one if it has none; errors keep earlier routes, counters add up, the table stays good |
| RouteTransactions.StepKeepsSound | apps/api/internal/adapters/sqlite/store.go:500-528 | every statement and transaction, with values however old, keeps routes and slugs unique, paths normal and every endpoint in a pack |
| RouteTransactions.StepKeepsBasedIff | apps/api/internal/core/usecase/integration_service.go:366-376 | it keeps every endpoint under the base of its pack exactly if its routes lie under the base as it is at the commit, or as the step makes it, and so do the endpoints a rebase does not know of |
| RouteTransactions.SoundAndBasedIsGood | apps/api/internal/core/usecase/integration_service.go:247-383 | the two together are the invariant of operations that run at once |
| RouteTransactions.AllowedRebaseMoves | apps/api/internal/core/usecase/integration_service.go:330-375 | after the checks the row updates succeed in every order of the listing and make the rebased table |
| RouteTransactions.WriteFollowsRoute | apps/api/internal/core/usecase/integration_service.go:1033-1049 | content is written to the route its endpoint had: to the endpoint if it still has it, to whoever has taken it, or refused |
| RouteTransactions.EditedPackMeans | apps/api/internal/core/usecase/integration_service.go:260-299 | a pack edit is accepted exactly without blank fields and bad base path, with a policy that serializes; given fields are trimmed and set, others kept |
| RouteRuns.AnswerIsNormal | apps/api/internal/core/usecase/integration_service.go:247-360 | whatever state of the run each query meets, the operation carries on with normal values, under the base that it read |
| RouteRuns.OverlappingRoutesStayUnique | apps/api/internal/core/usecase/integration_service.go:204-1170 | under every interleaving of the queries and writes of all route operations, method and path and pack slugs stay unique, paths normal, and every endpoint in a pack |
| RouteRuns.BasedThroughoutIff | apps/api/internal/core/usecase/integration_service.go:204-1170 | along any run all endpoints stay under the bases of their packs exactly as long as every write that succeeds lands |
| RouteRuns.WindowLands | apps/api/internal/core/usecase/integration_service.go:247-575 | a write lands if the base it read is unchanged, for changed content if the endpoint has its route still, and for a rebase if it knows of every endpoint of the pack outside the new base |
| RouteRuns.OverlappingRoutesTheorem | apps/api/internal/core/usecase/integration_service.go:204-1170 | so every interleaved run whose writes finish within these windows leaves a good table |
| RouteRuns.BaseLasts | apps/api/internal/core/usecase/integration_service.go:303-309 | only a finished pack edit with another base changes the base of a pack |
| RouteRuns.UninterruptedPackEdit | apps/api/internal/core/usecase/integration_service.go:247-383 | with nothing between its queries and its transaction a pack edit is refused by the checks or makes exactly the rebased table |
| RouteRuns.UninterruptedRouteEdit | apps/api/internal/core/usecase/integration_service.go:1078-1129 | a route edit without interruption reaches its statement exactly if it is accepted and the route is free, and changes one row |
| RouteRuns.UninterruptedContentEdit | apps/api/internal/core/usecase/integration_service.go:1033-1049 | an edit of content sets what is given, keeps or defaults the rest, and leaves the route and all other endpoints |
| RouteRuns.UninterruptedIndexes | apps/api/internal/core/usecase/integration_service.go:458-475 | the two indexes an import reads, if from one table, describe it |
| RouteRuns.UninterruptedImport | apps/api/internal/core/usecase/integration_service.go:482-567 | and its turns, one right after the other, are the fold of the routes |
| RouteRuns.UninterruptedImportJob | apps/api/internal/core/usecase/integration_service.go:426-577 | an import without interruption leaves every first route of a key imported if all can be, and no pack changed |
| RouteWitnesses.RebaseMissesEndpoint | apps/api/internal/core/usecase/integration_service.go:312-375 | concrete run: an import adds a route between the listing and the transaction of a rebase, which leaves it outside the new base |
| RouteWitnesses.RenameRestoresOldBase | apps/api/internal/core/usecase/integration_service.go:299-309 | concrete run: a change of a pack's name writes back the base it read before a rebase, with the new route outside of it |
| RuntimeRouting.NormalizeRuntimePath | apps/api/internal/core/usecase/runtime_gateway_service.go:800-815 | the statements compute the specified path, and its loop ends |
| RuntimeRouting.SegmentsOfRuntimePath | apps/api/internal/core/usecase/runtime_gateway_service.go:800-868 | for every string the segments of the normalised path are the non-blank trimmed pieces of the string |
| RuntimeRouting.MatchesPathTemplate | apps/api/internal/core/usecase/runtime_gateway_service.go:817-835 | matches exactly if the segments agree one by one or are parameters |
| RuntimeRouting.ExtractPathParams | apps/api/internal/core/usecase/runtime_gateway_service.go:837-852 | every parameter has the request segment of its last place, and nothing else is extracted |
| RuntimeRouting.ExtractThenSubstituteIff | apps/api/internal/core/usecase/runtime_gateway_service.go:837-852 | filling the parameters in gives the request segments exactly if repeated names met equal segments |
| RuntimeRouting.RouteSpecificityScore | apps/api/internal/core/usecase/runtime_gateway_service.go:888-899 | the loop computes ten per literal segment plus one per segment |
| RuntimeRouting.ScoreCountsLiterals | apps/api/internal/core/usecase/runtime_gateway_service.go:888-899 | among the templates matching one request the score orders by literal segments |
| RuntimeRouting.HeadOfStableSort | apps/api/internal/core/usecase/runtime_gateway_service.go:346-350 | the head of the stable sort has the best score, and is the first of those in the list |
| RuntimeRouting.ResolveRuntimeEndpoint | apps/api/internal/core/usecase/runtime_gateway_service.go:320-351 | among the routes whose trimmed upper-case method is the request's: the first exact one, else the matching template with most literals, ties to the first; none exactly if none matches |
| RuntimeRouting.AnswerIsUnique | apps/api/internal/core/usecase/runtime_gateway_service.go:320-351 | there is only one such answer |
| RuntimeRouting.OtherMethodsDoNotMatter | apps/api/internal/core/usecase/runtime_gateway_service.go:331-335 | a route of another method never changes it, wherever it stands in the list |
| RuntimeRouting.TemplateIff | apps/api/internal/core/usecase/runtime_gateway_service.go:854-886 | a segment is a parameter exactly if it is a colon before, or braces around, a name that is not blank |
| RuntimeRouting.LiteralsArePlaces | apps/api/internal/core/usecase/runtime_gateway_service.go:888-899 | the counted literals are the places that hold none |
| StoredRoutes.StoredPathIsRuntimePath | apps/api/internal/core/usecase/runtime_gateway_service.go:800-815 | a stored path is left alone by the gateway, which sees the segments it was stored with |
| StoredRoutes.RuntimePathIsJoin | apps/api/internal/core/usecase/runtime_gateway_service.go:800-815 | of any text: its non-empty pieces as they stand, one slash before each, and a lone slash without any |
| CsvRecords.ParseRecords | apps/web/src/features/data-sources/preview.ts:52-151 | the character loop computes the specified machine |
| CsvRecords.ParseOfPrint | apps/web/src/features/data-sources/preview.ts:52-151 | reading any printed document, with any quoting and any mix of line endings, never fails, and gives the printed rows exactly if no blank record is lost |
| CsvRecords.UniformRoundTrip | apps/web/src/features/data-sources/preview.ts:52-151 | with one line ending throughout, printing and reading give exactly the rows (section 2 of RFC 4180) |
| CsvRecords.AcceptedIffPrinted | apps/web/src/features/data-sources/preview.ts:52-151 | the reader accepts exactly the texts that are printed documents, with any quoting and line endings |
| CsvRecords.MixedEndingsLoseARow | apps/web/src/features/data-sources/preview.ts:124-135 | concrete document: CR and then a blank record ended by LF read as one line ending |
| CsvRecords.AcceptedPayloadsReprint | apps/web/src/features/data-sources/preview.ts:52-151 | whatever is accepted can be printed in a plain form that reads as the same rows |
| CsvPreview.NormalizeHeader | apps/web/src/features/data-sources/preview.ts:172-184 | accepts exactly the headers whose trimmed names are distinct and not blank |
| CsvPreview.ParsePreview | apps/web/src/features/data-sources/preview.ts:153-239 | a preview exactly of the payloads that hold a rectangular table with a good header, showing its first twenty rows and columns, but no cell of a column named __proto__ |
| CsvPreview.PreviewDeterminesTable | apps/web/src/features/data-sources/preview.ts:191-238 | two tables have the same preview exactly if they agree, after trimming, in shape, column names and shown cells |
| CsvPreview.EveryCellIsShownIff | apps/web/src/features/data-sources/preview.ts:203-216 | a preview shows every visible cell exactly if no visible column is named __proto__ |
| CsvPreview.ProtoCellIsNotShown | apps/web/src/features/data-sources/preview.ts:206-213 | concrete file: a column named __proto__ is listed, and its row is shown empty |
| PathTokens.ReplaceChainIsNormalName | apps/web/src/features/endpoint-editor/path-template.ts:139-145 | the chain of replacements is a single squeezing pass |
| PathTokens.NormalNameFacts | apps/web/src/features/endpoint-editor/path-template.ts:139-145 | the normal names are exactly the fixed points; the chain is idempotent |
| PathTokens.ConsumeParamSegment | apps/web/src/features/endpoint-editor/path-template.ts:193-204 | reads up to a slash, a question mark or the end, and refuses an empty name |
| PathTokens.MergeAdjacentTexts | apps/web/src/features/endpoint-editor/path-template.ts:178-191 | leaves no two texts side by side, keeps the serialized text, and changes nothing if there were none |
| PathTokens.ReadParam | apps/web/src/features/endpoint-editor/path-template.ts:28-46 | the two branches that start a parameter |
| PathTokens.Tokenize | apps/web/src/features/endpoint-editor/path-template.ts:19-59 | the index loop computes the specified tokens |
| PathTokens.NothingOpens | apps/web/src/features/endpoint-editor/path-template.ts:28-59 | a source in which nothing opens a parameter is one text |
| PathTokens.FirstOpens | apps/web/src/features/endpoint-editor/path-template.ts:28-59 | the first closed brace, or colon before a non-empty segment, ends the text before it and is a parameter with what stands up to its end; with the row above this determines the tokens of every source |
| PathMeaning.EditorNameIsRuns | apps/web/src/features/endpoint-editor/path-template.ts:139-145 | the editor's name of a parameter is the runs of letters and digits in lower case with underscores between, and one at an end where the text has something else |
| PathTokens.TokenizeUndoesSerializeIff | apps/web/src/features/endpoint-editor/path-template.ts:19-70 | for texts without colon and brace, tokenizing what was serialized gives the list back exactly if it is canonical |
| PathTokens.LeadingParamGainsText | apps/web/src/features/endpoint-editor/path-template.ts:206-211 | concrete lists: one that starts with a parameter comes back with an empty text before it |
| PathSeparators.NormalizeAdjacentParams | apps/web/src/features/endpoint-editor/path-template.ts:151-176 | the two passes compute the specified list |
| PathSeparators.NormalizeAdjacentParts | apps/web/src/features/endpoint-editor/path-template.ts:151-176 | the result keeps all parameters apart; exactly the lists that do so are left alone; so it is idempotent |
| PathSeparators.OnlySeparatorsChange | apps/web/src/features/endpoint-editor/path-template.ts:151-176 | the result is the one such list that differs from the given one only in empty texts and slashes alone between parameters |
| Sorting.StableSortFacts | apps/api/internal/core/usecase/runtime_gateway_service.go:582-584 | the stable sort sorts and keeps equal keys in order |
| Sorting.StableSortIsUnique | apps/api/internal/core/usecase/runtime_gateway_service.go:582-584 | and is the only function that does |
| Scenarios.SelectRuntimeScenario | apps/api/internal/core/usecase/runtime_gateway_service.go:588-640 | the scenario whose condition holds and before which all are blank or fail; an error exactly for the first that breaks before any holds; no match exactly if all are blank or fail |
| Scenarios.RuntimeTakesLeastDecider | apps/api/internal/core/usecase/runtime_gateway_service.go:577-640 | sorting and then searching takes the deciding scenario of least priority, the earliest among equals |
| Scenarios.RuntimeSelectionMeans | apps/api/internal/core/usecase/runtime_gateway_service.go:577-640 | the same three answers over the unsorted list, by priority and then by place |
| Scenarios.FallbackAnswers | apps/web/src/features/endpoint-editor/scenario-compile.ts:59-62 | with a fallback, or a draft without a condition, there is always an answer, or an error |
| Scenarios.AnswerIsDraft | apps/web/src/features/endpoint-editor/scenario-compile.ts:17-41 | the answer is a draft whose condition holds, with its trimmed name, priority and content |
| Scenarios.NormalizeNumbers | apps/web/src/features/endpoint-editor/scenario-model.ts:112-120 | normalised priorities are 10, 20, 30 and so on, and normalising again changes nothing |
| Scenarios.RenumberingKeepsSelection | apps/web/src/features/endpoint-editor/scenario-model.ts:112-120 | for any drafts and any outcomes of their conditions, renumbering leaves the gateway's pick or error unchanged |
| Scenarios.AppendGoesLast | apps/web/src/features/endpoint-editor/scenario-model.ts:122-128 | appending to a normalised list keeps it normalised, with the new scenario, its number, priority and condition last |
| Scenarios.DuplicateGoesBehind | apps/web/src/features/endpoint-editor/scenario-model.ts:130-162 | the copy, with its new id, name and condition, lands behind its original and the list stays normalised |
| Scenarios.RemoveKeepsOrder | apps/web/src/features/endpoint-editor/scenario-model.ts:183-189 | removing keeps the order of the rest and the list normalised |
| Scenarios.MoveSurvivesIffTied | apps/web/src/features/endpoint-editor/scenario-model.ts:164-181 | a move is undone by the re-sort exactly unless the two neighbours are tied and different |
| Scenarios.MoveMeans | apps/web/src/features/endpoint-editor/scenario-model.ts:164-181 | in any list a move does what the re-sort leaves of a swap of two neighbours: nothing but the re-sort if their priorities differ, the swap in a sorted list if they are the same |
| Scenarios.MoveIsNoOpOnNumbered | apps/web/src/features/endpoint-editor/scenario-model.ts:164-181 | so on a normalised list moving a scenario does nothing |

## Left out

- SQL text, drivers and JSON text: tables are maps and sequences, stored JSON is a datatype whose equality is that of normalised text; a number in it is an integer.
- Identifiers and clocks: ids are numbers taken from a counter, so they are always fresh; times are integer parameters. Stored times are text; runs in which two snapshots of a table have the same creation time are left out, uploads finish in time order.
- Query order of events: baseline and timeline are read in append order; the code orders by time and random id, which differs only between events of one batch or of duplicate ids.
- Source status, last-sync time, row ids, update times and schema overrides of the entity store, and the check that the integration exists.
- Rewriting slugs in stored expressions on a rename; a rename here changes snapshots and source rows only.
- Expression evaluation, scenario conditions, contract validation and the checks on scenarios: given functions.
- Execute beyond its transaction: authentication, response encoding and delay. Traffic is a list of texts.
- Parsing of uploaded files on the server and of import payloads: parsed rows and converted routes are arbitrary, the latter with normal non-empty methods as the converters produce them.
- Letter case and white space: upper case of methods and mutation types and lower case of slugs are those of ASCII; white space is that of Go, also for trimming draft names in the editor; the preview's trim is a parameter.
- Token ids and the sharing of token objects in the path-template editor: tokens are values.
- An upsert that meets both an id in use and a route in use is taken to follow the conflict clause of the route; the code does not say which constraint the database checks first.
- Endpoint revisions, timestamps, import warnings, and the serialization of authentication policies, whose outcome is a parameter.
- Digests of rows without an id: a given function, assumed to yield trimmed text that is not blank.
- The JSON preview, the entity list with its filters and paging, autocomplete, authentication policies, backups and the HTTP layer.
- Database.Store.Execute: does not model a failing recount, because inside the transaction the touched sources cannot be missing; the outcome of the traffic insert is a parameter.
- Database.Store.CreateEntity: takes a payload that serializes, because every JSON value here does.
