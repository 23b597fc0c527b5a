# Rustice in Dafny

A Dafny 4.11 model of the parts of the Rustice engine whose correctness is decided by its own code,
with proofs about every input, every run or every reachable state. `dafny verify dfyconfig.toml`
checks the whole project.

The parts, and what is proved of each:

- **MERGE as copy-on-write.** The planner joins only the data files that hold a match, a per-column
  CASE computes the new values under three-valued logic, and a sink replaces the files it saw. For
  every order and batching of the joined rows, the committed table is the projection of the full join
  of the *whole* target with the source (`CommittedIsWholeMerge`, `SinkCommits`). On a row, the
  per-column CASE agrees with a row-at-a-time reading for all values exactly when the clause it follows
  is the one that fires first or neither names the column (`RowAgreesIff`); by the shape of the column
  lists alone, exactly when those are exact (`PerColumnCaseIsExact`). For statements whose CASE is exact
  on the joined rows, as with exact column lists (`ExactListsSuffice`) or at most one UPDATE firing per
  pair (`OneUpdatePerPairSuffices`), the committed table is the standard MERGE exactly when no target row
  matches twice and every unmatched source row fires an INSERT (`CommittedIsStandardMerge`): a second
  match duplicates the target row, and an unmatched source row for which no INSERT fires is written as a
  row of NULLs (`UnmatchedRowBecomesNulls`). The committed rows carry the values the clauses' own text
  gives them, by position for INSERT and by name for UPDATE (`CommittedByInsert`, `CommittedByUpdate`).
- **Query lifecycle.** Submitters, gated tasks, waiters, aborters, discard timers and retried requests
  interleave over two shared maps and a watch channel. One inductive invariant gives: a query leaves
  the registry only after its final status is published, notify always finds its entry, no waiter gets
  a receive error, a result handle is in exactly one place, an answer is Ok exactly when Success was
  published, Ok(v) only after the query finished with v and cancelled only after an abort
  (`AnswerIsOwnOutcome`, `CancelledOnlyAfterAbort`), a retry never submits, every waiter or aborter of a started query has a continuation to its
  end, and the concurrency limit is exceeded by exactly as much as submissions overlap between check and
  insert.
- **Metastore.** Four keyed maps with cascades, and a cache outside the lock. What every call stores,
  removes and refuses is stated slot by slot (`WrittenIsRead`, `DeletedIsGone`, `RefusedIffCause`). A call keeps referential
  integrity exactly when a condition on its arguments and the present state holds
  (`KeepsIntegrityIff`), hence whole runs (`RunIntegralIff`). Under all interleavings every stored
  volume is cached when no writer holds the lock, so `create_table` never waits for a lock it holds; the
  cached store is the volume's own throughout a run exactly when no lookup writes back a store that has
  changed since it read it (`RunFreshIff`), and only stored volumes are cached exactly when none writes
  one back that is gone (`RunLeanIff`).
  A table's link to a volume of its own, which deletion ignores, has its own exact condition
  (`KeepsTableVolumesIff`). Bootstrapping only adds, and adds what its entries describe (`BootstrapFills`); it is idempotent, and a
  complete configuration succeeds (`CompleteConfigSucceeds`). After any run of it, stopped by an
  error or not, integrity holds exactly when the database names of the entries applied resolve in
  lowercase among them, and so does the name of a table entry that stopped it (`ApplyIntegralIff`).
- **Case-insensitive scans.** The rewritten scan is the scan of the lowercased relation for every
  filter tree, projection and limit; the catalog's choice of when to rewrite is right for all calls
  exactly when some column name has no small letter or none has a capital (`ScanRightIff`).
- **Small exact algorithms.** JSON path tokenizing and printing, JSON key canonicalisation, plan
  metrics, timestamp encodings and TIME strings, and the civil-date loop.

Values, rows and relations are finite sequences and maps; SQL expressions are trees whose leaves may be
arbitrary functions of a row. Objects the code mutates are classes here, each method proved against a
function on values. Clocks, network and storage appear as parameters that decide success or failure.

Where the code and its own comments differ, the code is modelled: the comments in `convert_time` speak
of one zero more than the scale when the fraction is zero, while the code pads to exactly the scale;
the comment on `unique_files_and_manifests` asks for sorted files, which the code does not need.

## Model

| member | source | states |
|---|---|---|
| SqlExpr.CaseIsPick | crates/executor/src/query.rs:3318-3331 | A CASE yields the result of its first branch whose condition is TRUE, else its ELSE. |
| SqlExpr.OrAllTrue | crates/executor/src/query.rs:3242-3252 | OR folded over conditions from FALSE is TRUE exactly when one of them is, NULLs included. |
| SqlExpr.OrAllFalse | crates/executor/src/query.rs:3242-3252 | It is FALSE exactly when all of them are, so for a statement without clauses of the kind. |
| SqlExpr.ThreeValuedLogic | crates/executor/src/query.rs:3166-3252 | AND is the smaller and OR the greater of two truth values, FALSE before unknown before TRUE. |
| MergeClauses.PushPairs | crates/executor/src/query.rs:3181-3204 | Pushing assignments appends to each named column's list, in order, and touches no other column. |
| MergeClauses.NullOmitted | crates/executor/src/query.rs:3232-3234 | Columns an INSERT omits lose what was recorded for them and get one NULL branch. |
| MergeClauses.AssignmentError | crates/executor/src/query.rs:3179-3195 | There is no error exactly when every assignment names a column and its value can be planned. |
| MergeClauses.ClauseRefused | crates/executor/src/query.rs:3150-3230 | Which defect of a clause is refused with which error, for every clause, in the order they are looked for. |
| MergeClauses.UpdateStep | crates/executor/src/query.rs:3177-3206 | After an UPDATE clause the map holds the update branches of the clauses so far. |
| MergeClauses.InsertStep | crates/executor/src/query.rs:3207-3235 | After an INSERT clause the map holds the insert branches of the clauses so far. |
| MergeClauses.MergeClauseProjection | crates/executor/src/query.rs:3150-3254 | The loop over clauses returns the specified projection, or the error of the first bad clause, rejected expressions included. |
| MergeClauses.CollectMergeClauseExpressions | crates/executor/src/query.rs:3293-3357 | Each target column gets a CASE of its update then insert branches, else the old column. |
| MergeRows.FirstFiring | crates/executor/src/query.rs:3166-3176 | The reference: the least index of a clause whose condition is TRUE of the row, if any. |
| MergeRows.FiresBySide | crates/executor/src/query.rs:3166-3175 | With its guard TRUE a MATCHED clause fires on pairs only, a NOT MATCHED one on unmatched source rows only. |
| MergeRows.InsertedValues | crates/executor/src/query.rs:3219-3234 | An INSERT that fires first gives its i-th column its i-th value and NULL to every column without one. |
| MergeRows.UpdatedValues | crates/executor/src/query.rs:3181-3204 | An UPDATE that fires first gives the last part of each assigned name that assignment's value and keeps the rest. |
| MergeRows.ConditionMeansFires | crates/executor/src/query.rs:3166-3175 | On join rows the planned condition is TRUE exactly when the clause's kind and guard hold. |
| MergeRows.FlagsMeanFires | crates/executor/src/query.rs:3242-3252 | No join row has both flags TRUE, and each is TRUE exactly when a clause of that kind fires. |
| MergeCase.ColumnExprMeaning | crates/executor/src/query.rs:3293-3352 | The exact value of a column's CASE in terms of the clause list, for every row. |
| MergeCase.UpdateDecider | crates/executor/src/query.rs:3181-3204 | The first UPDATE clause that fires and names the column. |
| MergeCase.InsertDecider | crates/executor/src/query.rs:3219-3234 | The first INSERT clause that fires among those no later omission has erased. |
| MergeCase.CaseValue | crates/executor/src/query.rs:3293-3352 | The CASE takes the value of the clause it follows, else the old value. |
| MergeCase.ExactColumnAgrees | crates/executor/src/query.rs:3166-3239 | On a row where the CASE follows the first firing clause, or neither names the column, it gives that clause's value. |
| MergeCase.TargetRowExactIff | crates/executor/src/query.rs:3181-3204 | A target row is exact when the first firing clause names the column or no firing UPDATE does. |
| MergeCase.OneUpdateFiresIsExact | crates/executor/src/query.rs:3181-3204 | Where at most one clause fires a target row is exact for every column. |
| MergeRowExact.InexactRowIsWrong | crates/executor/src/query.rs:3166-3239 | On a row that is not exact some values make the CASE wrong. |
| MergeRowExact.RowAgreesIff | crates/executor/src/query.rs:3166-3239 | On every row, CASE and reference agree for all values exactly when the row is exact. |
| MergeShape.ShapeIsRowExact | crates/executor/src/query.rs:3166-3239 | Exact column lists make every row exact. |
| MergeShape.GuardedApartIsRowExact | crates/executor/src/query.rs:3166-3204 | UPDATE clauses over different columns with opposite guards are right on every target row. |
| MergeShape.OverriddenUpdate | crates/executor/src/query.rs:3181-3204 | An UPDATE that omits a column, then one that names it: the later value overrides the first firing clause. |
| MergeShape.ForgottenValue | crates/executor/src/query.rs:3232-3234 | A value recorded before an INSERT that omits the column is lost even when its clause fires first. |
| MergeShape.LeakedValue | crates/executor/src/query.rs:3219-3234 | After two omissions a later INSERT's value is used although an earlier clause fires first. |
| MergeShape.UpdateExactNecessary | crates/executor/src/query.rs:3181-3204 | Inexact UPDATE column lists have guards, values and a row on which CASE and reference differ. |
| MergeShape.InsertExactNecessary | crates/executor/src/query.rs:3219-3234 | The same for inexact INSERT column lists. |
| MergeShape.PerColumnCaseIsExact | crates/executor/src/query.rs:3150-3357 | CASE and reference agree for every statement of a shape exactly when its column lists are exact. |
| MergePlan.JoinRowsFlagged | crates/executor/src/query.rs:1506-1510 | The existence columns of a full join tell which sides are present. |
| MergePlan.JoinRowReads | crates/executor/src/query.rs:1506-1544 | A join row reads the columns of the target row and of the source row it is made of, NULL on a padded side. |
| MergePlan.OnlyTrueJoins | crates/executor/src/query.rs:1533-1544 | A pair joins exactly when its ON condition is TRUE; a NULL condition leaves both rows alone. |
| MergePlan.ProjectionMakesOutRow | crates/executor/src/query.rs:3242-3357 | Read by name and position, the planned projection is the row handed to the sink, each flag telling its own kind of clause. |
| MergePlan.TargetOnlyUnchanged | crates/executor/src/query.rs:3311-3352 | A target row without a match is projected unchanged, with neither flag TRUE. |
| MergePlan.ReservedColumnKept | crates/executor/src/query.rs:3311-3314 | The plan's own columns pass through the projection. |
| MergePlan.ProjectedFile | crates/executor/src/query.rs:1521-1531 | An output row carries its target row's file and manifest, or NULLs for a source-only row. |
| MergePlan.ProjectedPresence | crates/executor/src/query.rs:3293-3352 | The target's existence column reaches the sink TRUE on target rows and NULL on added ones. |
| MergePlan.AffectedIff | crates/executor/src/query.rs:1521-1531 | A data file is rewritten exactly when it holds a row with a TRUE ON condition for some source row. |
| MergePlan.PruningKeepsUnmatchedSource | crates/executor/src/query.rs:1533-1544 | Restricting the target to files that hold all matches leaves the unmatched source rows the same. |
| MergePlan.PrunedFullJoin | crates/executor/src/query.rs:1521-1544 | The full join splits into that of the affected files and the other files' rows, as multisets. |
| MergePlan.PrunedMergeIsWholeMerge | crates/executor/src/query.rs:1521-1570 | Projected pruned join plus untouched rows equals the projected join of the whole target. |
| MergeSink.UniqueFilesComplete | crates/executor/src/datafusion/physical_plan/merge.rs:477-531 | Skipping repeats of the previous file still finds every file, sorted or not. |
| MergeSink.UniqueFilesCarried | crates/executor/src/datafusion/physical_plan/merge.rs:477-531 | The manifest collected for a file is that of one of its rows. |
| MergeSink.CollectedComplete | crates/executor/src/datafusion/physical_plan/merge.rs:369-380 | Over any batching the collected files are those of the rows, each under a manifest of its rows. |
| MergeSink.CollectedUnder | crates/executor/src/datafusion/physical_plan/merge.rs:369-380 | Where rows of a file agree on its manifest, a file is collected under exactly that manifest. |
| MergeSink.LaterBatchDecides | crates/executor/src/datafusion/physical_plan/merge.rs:369-380 | A batch decides the manifest of its own files and leaves the others as collected before. |
| MergeSink.TrueCountConcat | crates/executor/src/datafusion/physical_plan/merge.rs:443-454 | Counting TRUE and valid flags per batch adds up over batches. |
| MergeSink.CountAndProjectStream.constructor | crates/executor/src/datafusion/physical_plan/merge.rs:299-359 | A new stream has seen nothing. |
| MergeSink.CountAndProjectStream.PollBatch | crates/executor/src/datafusion/physical_plan/merge.rs:318-419 | A batch is counted, its files collected, and its table columns passed on with the target's existence column. |
| MergeSink.CountAndProjectStream.Finish | crates/executor/src/datafusion/physical_plan/merge.rs:421-434 | Each collected file is listed under its collected manifest and no other. |
| MergeSink.GroupByManifest | crates/executor/src/datafusion/physical_plan/merge.rs:421-434 | Every file is listed under its own manifest and no other. |
| MergeSink.Commit | crates/executor/src/datafusion/physical_plan/merge.rs:213-230 | Appends when nothing was collected, else removes each collected file from the manifest it is listed under. |
| MergeSink.Execute | crates/executor/src/datafusion/physical_plan/merge.rs:145-273 | The table loses exactly the collected files under their manifests and gains all written rows. |
| MergeSink.ReplacedIsCommittedIff | crates/executor/src/datafusion/physical_plan/merge.rs:145-273 | The files removed are those the rows came from exactly when each is collected under its own rows' manifest. |
| MergeSink.ReplacedIsCommitted | crates/executor/src/datafusion/physical_plan/merge.rs:145-273 | Where rows of a file agree on its manifest, that is the files and manifests of the rows, for any batching. |
| MergeEndToEnd.OutputTraceable | crates/executor/src/query.rs:1564-1570 | Every output row that names a file names its manifest. |
| MergeEndToEnd.OutputOneManifest | crates/executor/src/query.rs:1521-1570 | With one manifest per target file, output rows of a file agree on its manifest. |
| MergeEndToEnd.SinkFindsAffectedFiles | crates/executor/src/query.rs:1521-1570 | The sink's input carries a target row's file and manifest exactly when its file holds a matching row. |
| MergeEndToEnd.CommittedIsWholeMerge | crates/executor/src/query.rs:1338-1588 | The committed table is, as a multiset, the projected full join of the whole target and the source. |
| MergeEndToEnd.SinkCommits | crates/executor/src/datafusion/physical_plan/merge.rs:145-273 | For every batching, what the sink commits is that table, given one manifest per data file. |
| MergeEndToEnd.ExactListsSuffice | crates/executor/src/query.rs:3166-3239 | Exact column lists make the CASE exact on every join. |
| MergeEndToEnd.OneUpdatePerPairSuffices | crates/executor/src/query.rs:3166-3239 | So does at most one clause firing per matching pair, with exact INSERT lists. |
| MergeEndToEnd.CommittedIsStandardMerge | crates/executor/src/query.rs:1338-1588 | Where the CASE is exact on the joined rows, it is the standard MERGE exactly when no row matches twice and unmatched source rows all insert. |
| MergeEndToEnd.StandardMergeNeeds | crates/executor/src/query.rs:1338-1588 | Whatever the column lists, a double match or an unmatched row that nothing inserts rules out the standard MERGE. |
| MergeEndToEnd.UpdateOnlyIntoEmptyTable | crates/executor/src/query.rs:1564-1570 | Without INSERT clauses an empty target gains one row of NULLs per source row. |
| MergeEndToEnd.UnmatchedRowBecomesNulls | crates/executor/src/query.rs:1564-1570 | A concrete UPDATE-only statement that commits a NULL row. |
| MergeEndToEnd.ReportedCounts | crates/executor/src/datafusion/physical_plan/merge.rs:145-273 | The reported counts are the rows of the whole join on which a clause of the kind fires. |
| MergeEndToEnd.InsertedCountIsStandard | crates/executor/src/datafusion/physical_plan/merge.rs:145-273 | The inserted count is the number of unmatched source rows for which an INSERT fires. |
| MergeCommittedRows.StandardMergeKeeps | crates/executor/src/query.rs:1533-1544 | A target row with no pair whose ON condition is TRUE is kept as it is, NULL conditions included. |
| MergeCommittedRows.CommittedByInsert | crates/executor/src/query.rs:3219-3234 | An unmatched source row whose first firing clause is an INSERT is committed with that clause's values by position, NULL elsewhere. |
| MergeCommittedRows.CommittedByUpdate | crates/executor/src/query.rs:3181-3204 | A matching pair whose first firing clause is an UPDATE is committed with the assigned values by name, the rest as stored. |
| RunningQueries.RunningQueriesRegistry.constructor | crates/executor/src/running_queries.rs:124-129 | A new registry is empty. |
| RunningQueries.RunningQueriesRegistry.Add | crates/executor/src/running_queries.rs:169-177 | Indexes the request id, then inserts the entry, and changes nothing else. |
| RunningQueries.RunningQueriesRegistry.Remove | crates/executor/src/running_queries.rs:180-186 | Takes out exactly that entry and returns it, or reports it is not running. |
| RunningQueries.RunningQueriesRegistry.Abort | crates/executor/src/running_queries.rs:195-202 | Cancels that entry's token, or reports it is not running. |
| RunningQueries.RunningQueriesRegistry.NotifyQueryFinished | crates/executor/src/running_queries.rs:210-217 | Publishes the status on that entry's channel, or reports it is not running. |
| RunningQueries.RunningQueriesRegistry.LocateQueryId | crates/executor/src/running_queries.rs:225-233 | A request id gives the latest query indexed under it; a query id gives itself. |
| RunningQueries.AddedIsFound | crates/executor/src/running_queries.rs:169-177 | An added query is found with its entry and through its own request id, and nothing else changes. |
| RunningQueries.RemovedIsGone | crates/executor/src/running_queries.rs:180-186 | A removed query is gone, its request id stays, and nothing else changes. |
| RunningQueries.EntryChanged | crates/executor/src/running_queries.rs:195-217 | Cancelling and publishing each change one part of one entry and nothing else. |
| QueryTaskResult.FromQueryLimitExceeded | crates/executor/src/query_task_result.rs:38-46 | The limit error is consistent: an incident that carries the query's own id and a code. |
| QueryTaskResult.FromOutcome | crates/executor/src/query_task_result.rs:21-79 | The result is Ok(v) exactly for a query that finished with Ok(v), and each other ending has its own error, code and status, with the query's id. |
| QueryLifecycleProofs.TaskStepKeeps | crates/executor/src/service.rs:460-531 | Each step of a query's task keeps what is known of the query and of every client about it. |
| QueryLifecycleProofs.WaitStepKeeps | crates/executor/src/service.rs:381-413 | Each step of a waiter or aborter keeps it, and moves the handle at most once. |
| QueryLifecycleProofs.StepKeepsInv | crates/executor/src/service.rs:370-544 | Every step of every actor keeps the protocol's invariant. |
| QueryLifecycleProofs.ReachableInv | crates/executor/src/service.rs:370-544 | The invariant holds in every reachable state. |
| QueryLifecycleTheorems.StepIsRegistryCall | crates/executor/src/running_queries.rs:169-217 | Every step changes the registry by exactly the registry method it calls. |
| QueryLifecycleTheorems.LeavesOnlyAfterPublishing | crates/executor/src/service.rs:381-391 | A query leaves the registry only after a final status was published. |
| QueryLifecycleTheorems.NotifyFindsEntry | crates/executor/src/service.rs:510-510 | A task that notifies finds its entry, so its own result and status are never lost. |
| QueryLifecycleTheorems.PublishedIsFinal | crates/executor/src/running_queries.rs:79-84 | A published status never changes in any run. |
| QueryLifecycleTheorems.WaiterSeesFinalStatus | crates/executor/src/running_queries.rs:87-99 | No waiter is refused with a receive error; what it observes is the task's final status. |
| QueryLifecycleTheorems.ParkedWakesToStatus | crates/executor/src/running_queries.rs:92-98 | A parked waiter can continue exactly when the status is published. |
| QueryLifecycleTheorems.HandleInOnePlace | crates/executor/src/service.rs:381-391 | A registered query's result handle is in exactly one of registry, one client and discard task. |
| QueryLifecycleTheorems.AnswerMatchesStatus | crates/executor/src/service.rs:381-391 | An answer is the task's result, Ok exactly when Success was published, errors with its own id. |
| QueryLifecycleTheorems.IndexedStaysIndexed | crates/executor/src/running_queries.rs:169-177 | A request id once indexed stays indexed. |
| QueryLifecycleTheorems.RetryNeverSubmits | crates/api-snowflake-rest/src/server/logic.rs:174-199 | In any run a retry of an indexed request never submits; it follows the latest query at its lookup. |
| QueryHistory.ResultWasSelected | crates/executor/src/service.rs:460-531 | In every run a task's result is that of a select step of its own query in the run. |
| QueryHistory.SelectedOnce | crates/executor/src/service.rs:460-510 | No run selects an outcome for one query twice. |
| QueryHistory.AnswerIsOwnOutcome | crates/executor/src/service.rs:381-391 | An answer Ok(v) occurs only after that query finished with Ok(v), and each error only after the ending it names. |
| QueryHistory.ClientFollowsCall | crates/executor/src/service.rs:370-544 | In every run a client is about the query and request of its own call, for its own purpose, or refused. |
| QueryHistory.CancelledOnlyAfterAbort | crates/executor/src/service.rs:409-413 | No query ends as cancelled unless a client called abort for it and cancelled its token before. |
| QueryHistory.NotRunningIff | crates/executor/src/service.rs:381-413 | A waiter or aborter is refused exactly when its query is not registered, and the refusal names that query. |
| QueryHistory.FreshRequestSubmits | crates/api-snowflake-rest/src/server/logic.rs:174-199 | A request that is no retry, or whose id was never indexed, submits a query of its own under a new id. |
| QueryHistory.AdmittedIsRegistered | crates/executor/src/service.rs:432-541 | An admitted submission can go on to a started query that is found under its id and its request. |
| QueryProgress.TaskCanReturn | crates/executor/src/service.rs:460-531 | From any state of the invariant a started task can return without any client moving. |
| QueryProgress.WaiterCanEnd | crates/executor/src/service.rs:381-413 | From every reachable state a waiter or aborter of a started query has a continuation to its end. |
| QueryLimit.LoadStep | crates/executor/src/service.rs:432-436 | Only the count check raises registered plus admitted queries, by one, below the limit. |
| QueryLimit.ConcurrencyBound | crates/executor/src/service.rs:432-541 | With at most k submitters in flight, registered plus admitted never exceed limit - 1 + k. |
| QueryLimit.BoundReached | crates/executor/src/service.rs:432-541 | For every limit and k a run with at most k in flight reaches every count up to that bound. |
| QueryLimit.LimitKeptIffOneAtATime | crates/executor/src/service.rs:432-541 | Every run with at most k in flight keeps the limit exactly when k is one. |
| Metastore.InMemoryMetastore.constructor | crates/catalog-metastore/src/metastore.rs:97-103 | A new metastore is empty. |
| Metastore.InMemoryMetastore.CreateVolume | crates/catalog-metastore/src/metastore.rs:200-213 | Adds and caches a new volume, or fails and changes nothing. |
| Metastore.InMemoryMetastore.UpdateVolume | crates/catalog-metastore/src/metastore.rs:227-240 | Replaces a stored volume and its cached store, or fails. |
| Metastore.InMemoryMetastore.RemoveSchemas | crates/catalog-metastore/src/metastore.rs:259-267 | The loop removes exactly the collected schema keys. |
| Metastore.InMemoryMetastore.RemoveTables | crates/catalog-metastore/src/metastore.rs:268-276 | The loop removes exactly the collected table keys. |
| Metastore.InMemoryMetastore.RemoveDatabases | crates/catalog-metastore/src/metastore.rs:277-279 | The loop removes exactly the databases in use. |
| Metastore.InMemoryMetastore.RemoveBelow | crates/catalog-metastore/src/metastore.rs:259-276 | Every schema and table below the given databases goes, and no other. |
| Metastore.InMemoryMetastore.DeleteVolume | crates/catalog-metastore/src/metastore.rs:243-289 | Refuses a volume in use without cascade; else removes it, its cache entry and what it cascades to. |
| Metastore.InMemoryMetastore.CreateDatabase | crates/catalog-metastore/src/metastore.rs:322-335 | Adds a database on an existing volume under a free name, or fails. |
| Metastore.InMemoryMetastore.UpdateDatabase | crates/catalog-metastore/src/metastore.rs:349-361 | Replaces a stored database without looking at its volume, or fails. |
| Metastore.InMemoryMetastore.DeleteDatabase | crates/catalog-metastore/src/metastore.rs:364-397 | Refuses a database with schemas without cascade; else removes it with everything below. |
| Metastore.InMemoryMetastore.CreateSchema | crates/catalog-metastore/src/metastore.rs:422-440 | Adds a schema under its lowercased key when the database as written exists, or fails. |
| Metastore.InMemoryMetastore.UpdateSchema | crates/catalog-metastore/src/metastore.rs:454-468 | Replaces a stored schema, or fails. |
| Metastore.InMemoryMetastore.DeleteSchema | crates/catalog-metastore/src/metastore.rs:471-491 | Removes the schema's lowercased key and the tables whose key equals the name as written. |
| Metastore.InMemoryMetastore.VolumeObjectStore | crates/catalog-metastore/src/metastore.rs:292-308 | A cached store, else one built from the stored volume and cached, else none. |
| Metastore.InMemoryMetastore.CreateTable | crates/catalog-metastore/src/metastore.rs:511-615 | Adds a table to an existing schema and volume, or fails with the first failing check's error. |
| Metastore.InMemoryMetastore.RegisterTable | crates/catalog-metastore/src/metastore.rs:623-628 | Stores the table with no check. |
| Metastore.InMemoryMetastore.UpdateTable | crates/catalog-metastore/src/metastore.rs:642-685 | Replaces a stored table's metadata, or fails. |
| Metastore.InMemoryMetastore.DeleteTable | crates/catalog-metastore/src/metastore.rs:688-692 | Removes the table's key, present or not. |
| MetastoreLaws.WrittenIsRead | crates/catalog-metastore/src/metastore.rs:200-685 | After a successful create or update its slot holds exactly what was asked, the rest of an updated table kept, and every other slot is unchanged. |
| MetastoreLaws.DeletedIsGone | crates/catalog-metastore/src/metastore.rs:243-692 | A successful delete empties exactly the slots it takes away, cascades included. |
| MetastoreLaws.RefusedIffCause | crates/catalog-metastore/src/metastore.rs:200-692 | A call is refused with an error exactly when the maps give that error cause, earlier checks first. |
| MetastoreIntegrity.DeleteVolumeExact | crates/catalog-metastore/src/metastore.rs:243-289 | A cascade keeps integrity exactly when every database on the volume has a key among their idents. |
| MetastoreIntegrity.UpdateDatabaseExact | crates/catalog-metastore/src/metastore.rs:349-361 | An update keeps integrity exactly when the new volume exists or the database does not. |
| MetastoreIntegrity.CreateSchemaExact | crates/catalog-metastore/src/metastore.rs:422-440 | A created schema keeps integrity exactly when the lowercased database name exists too. |
| MetastoreIntegrity.DeleteSchemaExact | crates/catalog-metastore/src/metastore.rs:471-491 | Deletion keeps integrity exactly for lowercase names, a refusal, or no tables under the key. |
| MetastoreIntegrity.RegisterTableExact | crates/catalog-metastore/src/metastore.rs:623-628 | Registration keeps integrity exactly when the schema exists. |
| MetastoreIntegrity.AlwaysSafe | crates/catalog-metastore/src/metastore.rs:200-692 | All other operations keep integrity always. |
| MetastoreIntegrity.KeepsIntegrityIff | crates/catalog-metastore/src/metastore.rs:200-692 | Any call keeps integrity exactly when it is safe where it is made. |
| MetastoreIntegrity.RunIntegralIff | crates/catalog-metastore/src/metastore.rs:200-692 | A run is integral throughout exactly when each of its calls is safe. |
| MetastoreIntegrity.ErrorLeavesMaps | crates/catalog-metastore/src/metastore.rs:200-692 | An operation that returns an error leaves all four maps as they were. |
| MetastoreIntegrity.ConventionalRunsStayIntegral | crates/catalog-metastore/src/metastore.rs:243-685 | Runs with lowercase names, keys equal to idents and existing volumes stay integral. |
| MetastoreIntegrity.CascadeRemovesDependents | crates/catalog-metastore/src/metastore.rs:243-289 | A volume cascade removes exactly the entries that depend on it. |
| MetastoreIntegrity.DeleteSchemaRemovesDependents | crates/catalog-metastore/src/metastore.rs:471-491 | A lowercase schema deletion with cascade removes it and its tables only. |
| MetastoreIntegrity.DeletionUndoesCreation | crates/catalog-metastore/src/metastore.rs:200-692 | Deleting without cascade right after a creation restores all four maps; for a schema exactly when no table lies under its name as written. |
| MetastoreIntegrity.SchemaUndone | crates/catalog-metastore/src/metastore.rs:422-491 | A lowercase schema name is always restored by its deletion; the exact condition for any other. |
| MetastoreIntegrity.MixedCaseDeleteOrphansTable | crates/catalog-metastore/src/metastore.rs:471-491 | Four successful calls, then a mixed-case deletion that leaves a table without a schema. |
| MetastoreTableVolumes.KeepsTableVolumesIff | crates/catalog-metastore/src/metastore.rs:200-692 | A call keeps every table's own volume in place exactly when it deletes no volume that a surviving table lies on and registers no table without. |
| MetastoreTableVolumes.DeletedVolumeStrandsTable | crates/catalog-metastore/src/metastore.rs:243-289 | Five calls, then a volume deletion that succeeds, keeps integrity and leaves a table that cannot be updated. |
| MetastoreLock.StepKeepsItself | crates/catalog-metastore/src/metastore.rs:200-308 | A step keeps what its own thread knows of lock, volumes and cache. |
| MetastoreLock.StepKeepsOthers | crates/catalog-metastore/src/metastore.rs:200-308 | A step keeps what every other thread knows. |
| MetastoreLock.StepKeepsCached | crates/catalog-metastore/src/metastore.rs:200-308 | A step keeps every stored volume cached or about to be cached by the lock's holder. |
| MetastoreLock.StoredVolumesAreCached | crates/catalog-metastore/src/metastore.rs:200-308 | In every reachable state without a writer every stored volume is cached, lazy fills included. |
| MetastoreLock.CreateTableNeverBlocksOnItself | crates/catalog-metastore/src/metastore.rs:758-779 | create_table's lookup under the write lock hits the cache and never waits for a read lock. |
| MetastoreLock.SomeThreadCanMove | crates/catalog-metastore/src/metastore.rs:200-308 | While a call is unfinished some thread can take its next step. |
| MetastoreVolumeSteps.VolumeStepIsOperation | crates/catalog-metastore/src/metastore.rs:200-289 | Every step changes the volumes as the metastore operation it performs does, refusals included, and otherwise not. |
| MetastoreVolumeSteps.LookupReads | crates/catalog-metastore/src/metastore.rs:292-308 | A lookup ends at once, with no lock, exactly on a cached name; after a miss it caches what it read of the volume. |
| MetastoreVolumeSteps.RefusedWriterLeavesCache | crates/catalog-metastore/src/metastore.rs:200-240 | A writer goes on to cache a store exactly when its operation succeeds. |
| MetastoreStale.StepKeepsFreshIff | crates/catalog-metastore/src/metastore.rs:200-308 | A step keeps every cached store its volume's own exactly when it does not write back a store changed since it was read. |
| MetastoreStale.RunFreshIff | crates/catalog-metastore/src/metastore.rs:200-308 | Cached stores are right throughout a run exactly when the run has no such step. |
| MetastoreStale.OutstandingReadsDecide | crates/catalog-metastore/src/metastore.rs:292-308 | Some next step spoils a right cache exactly when a lookup is outstanding that read another store. |
| MetastoreStale.UpdatedVolumeCachedStale | crates/catalog-metastore/src/metastore.rs:292-308 | A run after which all calls are over and an updated volume is cached with its old store. |
| MetastoreStale.StepKeepsLeanIff | crates/catalog-metastore/src/metastore.rs:243-308 | A step keeps only stored volumes cached exactly when it does not write back a volume that is gone. |
| MetastoreStale.RunLeanIff | crates/catalog-metastore/src/metastore.rs:243-308 | Only stored volumes are cached throughout a run exactly when the run has no such step. |
| MetastoreStale.DeletedVolumeStaysCached | crates/catalog-metastore/src/metastore.rs:285-308 | A run after which all calls are over, nothing is stored and a deleted volume is cached. |
| Bootstrap.EnsureSchema | crates/catalog-metastore/src/metastore_bootstrap_config.rs:264-294 | Creates the schema if it is missing. |
| Bootstrap.EnsureDatabase | crates/catalog-metastore/src/metastore_bootstrap_config.rs:232-262 | Creates the database if it is missing, then its public schema. |
| Bootstrap.ApplyVolume | crates/catalog-metastore/src/metastore_bootstrap_config.rs:193-230 | Creates the volume if it is missing, then the database it names. |
| Bootstrap.ApplyTable | crates/catalog-metastore/src/metastore_bootstrap_config.rs:296-384 | Registers a missing table after ensuring its schema, or stops at the first error. |
| Bootstrap.ApplyEach | crates/catalog-metastore/src/metastore_bootstrap_config.rs:172-188 | A loop over entries applies them in order and stops at the first error. |
| Bootstrap.Apply | crates/catalog-metastore/src/metastore_bootstrap_config.rs:171-191 | The four loops apply volumes, databases, schemas and tables in that order. |
| BootstrapProofs.OnlyAdds | crates/catalog-metastore/src/metastore_bootstrap_config.rs:171-384 | Every entry of the four maps is still there with its value, also after an error. |
| BootstrapContents.BootstrapFills | crates/catalog-metastore/src/metastore_bootstrap_config.rs:171-384 | Slot by slot: what was there stays, what is new is what the first entry for it describes, file contents and volume included, and success fills every slot asked for. |
| BootstrapContents.AddedIsDescribed | crates/catalog-metastore/src/metastore_bootstrap_config.rs:193-384 | Every row not there before, after an error too, is described by an entry: ident, volume, and what its file holds. |
| BootstrapContents.FailureIs | crates/catalog-metastore/src/metastore_bootstrap_config.rs:193-384 | The error of a failing entry names what is missing. |
| BootstrapContents.CompleteConfigSucceeds | crates/catalog-metastore/src/metastore_bootstrap_config.rs:171-191 | A configuration whose names are its own or the metastore's, in any order within a kind, is applied without error. |
| BootstrapProofs.SecondApplyChangesNothing | crates/catalog-metastore/src/metastore_bootstrap_config.rs:171-384 | After a successful apply a second one succeeds and changes nothing, whatever the files hold. |
| BootstrapProofs.DatabasesAfter | crates/catalog-metastore/src/metastore_bootstrap_config.rs:232-254 | The databases afterwards are old ones or ones the configuration creates. |
| BootstrapProofs.FailsIff | crates/catalog-metastore/src/metastore_bootstrap_config.rs:193-384 | An entry fails exactly under its guards, and leaves nothing but the schema of a table whose database exists. |
| BootstrapProofs.RunStops | crates/catalog-metastore/src/metastore_bootstrap_config.rs:171-191 | A run is the entries before the first failing one, and what that one leaves. |
| BootstrapProofs.ApplyIntegralIff | crates/catalog-metastore/src/metastore_bootstrap_config.rs:171-384 | After every run, stopped or not, integrity holds exactly when the names applied, and a stopping table's, resolve in lowercase. |
| BootstrapProofs.SuccessIntegralIff | crates/catalog-metastore/src/metastore_bootstrap_config.rs:171-384 | After success integrity holds exactly when every mentioned name resolves in lowercase. |
| BootstrapProofs.StoppedRunBreaksIntegrity | crates/catalog-metastore/src/metastore_bootstrap_config.rs:171-294 | A stopped run whose whole configuration resolves and which leaves a schema without its database. |
| BootstrapProofs.LowercaseNamesKeepIntegrity | crates/catalog-metastore/src/metastore_bootstrap_config.rs:171-384 | With lowercase database names integrity holds at every point, errors included. |
| BootstrapProofs.MixedCaseNameBreaksIntegrity | crates/catalog-metastore/src/metastore_bootstrap_config.rs:193-294 | A concrete configuration that leaves a schema without its database. |
| ScanRewrite.RewriteCaseSensitiveScan | crates/catalog/src/table.rs:90-130 | The loop of positional projections renames the columns and keeps every row. |
| ScanRewrite.ScanReturns | crates/catalog/src/table.rs:90-130 | A scan returns the first rows that pass every filter, in order, up to the limit, with the columns asked for. |
| ScanRewrite.RewriteIgnoresCase | crates/catalog/src/utils.rs:69-82 | A column is found whatever its case, the first of several, and left as written when there is none. |
| ScanRewrite.ColumnMeaning | crates/catalog/src/utils.rs:69-82 | A rewritten column resolves where the original resolves among lowercased names, duplicates included. |
| ScanRewrite.RewriteMeaning | crates/catalog/src/utils.rs:69-86 | Rewriting keeps an expression's value on every row, and whether it resolves. |
| ScanRewrite.RewrittenScanIsLoweredScan | crates/catalog/src/table.rs:90-130 | The rewritten scan is the scan of the lowered relation, failures included. |
| ScanRewrite.ScanRightIff | crates/catalog/src/table.rs:159-190 | The catalog's scan is right for all calls exactly when some column name has no small letter or none has a capital. |
| ScanRewrite.CapitalNameRewrites | crates/catalog/src/utils.rs:87-92 | One column named in capitals is enough: a filter on a mixed-case column beside it is answered. |
| ScanRewrite.MixedCaseFilterFails | crates/catalog/src/utils.rs:87-92 | One mixed-case column: a filter on the name the catalog presents fails. |
| Json.GetJsonValue | crates/functions/src/json.rs:922-937 | The loop returns what following the tokens one by one gives. |
| Json.LookupComposes | crates/functions/src/json.rs:922-937 | Looking up a concatenation is looking up the second path in the first one's result. |
| Json.IndexSelects | crates/functions/src/json.rs:922-937 | An index selects the item at that position of an array, and nothing otherwise. |
| Json.KeySelects | crates/functions/src/json.rs:922-937 | A key selects the field of that name of an object, and nothing otherwise. |
| JsonPath.ReadClosed | crates/functions/src/json.rs:950-961 | Reads up to the closing character and passes it, or to the end. |
| JsonPath.ReadPlain | crates/functions/src/json.rs:983-990 | Reads up to a separator or bracket. |
| JsonPath.TakeTurn | crates/functions/src/json.rs:944-995 | One turn of the outer loop takes one separator or token off the text. |
| JsonPath.TokenizePath | crates/functions/src/json.rs:940-999 | The nested loops compute the specified tokens, and end. |
| JsonPath.DecimalParses | crates/functions/src/json.rs:974-978 | Every usize printed in decimal parses back. |
| JsonPath.UsizeForms | crates/functions/src/json.rs:975-978 | A plus sign and leading zeros are read, and exactly the values up to 2^64 - 1. |
| JsonPath.NotUsize | crates/functions/src/json.rs:975-978 | Anything but digits after the sign, and no digits at all, is no index. |
| JsonPath.PrintedPathReadsBack | crates/functions/src/json.rs:940-999 | Every printed token list, quoted or plain, with any separators, is read back exactly. |
| JsonPath.PrintedPrefix | crates/functions/src/json.rs:940-999 | Printed tokens are read exactly before whatever follows them. |
| JsonPath.PlainKeyReads | crates/functions/src/json.rs:982-994 | A key free of dots, colons, opening brackets and a leading quote is read whole before any of the three. |
| JsonPath.SeparatorsSkipped | crates/functions/src/json.rs:946-948 | Dots and colons are skipped. |
| JsonPath.UnclosedQuote | crates/functions/src/json.rs:950-962 | A quote never closed makes a key of the rest of the path. |
| JsonPath.BracketReads | crates/functions/src/json.rs:964-980 | A bracket, closed or not, is an index exactly when its text is a usize; otherwise the whole path is refused. |
| JsonKeys.LookupKept | crates/sqllogictest/src/conversion.rs:55-71 | Every path leads to the canonical form of what it led to before. |
| JsonKeys.CanonicalIff | crates/sqllogictest/src/conversion.rs:55-71 | Two values get the same result exactly when they are equal up to object key order. |
| JsonKeys.CanonicalIdempotent | crates/sqllogictest/src/conversion.rs:55-71 | Sorting again changes nothing. |
| JsonKeys.LessIs | crates/sqllogictest/src/conversion.rs:55-71 | Keys are ordered by their first difference, a proper prefix first. |
| JsonKeys.CanonicalAscends | crates/sqllogictest/src/conversion.rs:55-71 | The keys of every object, at every depth, come out ascending. |
| JsonKeys.SortJsonKeys | crates/sqllogictest/src/conversion.rs:55-71 | Sorting entries and inserting them one by one computes the canonical form. |
| PlanMetrics.Collector.constructor | crates/executor/src/query.rs:3739-3740 | Counting starts at zero with no entries. |
| PlanMetrics.Collector.Collect | crates/executor/src/query.rs:3745-3760 | The recursion with a shared counter appends the pre-order numbering of the tree. |
| PlanMetrics.FlattenNumbered | crates/executor/src/query.rs:3745-3760 | One entry per node, numbered in order, every inner parent between the root and the child. |
| PlanMetrics.FlattenedPlanIsRebuilt | crates/executor/src/query.rs:3738-3760 | The entry list rebuilds the plan with its child order. |
| PlanMetrics.BuildPlanMetrics | crates/executor/src/query.rs:3738-3743 | Entry i is numbered i, parents come first, and the list determines the plan. |
| Timestamps.ToNanosecondsExact | crates/executor/src/utils.rs:583-596 | Scaling to nanoseconds is exact for precisely the values whose product fits in 64 bits. |
| Timestamps.UnitFactors | crates/executor/src/utils.rs:583-596 | A thousand of each unit make the next greater one, and the smallest is a nanosecond. |
| Timestamps.SplitRecombines | crates/executor/src/utils.rs:496-504 | Splitting and recombining any i64 instant is the identity with no overflow, negatives included; the fraction stays within a second. |
| Timestamps.RecombineExactIff | crates/executor/src/utils.rs:496-498 | Recombining any epoch and fraction is exact precisely when the instant fits in 64 bits. |
| Timestamps.OffsetSurvivesIff | crates/executor/src/utils.rs:427-430 | An offset inside a day survives encoding exactly when it is whole minutes, else loses its seconds. |
| Timestamps.OffsetCode | crates/executor/src/utils.rs:427-504 | Encoded minutes count from 1440 for UTC, and offsets of a day or more decode to UTC. |
| Timestamps.DecodeExactIff | crates/executor/src/utils.rs:499-504 | An offset decodes as meant exactly unless its seconds lie within a day of a multiple of 2^32 other than zero, without being one. |
| Timestamps.DecodeExact | crates/executor/src/utils.rs:499-504 | In particular while its seconds fit in 32 bits. |
| Timestamps.DecodeWraps | crates/executor/src/utils.rs:499-504 | An encoded offset beyond that which wraps into a valid one. |
| Timestamps.BuildTimestamps | crates/executor/src/utils.rs:483-511 | The loop keeps nulls and recombines each instant with its decoded offset, or UTC if it is invalid. |
| Timestamps.ConvertAndBuild | crates/executor/src/utils.rs:513-542 | Converting a column and building it again keeps nulls, order and every instant. |
| Timestamps.OffsetBackIs | crates/executor/src/utils.rs:562-581 | Every non-zero instant comes back with its zone's offset where the zone is read, less its seconds. |
| Timestamps.OffsetBackAtUtc | crates/executor/src/utils.rs:562-581 | An instant in a zone that cannot be parsed comes back at UTC, and so does the epoch in every zone. |
| Timestamps.OffsetKeptIff | crates/executor/src/utils.rs:562-581 | For all instants, which offsets come back exactly; the epoch itself is always at UTC. |
| Timestamps.PreEpochOffsetMissed | crates/executor/src/utils.rs:562-581 | An instant before the epoch that comes back with the offset of a later one. |
| Timestamps.TimeReadsBack | crates/executor/src/utils.rs:698-746 | Every TIME value prints with exactly its unit's digits and reads back as the same number. |
| Timestamps.TimeIsInSeconds | crates/executor/src/utils.rs:698-746 | That number, with its digits after the point, is the value in seconds, for every unit. |
| Timestamps.FormattedReadsBack | crates/executor/src/utils.rs:793-797 | Padding a fraction to the scale keeps its value and gives exactly that many digits. |
| CivilDate.NextYear | crates/build-info/build.rs:112-119 | The closed-form count of days before a year grows by exactly the year's length. |
| CivilDate.MonthLengthRule | crates/build-info/build.rs:121-137 | The length of every month of every year. |
| CivilDate.DayZero | crates/build-info/build.rs:97-119 | Days are counted from 1 January 1970. |
| CivilDate.DateOf | crates/build-info/build.rs:97-139 | The loops end with a valid Gregorian date at exactly the given distance from 1970-01-01. |
| CivilDate.DayNumberOrdersDates | crates/build-info/build.rs:97-143 | Day numbers order dates as the calendar does, so a day number has one date. |
| CivilDate.DateRoundTrip | crates/build-info/build.rs:97-139 | Counting off the day number of any valid date gives that date back. |

## Left out

- MERGE DELETE clauses: they add nothing to the projection and only set a flag of the plan.
- MERGE target partition filter: its soundness rests on the ON predicate and on pushdown in other libraries.
- Tuple assignment targets in MERGE: the code stops there unfinished.
- Type casts around MERGE values: a cast is part of the planned expression, an arbitrary function of the row.
- MergeSink.Execute: counts are unbounded integers, where the code saturates them at the 64-bit maximum.
- MergeSink.Execute: Parquet writing and the Iceberg commit either succeed as a whole or are outside the model.
- Fairness of the query lifecycle: that a continuation to the end exists is stated, not that the scheduler takes it.
- A panic inside the outer query task: the join error it causes for the waiter has no step here.
- Query statistics and sessions: lookups and overwrites without a further property.
- Row timestamps, properties and refresh flags of metastore entries: no operation decides on them.
- Listing operations of the metastore: filters over the maps whose invariants are stated.
- Bootstrap loading from files and environment, and the repair of snapshot summaries: parsing and I/O.
- View rewriting in the catalog's scan and inserts through it: they depend on planner code elsewhere.
- ScanRewrite.RewrittenScanIsLoweredScan: a table's own scan is taken to apply the filters, limit and projection it is given.
- Timestamps.BuildTimestamps: the RFC 3339 text is not modelled, only the instant and offset it renders; overflow wraps, as without overflow checks.
- Timestamps.TimeReadsBack: negative TIME values, which a time of day never has, are outside the statement.
- Rendering a date as text in the build script: zero-padding of three numbers.
- SQL parsing, DataFusion planning, Arrow-to-JSON encoders, error-code mapping, REST routing, authentication and the other catalog stores: plumbing around the modelled parts.
