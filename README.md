# metrics-engine-cp, modelled in Dafny

The control plane of a metrics pipeline. Each metric is a JSON expression over
series codes, and each series lives in one or more datasets. When a dataset
receives a new version (a *projection update*), the control plane does four things:

1. Records the update once per version.
2. Finds every metric that depends on the dataset.
3. Creates a run for each such metric, with one waiting ("pending") row per dataset the metric requires.
4. Marks the waiting rows that the new version satisfies, within their freshness window.

A run left with nothing to wait for is emitted: the control plane publishes one
run request (inputs, catalog, output path) and sets the run to queued. Three
more handlers record the run's start, heartbeats and completion.

The model covers the following, each in its own module:

- **Expression logic** (pure functions and lemmas). Modules:
  - `DependencyExtractor`: series-code extraction, with the ordered set it fills (`OrderedSet`).
  - `ExpressionValidator`: full structural validation.
  - `WindowCheck`: the narrower window check made at emission.
  - `TimeWindow`: the freshness window.
  - An expression is a JSON value (`Json`), so every module classifies nodes by the fields present, as the code does.
- **The store** (`Store`): one class.
  - It holds every table as a value (`Tables`).
  - The requests published so far form an append-only outbox.
  - It carries the index of the next generated identifier and whether the publisher accepts messages.
  - `Valid()` says that every identifier still to be generated is unused, and that event-log keys are unique.
- **Repositories** (read as functions, written as methods that update the store): `DatasetUpdateRepository`, `MetricRunRepository`, `PendingDatasetRepository`, `EventLogRepository`. Tables that are only read are lookups in `Catalog`.
- **Services and use cases** (imperative methods, each proved against a specification function):
  - `DependencyResolver`: which datasets a metric needs, and which metrics depend on a dataset.
  - `DatasetUpdateService`: idempotent persistence of an update.
  - `PendingRunService`: marking waiting rows and reporting ready runs.
  - `RunOrchestrator`: run creation and emission.
  - `ProjectionUpdate`: the projection-update use case; its properties are in `ProjectionProperties`.
  - `RunLifecycle`: the started, heartbeat and completed handlers.
- **Serialisers** (pure):
  - Row mappers (`MetricMapper`, `MetricRunMapper`, `PendingDatasetMapper`, `DatasetUpdateMapper`): null versus undefined, and the `series_code` rename.
  - The four inbound message parsers (`MessageParsers`).

Things outside the program become parameters:

- **The clock**: a `now: int` of milliseconds.
- **`JSON.parse` and `new Date(text)`**: function parameters.
- **The publisher's behaviour**: a constant of the store.
- **Database-generated identifiers**: the decimal rendering of a counter. The rendering is proved injective, so generated identifiers are distinct.
- **Transactions**: commit-or-discard. On failure the use case restores the tables it started from. What was already published stays published.

## Model

| member | source | states |
|---|---|---|
| Catalog.FindMetricById | src/infrastructure/db/repositories/postgres-metric.repository.ts:13-35 | the metric returned is in the table and has the id; none is returned exactly when no metric has it |
| Catalog.FirstMetricWithId | src/infrastructure/db/repositories/postgres-metric.repository.ts:28-34 | the scan finds a metric of the list with the id, and fails exactly when there is none |
| Catalog.FindSeriesByCodes | src/infrastructure/db/repositories/postgres-series.repository.ts:38-58 | the found codes are exactly the requested codes that have a series row; an empty request finds nothing |
| DependencyResolver.FoundOrMissing | src/application/services/metric-dependency-resolver.service.ts:137-141 | every requested code is either found by the series query or reported missing, never both, and nothing outside the request is found or reported |
| Catalog.FindBySeriesCodes | src/application/services/metric-dependency-resolver.service.ts:110-113 | a dataset is returned exactly when it exists and holds at least one of the codes (the query is called but not implemented in the repository) |
| DependencyResolver.MissingSeries | src/application/services/metric-dependency-resolver.service.ts:133-147 | the missing codes are the requested codes without a series row, kept in request order and with their repetitions, as `filter` keeps them for the error message |
| DependencyResolver.ResolvedDatasets | src/application/services/metric-dependency-resolver.service.ts:93-131 | a missing metric needs nothing; an expression the extractor rejects fails; otherwise the call succeeds exactly when every extracted code has a series row, then returns without duplicates exactly the datasets holding one of the codes, and otherwise fails listing the missing codes |
| DependencyResolver.FindMetricsForDataset | src/application/services/metric-dependency-resolver.service.ts:29-84 | the loop over all metrics computes the dependent metrics in table order, stopping at the first metric that fails to resolve; an unknown dataset has none |
| DependencyResolver.DependentAmongMembers | src/application/services/metric-dependency-resolver.service.ts:65-84 | the scan succeeds exactly when every metric resolves, and then keeps exactly the metrics whose required datasets include the dataset |
| DependencyResolver.DependentAmongFirstFailure | src/application/services/metric-dependency-resolver.service.ts:72-76 | the scan fails with the error of the first metric that does not resolve |
| DependencyResolver.DependentMetric | src/application/services/metric-dependency-resolver.service.ts:29-84 | for a known dataset, a metric depends on it exactly when the dataset holds one of the metric's series codes |
| DependencyResolver.DependentAmongStep | src/application/services/metric-dependency-resolver.service.ts:72-80 | one iteration of the scan: a failing metric aborts it, a resolving one is kept exactly when it needs the dataset |
| DatasetUpdateRepository.FirstWithEventKey | src/infrastructure/db/repositories/postgres-dataset-update.repository.ts:72-92 | the row found has the key and is in the table; nothing is found exactly when no row has the key |
| DatasetUpdateRepository.FindByEventKey | src/infrastructure/db/repositories/postgres-dataset-update.repository.ts:72-92 | the update with that key, or none exactly when no update carries it |
| DatasetUpdateRepository.FindByDatasetId | src/infrastructure/db/repositories/postgres-dataset-update.repository.ts:94-113 | sorted by creation time, newest first, and a permutation of exactly that dataset's updates |
| DatasetUpdateRepository.FindLatestByDatasetId | src/infrastructure/db/repositories/postgres-dataset-update.repository.ts:115-141 | an update of the dataset no other update of it is newer than; none exactly when the dataset has no update |
| DatasetUpdateRepository.LatestIsHeadOfOrdered | src/infrastructure/db/repositories/postgres-dataset-update.repository.ts:108-112 | the `LIMIT 1` query is empty exactly when the ordered query is, and otherwise returns its head |
| DatasetUpdateRepository.Create | src/infrastructure/db/repositories/postgres-dataset-update.repository.ts:15-48 | appends exactly one row: the given fields with a fresh, unused generated id and the clock as creation time; nothing else changes |
| DatasetUpdateService.PersistUpdate | src/application/services/dataset-update.service.ts:24-71 | an update already stored under `datasetId:versionManifestPath` is returned with no write; otherwise exactly one update with the event's fields is created; either way the key then finds the returned update |
| DatasetUpdateService.FirstWithEventKeyAppend | src/application/services/dataset-update.service.ts:49-58 | after a new key is appended, looking it up finds the appended update |
| DatasetUpdateService.EventKeyInjective | src/application/services/dataset-update.service.ts:28 | while dataset ids contain no colon, equal keys mean the same dataset and version manifest |
| DatasetUpdateService.KeyCharacters | src/application/services/dataset-update.service.ts:28 | the key starts with the dataset id followed by a colon |
| DatasetUpdateService.EventKeyCollision | src/application/services/dataset-update.service.ts:28 | a dataset id with a colon lets two notifications for different datasets share a key |
| EventLogRepository.MapToDomain | src/infrastructure/db/repositories/postgres-event-log.repository.ts:98-117 | NULL `processed_at` and `run_id` become absent and other columns are copied; a payload the driver returns as a string is parsed once more and fails exactly when it does not parse |
| EventLogRepository.FirstWithKey | src/infrastructure/db/repositories/postgres-event-log.repository.ts:63-82 | finds a row with the key, and nothing exactly when no row has it |
| EventLogRepository.Create | src/infrastructure/db/repositories/postgres-event-log.repository.ts:18-61 | a new key appends exactly the inserted row; an existing key leaves the table unchanged and returns the stored row; either way exactly one row carries the key afterwards |
| EventLogRepository.MarkRows | src/infrastructure/db/repositories/postgres-event-log.repository.ts:90-95 | the table keeps its length and every row's key |
| EventLogRepository.MarkAsProcessed | src/infrastructure/db/repositories/postgres-event-log.repository.ts:84-96 | the event log becomes the marked rows and no other table, the outbox or the id counter changes |
| EventLogRepository.MarkRowsEffect | src/infrastructure/db/repositories/postgres-event-log.repository.ts:90-95 | the rows with the key get the clock as processing time and the given run (the stored run when none is given), keeping their payload; the other rows are unchanged |
| EventLogRepository.MarkAbsentKeyIsNoOp | src/infrastructure/db/repositories/postgres-event-log.repository.ts:90-95 | marking an absent key leaves the table unchanged |
| EventLogRepository.AbsentKeyCount | src/infrastructure/db/repositories/postgres-event-log.repository.ts:33-38 | an absent key occurs in no row |
| EventLogRepository.UniqueKeyCount | src/infrastructure/db/repositories/postgres-event-log.repository.ts:33-38 | under the unique key constraint a present key occurs in exactly one row |
| EventLogRepository.CountAppend | src/infrastructure/db/repositories/postgres-event-log.repository.ts:33-45 | appending a row adds one occurrence of its own key and none of any other |
| DependencyExtractor.ExtractSeriesCodes | src/domain/services/metric-dependency-extractor.service.ts:21-27 | the method threads a fresh set through the traversal and returns the codes `SeriesCodes` specifies; the lemmas below say what they are |
| DependencyExtractor.ExtractSeriesFromExpression | src/domain/services/metric-dependency-extractor.service.ts:35-54 | classifies the node as series_math, window_op or composite, in that order, and adds the codes each shape contributes (the composite loop only direct references); an unrecognised object adds nothing; a null or primitive node throws the `in` operator's TypeError |
| DependencyExtractor.ExtractFromSeriesReference | src/domain/services/metric-dependency-extractor.service.ts:59-69 | a node with a string `seriesCode` adds that code; any other object is traversed as a nested expression; null or a primitive throws |
| DependencyExtractor.FromExpressionExtends | src/domain/services/metric-dependency-extractor.service.ts:35-54 | the accumulating traversal adds to the set exactly the codes the accumulator-free reference visit lists, in visiting order, and fails exactly when the visit does |
| DependencyExtractor.FromReferenceExtends | src/domain/services/metric-dependency-extractor.service.ts:59-69 | the same correspondence for a reference or nested expression |
| DependencyExtractor.FromOperandsExtends | src/domain/services/metric-dependency-extractor.service.ts:48-52 | the same correspondence for the composite loop |
| DependencyExtractor.VisitedInExpressionOccurs | src/domain/services/metric-dependency-extractor.service.ts:35-69 | every visited code is the string `seriesCode` of some object in the tree |
| DependencyExtractor.VisitedInReferenceOccurs | src/domain/services/metric-dependency-extractor.service.ts:59-69 | every code a reference visits occurs as a string `seriesCode` inside it |
| DependencyExtractor.VisitedInOperandsOccur | src/domain/services/metric-dependency-extractor.service.ts:48-52 | every code the composite loop visits occurs inside one of the operands |
| DependencyExtractor.VisitedInOperandsDirect | src/domain/services/metric-dependency-extractor.service.ts:48-52 | the composite loop succeeds exactly when every operand is an object or array, and then visits exactly the codes of the operands that are series references |
| DependencyExtractor.SeriesCodesFirstOccurrence | src/domain/services/metric-dependency-extractor.service.ts:21-27 | the result is the visited codes with duplicates removed, in first-occurrence order; extraction throws exactly when the visit does |
| DependencyExtractor.SeriesCodesAreDistinctOccurrences | src/domain/services/metric-dependency-extractor.service.ts:21-69 | the result has no duplicates and each code occurs as a string `seriesCode` somewhere in the tree |
| DependencyExtractor.SeriesMathCodes | src/domain/services/metric-dependency-extractor.service.ts:39-42 | a node with `op`, `left` and `right` yields the codes of `left`, then those codes of `right` not already present, even when it also has `window` and `series` |
| DependencyExtractor.WindowOpCodes | src/domain/services/metric-dependency-extractor.service.ts:43-45 | a node with `window` and `series` but not the series_math keys yields exactly what `series` yields, whether or not it has `op` |
| DependencyExtractor.CompositeCodes | src/domain/services/metric-dependency-extractor.service.ts:46-52 | a composite node succeeds exactly when every operand is an object or array, and then yields exactly the codes of its direct series-reference operands; nested expressions are ignored |
| DependencyExtractor.UnrecognisedExpressionCodes | src/domain/services/metric-dependency-extractor.service.ts:39-53 | an object of none of the three shapes yields nothing, and a null or primitive expression throws |
| DependencyExtractor.NestedExpressionExample | src/domain/services/metric-dependency-extractor.service.ts:39-45 | a ratio of a multiply and an sma yields series1, series2, series3, left before right |
| OrderedSet.AddAllNoDuplicates | src/application/services/metric-dependency-resolver.service.ts:153-156 | adding a list to a duplicate-free list, as a JavaScript `Set` does, keeps it duplicate-free |
| OrderedSet.AddAllMembers | src/application/services/metric-dependency-resolver.service.ts:153-156 | after adding a list, the members are exactly the old ones and the added ones |
| OrderedSet.AddAllSplit | src/domain/services/metric-dependency-extractor.service.ts:39-42 | adding a list to a set appends exactly its first occurrences of new codes, in order |
| OrderedSet.AddCode | src/domain/services/metric-dependency-extractor.service.ts:50 | `Set.prototype.add`: the members become the old ones plus the code, still without duplicates |
| OrderedSet.Without | src/application/services/metric-dependency-resolver.service.ts:137-141 | an element is kept exactly when it occurs in the input and is not excluded |
| OrderedSet.WithoutIsFilter | src/application/services/metric-dependency-resolver.service.ts:139-141 | the result is the input filtered by non-exclusion: order and multiplicity are kept |
| OrderedSet.WithoutIsFilterOn | src/application/services/metric-dependency-resolver.service.ts:139-141 | filtering by any test that agrees with non-exclusion on the input's elements gives the same sequence |
| OrderedSet.AddAllConcat | src/domain/services/metric-dependency-extractor.service.ts:41-42 | adding two lists in turn is adding their concatenation |
| ExpressionValidator.ValidateMetricAccepts | src/application/validation/metric-expression.validator.ts:37-70 | the validator accepts a metric exactly when its code is not blank, its declared type's keys are present and its tree is well formed for that type (a declarative grammar defined beside the validator) |
| ExpressionValidator.ValidateOperandAccepts | src/application/validation/metric-expression.validator.ts:276-328 | an operand passes exactly when it is a reference with a non-blank string code, or a node with `op` whose keys select series_math, then window_op, then composite, and which is well formed as that shape |
| ExpressionValidator.ValidateSeriesMathAccepts | src/application/validation/metric-expression.validator.ts:149-193 | a series_math node passes exactly when its op is ratio, multiply, subtract or add, `left` and `right` are truthy well-formed operands, and any `scale` is a number greater than 0 |
| ExpressionValidator.ValidateWindowOpAccepts | src/application/validation/metric-expression.validator.ts:198-231 | a window_op node passes exactly when its op is sma, ema, sum, max, min or lag, `series` is a truthy well-formed operand and `window` is a number greater than 0 |
| ExpressionValidator.ValidateCompositeAccepts | src/application/validation/metric-expression.validator.ts:236-271 | a composite node passes exactly when its op is sum, avg, max or min and `operands` is a non-empty array of well-formed operands |
| ExpressionValidator.ValidateOperandsFromAccepts | src/application/validation/metric-expression.validator.ts:268-270 | the operand loop from index i passes exactly when every operand from i on is well formed |
| ExpressionValidator.OpInIsTruthy | src/application/validation/metric-expression.validator.ts:152-164 | an op in an enumeration without the empty string is truthy, so the enumeration test subsumes the presence test |
| ExpressionValidator.BlankCodeRejectedFirst | src/application/validation/metric-expression.validator.ts:38-43 | an empty or whitespace-only code is reported with field "code" whatever the expression is |
| ExpressionValidator.TypeMatchRequiresKeys | src/application/validation/metric-expression.validator.ts:75-120 | the type check passes exactly when the declared type is series_math with op, left and right, window_op with op, series and window, or composite with op and operands; an unknown type is reported on "expressionType", a missing key on "expressionJson" |
| ExpressionValidator.AcceptedRootConstraints | src/application/validation/metric-expression.validator.ts:159-265 | an accepted root has an op of its type's enumeration, a positive scale if present (series_math), a positive window (window_op) or a non-empty operands array (composite) |
| ExpressionValidator.OperandErrorPaths | src/application/validation/metric-expression.validator.ts:281-309 | a reference passes exactly when its `seriesCode` is a non-blank string, and otherwise is reported at `expressionJson.<path>.seriesCode`; a non-reference without `op` is reported at `expressionJson.<path>` |
| ExpressionValidator.CompositeOperandPathExample | src/application/validation/metric-expression.validator.ts:268-270 | a blank code in the second operand of a composite root is reported at `expressionJson.operands[1].seriesCode` |
| WindowCheck.CheckNode | src/application/services/metric-run-orchestrator.service.ts:348-362 | a node passes exactly when it lacks `op` or `series`, or has a numeric `window` of at least 1; a missing or null window and a non-numeric or small window are reported as different errors |
| WindowCheck.ValidateWindowOps | src/application/services/metric-run-orchestrator.service.ts:338-395 | any failure is one of the two window errors, for the metric being emitted |
| WindowCheck.ValidateOperandsFrom | src/application/services/metric-run-orchestrator.service.ts:386-394 | any failure of the operand loop is one of the two window errors, for the metric being emitted |
| WindowCheck.ValidateWindowOpsPasses | src/application/services/metric-run-orchestrator.service.ts:338-395 | the check passes exactly when every node it reaches through `left`, `right`, an object `series` and `operands` elements, at any depth, keeps the window rule |
| WindowCheck.ValidateOperandsFromPasses | src/application/services/metric-run-orchestrator.service.ts:386-394 | the operand loop from index i passes exactly when every node under those operands keeps the rule |
| WindowCheck.AllOkConcat | src/application/services/metric-run-orchestrator.service.ts:365-394 | the rule holds over two lists of nodes exactly when it holds over each |
| WindowCheck.HalfWindowPassesValidatorOnly | src/application/services/metric-run-orchestrator.service.ts:356 | a window of 0.5 is accepted by the validator (above 0) and rejected at emission (below 1) |
| WindowCheck.OpSeriesWithoutWindow | src/application/services/metric-run-orchestrator.service.ts:348-354 | a node with `op` and `series` but no `window` contributes no codes to the extractor, yet emission rejects it |
| WindowCheck.WindowWithoutOpIsUnchecked | src/application/services/metric-run-orchestrator.service.ts:348 | a node with `window` and `series` but no `op` is a window operation to the extractor, and emission accepts any window on it |
| WindowCheck.CompositeOperandIsChecked | src/application/services/metric-run-orchestrator.service.ts:386-394 | a window operation nested as a composite operand is ignored by the extractor but checked at emission, under `operands[0]` |
| TimeWindow.CalculateCutoffDate | src/domain/services/time-window-validator.service.ts:39-46 | the cutoff lies exactly `requiredDays` whole days before the reference instant |
| TimeWindow.NonPositiveWindowAcceptsAll | src/domain/services/time-window-validator.service.ts:22-24 | a wait of zero or fewer days accepts every update |
| TimeWindow.PositiveWindowIsCutoff | src/domain/services/time-window-validator.service.ts:26-29 | a positive wait accepts exactly the updates created at or after the cutoff; the cutoff itself is accepted, one millisecond earlier is not |
| TimeWindow.UpdateValidIsCutoffOrNoWindow | src/domain/services/time-window-validator.service.ts:17-46 | `isUpdateValid` holds exactly when the wait is not positive or the update is not older than `calculateCutoffDate` |
| TimeWindow.CutoffAdditive | src/domain/services/time-window-validator.service.ts:39-46 | going back a days and then b days is going back a + b days |
| TimeWindow.ValidMonotoneInDays | src/domain/services/time-window-validator.service.ts:26-29 | for positive waits, an update acceptable for a shorter wait is acceptable for a longer one |
| TimeWindow.ValidNotMonotoneFromZero | src/domain/services/time-window-validator.service.ts:22-29 | the monotonicity stops at zero: a zero wait accepts an update a one-day wait rejects |
| TimeWindow.ValidMonotoneInCreatedAt | src/domain/services/time-window-validator.service.ts:29 | a later update stays acceptable |
| PendingDatasetRepository.FindByRunId | src/infrastructure/db/repositories/postgres-pending-dataset.repository.ts:51-70 | exactly the rows of the run |
| PendingDatasetRepository.FindByDatasetId | src/infrastructure/db/repositories/postgres-pending-dataset.repository.ts:72-92 | exactly the rows of the dataset that are not yet received |
| PendingDatasetRepository.FindPendingByRunId | src/infrastructure/db/repositories/postgres-pending-dataset.repository.ts:94-114 | exactly the rows of the run that are not yet received |
| PendingDatasetRepository.CountPendingByRunId | src/infrastructure/db/repositories/postgres-pending-dataset.repository.ts:194-210 | the count is the length of `findPendingByRunId`, and is zero exactly when every row of the run is received |
| PendingDatasetRepository.FirstWithKey | src/infrastructure/db/repositories/postgres-pending-dataset.repository.ts:159-162 | finds a row with the (run, dataset) key, and nothing exactly when no row has it |
| PendingDatasetRepository.FirstOfRunRows | src/infrastructure/db/repositories/postgres-pending-dataset.repository.ts:148-149 | looking the dataset up among the run's rows finds the first row of the key, the same row the `UPDATE` path returns |
| PendingDatasetRepository.Patched | src/infrastructure/db/repositories/postgres-pending-dataset.repository.ts:129-144 | a supplied property replaces its column, an undefined one leaves it; run, dataset and creation time never change; an empty patch changes nothing |
| PendingDatasetRepository.UpdateRows | src/infrastructure/db/repositories/postgres-pending-dataset.repository.ts:158-172 | the rows with the key are patched and every other row stays in place unchanged |
| PendingDatasetRepository.FirstUpdatedRow | src/infrastructure/db/repositories/postgres-pending-dataset.repository.ts:159-179 | the first row `RETURNING *` yields is the first row of the key, patched |
| PendingDatasetRepository.UpdateRowsKeepsRuns | src/infrastructure/db/repositories/postgres-pending-dataset.repository.ts:159-162 | an update never moves a row to another run |
| PendingDatasetRepository.EmptyPatchKeepsRows | src/infrastructure/db/repositories/postgres-pending-dataset.repository.ts:146-156 | with nothing supplied the table is left as it is |
| PendingDatasetRepository.Create | src/infrastructure/db/repositories/postgres-pending-dataset.repository.ts:15-49 | appends exactly the given row stamped with the clock; nothing else changes |
| PendingDatasetRepository.Update | src/infrastructure/db/repositories/postgres-pending-dataset.repository.ts:116-180 | the rows with the key get the supplied columns and nothing else changes; the first of them is returned patched, and a missing key fails whether or not anything was supplied |
| PendingDatasetRepository.Delete | src/infrastructure/db/repositories/postgres-pending-dataset.repository.ts:182-192 | removes exactly the rows with the key |
| PendingDatasetRepository.UpdateTouchesOnlyKey | src/infrastructure/db/repositories/postgres-pending-dataset.repository.ts:159-162 | a row of another key is unchanged by an update |
| PendingDatasetRepository.DeleteRemovesOnlyKey | src/infrastructure/db/repositories/postgres-pending-dataset.repository.ts:188-191 | the rows left are exactly those of other keys, and deleting again changes nothing |
| MetricRunRepository.FirstWithId | src/infrastructure/db/repositories/postgres-metric-run.repository.ts:82-88 | finds a run with the id, and nothing exactly when no run has it |
| MetricRunRepository.FindById | src/infrastructure/db/repositories/postgres-metric-run.repository.ts:64-89 | the run with that id, or none exactly when no run has it |
| MetricRunRepository.FindByMetricId | src/infrastructure/db/repositories/postgres-metric-run.repository.ts:91-115 | sorted by request time, newest first, and a permutation of exactly the metric's runs |
| MetricRunRepository.FindByStatus | src/infrastructure/db/repositories/postgres-metric-run.repository.ts:117-141 | sorted by request time, newest first, and a permutation of exactly the runs in that status |
| MetricRunRepository.Patched | src/infrastructure/db/repositories/postgres-metric-run.repository.ts:153-192 | each of the ten columns takes the supplied value when one is given and keeps its value otherwise; id and request time never change; an empty patch changes nothing |
| MetricRunRepository.UpdateRuns | src/infrastructure/db/repositories/postgres-metric-run.repository.ts:203-219 | the run with the id is patched and every other run stays in place unchanged |
| MetricRunRepository.FirstUpdatedRun | src/infrastructure/db/repositories/postgres-metric-run.repository.ts:203-224 | the row `RETURNING *` yields is the stored run, patched |
| MetricRunRepository.UpdateRunsKeepsIds | src/infrastructure/db/repositories/postgres-metric-run.repository.ts:203-204 | an update never changes a run's id |
| MetricRunRepository.Create | src/infrastructure/db/repositories/postgres-metric-run.repository.ts:18-62 | appends exactly one run: the given fields with a fresh, unused generated id and the clock as request time |
| MetricRunRepository.Update | src/infrastructure/db/repositories/postgres-metric-run.repository.ts:143-225 | the run gets exactly the supplied columns and no other run changes; the updated run is returned; with nothing supplied the stored run is returned; a missing id fails ("not found" without fields, "failed to update" with some) |
| MetricRunRepository.UpdateStatus | src/infrastructure/db/repositories/postgres-metric-run.repository.ts:227-233 | `update` with the status alone |
| MetricRunRepository.LinkDatasetUpdates | src/infrastructure/db/repositories/postgres-metric-run.repository.ts:235-250 | the loop adds exactly the (run, update) pairs of the given ids to the link set; existing pairs are kept and nothing else changes |
| MetricRunRepository.UpdateTouchesOnlyId | src/infrastructure/db/repositories/postgres-metric-run.repository.ts:203-204 | a run with another id is unchanged by an update |
| MetricRunRepository.UpdateStatusChangesOnlyStatus | src/infrastructure/db/repositories/postgres-metric-run.repository.ts:227-233 | the status patch changes the status of the run and nothing else |
| MetricRunRepository.LinkIdempotent | src/infrastructure/db/repositories/postgres-metric-run.repository.ts:244-246 | linking the same ids again adds nothing |
| PendingRunService.IsRunReady | src/application/services/pending-run.service.ts:153-160 | a run is ready exactly when every row of the run is received (its count of waiting rows is zero) |
| PendingRunService.UpdatePendingRunsForDataset | src/application/services/pending-run.service.ts:28-73 | the loop over the dataset's waiting rows, read once at the start, produces the tables and the ready runs that the row-by-row specification gives: a row the freshness window rejects is skipped, an admitted row is marked received, and its run is collected when it is ready and exists |
| PendingRunService.ProcessStep | src/application/services/pending-run.service.ts:41-70 | one iteration of the loop: a rejected row changes nothing; an admitted row is marked, then its run is reported if ready |
| PendingRunService.KeysPresentTail | src/application/services/pending-run.service.ts:41-58 | every row still to visit can still be found by its key |
| PendingRunService.MarkingKeepsKeys | src/application/services/pending-run.service.ts:124-133 | marking keeps the key of every row, so rows read at the start can still be updated |
| PendingRunService.MarkingKeepsReady | src/application/services/pending-run.service.ts:124-133 | marking only sets rows received: a ready run stays ready |
| PendingRunService.ProcessTouchesOnlyDataset | src/application/services/pending-run.service.ts:34-70 | only the pending table changes; every row keeps its run, dataset and required days, and rows of other datasets are not modified |
| PendingRunService.ReportedRunsAreReady | src/application/services/pending-run.service.ts:60-69 | every run returned is a stored run that is ready once processing ends (it is returned as stored, still waiting for emission) |
| PendingRunService.ReadyThroughProcess | src/application/services/pending-run.service.ts:41-70 | a run that is ready stays ready through the rest of the processing |
| PendingRunService.AdmittedRowsReceived | src/application/services/pending-run.service.ts:42-58 | every row read whose freshness window admits the update ends up received, with the update's id |
| PendingRunService.MarksStay | src/application/services/pending-run.service.ts:41-70 | a row received with this update keeps that mark through the rest of the processing |
| PendingRunService.NothingAdmittedNoChange | src/application/services/pending-run.service.ts:42-51 | when the window admits none of the rows, no table changes and no run is reported |
| PendingRunService.CombineNothing | src/application/services/pending-run.service.ts:39 | the loop starts with no ready runs |
| PendingRunService.CombineCombine | src/application/services/pending-run.service.ts:67 | collecting runs in two steps is collecting them in one |
| PendingRunService.ReadyRunsReported | src/application/services/pending-run.service.ts:60-69 | a stored run one of whose rows admitted the update, and which is ready when processing ends, is among the runs reported |
| PendingRunService.OtherRowsKeepReadiness | src/application/services/pending-run.service.ts:41-70 | processing rows of other runs leaves a run's readiness as it was |
| PendingRunService.MarkingOtherKeepsReadiness | src/application/services/pending-run.service.ts:53-58 | marking another run's rows leaves a run's readiness as it was |
| RunOrchestrator.CreatePendingDatasets | src/application/services/metric-run-orchestrator.service.ts:100-121 | appends exactly one waiting row per required dataset, in the order of the ids, and changes no other table |
| RunOrchestrator.PendingRowsShape | src/application/services/metric-run-orchestrator.service.ts:107-119 | each row carries the run, its dataset and seven required days; it is received, with the current update's id and time, exactly when its dataset is the current one |
| RunOrchestrator.ReadyAtCreation | src/application/services/metric-run-orchestrator.service.ts:126-133 | a new run is ready right after its rows are inserted exactly when every dataset it requires is the one just updated |
| RunOrchestrator.FetchLatestDatasetUpdates | src/application/services/metric-run-orchestrator.service.ts:228-243 | returns the latest update of each required dataset that has one, in the order of the ids |
| RunOrchestrator.LatestUpdatesSpec | src/application/services/metric-run-orchestrator.service.ts:228-243 | no more updates than ids; every update fetched is the latest of a required dataset; every required dataset with an update has one fetched |
| RunOrchestrator.FirstRequired | src/application/services/metric-run-orchestrator.service.ts:284 | finds a candidate that is required, and nothing exactly when no candidate is required |
| RunOrchestrator.FirstRequiredIsFirst | src/application/services/metric-run-orchestrator.service.ts:284 | no candidate before the one found is required |
| RunOrchestrator.DatasetForSeries | src/application/services/metric-run-orchestrator.service.ts:275-285 | a dataset that holds the series and is required, and nothing exactly when no dataset holding the series is required |
| RunOrchestrator.BuildRunInputs | src/application/services/metric-run-orchestrator.service.ts:248-270 | the inputs the loop builds are those of the input specification |
| RunOrchestrator.RunInputsCodes | src/application/services/metric-run-orchestrator.service.ts:255-267 | the inputs follow the series codes in order, one per code that some required dataset holds |
| RunOrchestrator.RunInputsDatasets | src/application/services/metric-run-orchestrator.service.ts:261-266 | each input names a code of the expression and the required dataset found for it |
| RunOrchestrator.BuildDatasetCatalog | src/application/services/metric-run-orchestrator.service.ts:290-305 | the catalog the loop builds is that of the catalog specification |
| RunOrchestrator.CatalogOfSpec | src/application/services/metric-run-orchestrator.service.ts:297-302 | one key per dataset among the updates, mapped to the paths of the last update of that dataset |
| RunOrchestrator.CatalogOfLatest | src/application/services/metric-run-orchestrator.service.ts:190-209 | with the fetched updates, the catalog holds exactly the required datasets that have an update, each with the paths of its latest update |
| RunOrchestrator.BuildMetricRunRequestEvent | src/application/services/metric-run-orchestrator.service.ts:310-333 | fails exactly when the window check fails, with its error; otherwise the request names the run, the metric, its expression, the inputs and catalog given, the output path of the metric, groups by metric code and deduplicates by run id |
| RunOrchestrator.EmitRun | src/application/services/metric-run-orchestrator.service.ts:184-223 | links the latest updates to the run, then publishes the request, or fails with an expression error, a window error or a publishing failure; the outbox grows by what was published |
| RunOrchestrator.EmitPendingRun | src/application/services/metric-run-orchestrator.service.ts:141-179 | the tables, the outbox and the outcome are those of the emission specification |
| RunOrchestrator.EmissionRejects | src/application/services/metric-run-orchestrator.service.ts:145-160 | a missing run, a run not waiting for dependencies or a missing metric is rejected with its own error before anything changes or is published |
| RunOrchestrator.EmissionOutcome | src/application/services/metric-run-orchestrator.service.ts:171-178 | at most one request is published, exactly when emission succeeds; success requires the publisher and leaves the run queued with nothing else about it changed; failure leaves every run as it was |
| RunOrchestrator.EmissionRequest | src/application/services/metric-run-orchestrator.service.ts:190-212 | a published request names the run and its metric, groups and deduplicates them, and carries the inputs and catalog computed from the tables |
| RunOrchestrator.SecondEmissionRejected | src/application/services/metric-run-orchestrator.service.ts:150-154 | after a successful emission the run is queued, so a second emission is rejected as not pending and publishes nothing |
| RunOrchestrator.CreateRunForMetric | src/application/services/metric-run-orchestrator.service.ts:45-67 | draws an unused run id; tables, outbox and result are those of the creation specification |
| RunOrchestrator.SetUpFindsRun | src/application/services/metric-run-orchestrator.service.ts:52-61 | the new run is found by its id right after it is inserted |
| RunOrchestrator.FirstWithIdAppend | src/application/services/metric-run-orchestrator.service.ts:52 | a run appended under an id no other run has is the one found by that id |
| RunOrchestrator.CreateRunWaits | src/application/services/metric-run-orchestrator.service.ts:61-66 | while some required dataset is not the current one, the run is created waiting, nothing is published and the run is returned |
| RunOrchestrator.CreateRunEmits | src/application/services/metric-run-orchestrator.service.ts:61-66 | when every required dataset is the current one, the run is emitted at once; on success it is returned as created, still pending, while the tables hold it queued |
| RunOrchestrator.LastOfDataset | src/application/services/metric-run-orchestrator.service.ts:297-302 | every update has a last update of the same dataset at or after it |
| ProjectionUpdate.Execute | src/application/use-cases/on-projection-update.use-case.ts:34-38 | runs the whole use case as one transaction: the tables are committed on success and restored on failure, the outbox keeps what was published |
| ProjectionUpdate.ProcessProjectionUpdate | src/application/use-cases/on-projection-update.use-case.ts:47-133 | the tables, the outbox and the runs returned are those of the use-case specification: persist, dependents, creation loop, pending-run step, emission loop |
| ProjectionUpdate.CreateRunsForMetrics | src/application/use-cases/on-projection-update.use-case.ts:85-103 | the creation loop creates the runs of the loop specification in order and stops at the first failure |
| ProjectionUpdate.CreateOne | src/application/use-cases/on-projection-update.use-case.ts:87-103 | one turn of the creation loop is a step of the loop specification |
| ProjectionUpdate.CreateForMetric | src/application/use-cases/on-projection-update.use-case.ts:88-100 | resolves the metric's datasets, then creates its run with the next generated id, or fails with the resolver's error |
| ProjectionUpdate.EmitReadyRuns | src/application/use-cases/on-projection-update.use-case.ts:114-118 | emits, in order, each reported run that still waited for dependencies when it was read, and stops at the first failure |
| ProjectionUpdate.EmitOne | src/application/use-cases/on-projection-update.use-case.ts:115-117 | one turn of the emission loop: a run no longer waiting is skipped, otherwise it is emitted |
| ProjectionProperties.EmissionWritesRunTables | src/application/services/metric-run-orchestrator.service.ts:141-179 | an emission changes only the runs, the waiting rows and the run/update links |
| ProjectionProperties.CreateStepSpec | src/application/use-cases/on-projection-update.use-case.ts:88-102 | one creation step changes only the run tables and returns the metric's pending run with the step's generated id |
| ProjectionProperties.CreateRunsWithSpec | src/application/use-cases/on-projection-update.use-case.ts:87-103 | any creation loop whose steps keep to the run tables and return the metric's pending run does so too, one run per metric in order |
| ProjectionProperties.CreateRunsSpec | src/application/use-cases/on-projection-update.use-case.ts:87-103 | the creation loop changes only the run tables and, when no turn fails, returns one run per metric, in order, each the metric's pending run with the next generated id |
| ProjectionProperties.CreatedIdsDistinct | src/application/use-cases/on-projection-update.use-case.ts:87-103 | the runs created in one call have pairwise distinct ids |
| ProjectionProperties.EmitReadyWritesRunTables | src/application/use-cases/on-projection-update.use-case.ts:114-118 | the emission loop changes only the run tables |
| ProjectionProperties.ProcessWritesRunTables | src/application/use-cases/on-projection-update.use-case.ts:66-133 | after the update is persisted, the use case changes only the run tables |
| ProjectionProperties.PersistFindsUpdate | src/application/use-cases/on-projection-update.use-case.ts:60-64 | after persisting, the notification's key finds the update returned, which is a row of the table |
| ProjectionProperties.NoDependentsRecordsUpdateOnly | src/application/use-cases/on-projection-update.use-case.ts:73-82 | with no dependent metric the update is still recorded and committed, no run is returned and nothing is published |
| ProjectionProperties.ExecuteCommitsOrRestores | src/application/use-cases/on-projection-update.use-case.ts:34-38 | on failure the tables are as before the call; on success the update is recorded and otherwise only the run tables changed |
| ProjectionProperties.ReplayReusesUpdate | src/application/use-cases/on-projection-update.use-case.ts:60-64 | replaying a notification after a committed call, or one whose update is already stored, reuses that update and adds no row |
| ProjectionProperties.ReturnedRuns | src/application/use-cases/on-projection-update.use-case.ts:132 | a committed call returns one run per dependent metric, in order, each still waiting for dependencies with the next generated id, followed by exactly the runs the pending-run step reported, which were ready and stored |
| RunLifecycle.OnStarted | src/application/use-cases/on-metric-run-started.use-case.ts:23-60 | the tables and outcome are those of the started handler's specification; the outbox and the id counter stay |
| RunLifecycle.OnHeartbeat | src/application/use-cases/on-metric-run-heartbeat.use-case.ts:22-57 | the tables and outcome are those of the heartbeat handler's specification; the outbox and the id counter stay |
| RunLifecycle.OnCompleted | src/application/use-cases/on-metric-run-completed.use-case.ts:23-55 | the tables and outcome are those of the completed handler's specification; the outbox and the id counter stay |
| RunLifecycle.MissingRunIgnored | src/application/use-cases/on-metric-run-started.use-case.ts:27-35 | for a run id no run has, all three handlers succeed and write nothing |
| RunLifecycle.WriteChangesOnlyRun | src/infrastructure/db/repositories/postgres-metric-run.repository.ts:143-225 | writing a patch to an existing run succeeds, changes that run as the patch says and no other run or table |
| RunLifecycle.StartedSetsStatusAndStart | src/application/use-cases/on-metric-run-started.use-case.ts:37-48 | an existing run, whatever its status, becomes running with the event's start time, or the clock when none is given; an unreadable start time fails and writes nothing |
| RunLifecycle.HeartbeatSetsOnlyHeartbeat | src/application/use-cases/on-metric-run-heartbeat.use-case.ts:36-44 | a heartbeat sets only the run's last heartbeat time, ignores the reported progress, and an unreadable timestamp fails and writes nothing |
| RunLifecycle.CompletedSetsOutcome | src/application/use-cases/on-metric-run-completed.use-case.ts:37-55 | the run becomes succeeded on "SUCCESS" and failed on any other status, finishes at the clock, and the results the event carries replace the stored ones while omitted ones stay |
| MessageParsers.Unwrap | src/interfaces/queue/projection-update.consumer.ts:18-26 | a missing or empty body is refused, undecodable text is invalid JSON, a decoded null fails on the property read, and a body without a truthy Message is the event itself |
| MessageParsers.RequireAll | src/interfaces/queue/projection-update.consumer.ts:34-44 | succeeds exactly when every required key is truthy, with their values in order; otherwise the first missing or falsy key is named |
| MessageParsers.CheckType | src/interfaces/queue/projection-update.consumer.ts:28-32 | passes exactly when the discriminator is the expected string; a null payload fails on the property read |
| MessageParsers.ProjectionUpdateOf | src/interfaces/queue/projection-update.consumer.ts:28-52 | accepts exactly a projection_update event with all three required fields truthy, carrying their values, and the bucket or the empty string |
| MessageParsers.ParseProjectionUpdateMessage | src/interfaces/queue/projection-update.consumer.ts:17-59 | an unwrap error is the parser's error; otherwise the result is the check of the unwrapped payload |
| MessageParsers.RunStartedOf | src/interfaces/queue/metric-run-started.consumer.ts:28-42 | accepts exactly a metric_run_started event with a truthy runId, carrying it and the optional start time |
| MessageParsers.ParseMetricRunStartedMessage | src/interfaces/queue/metric-run-started.consumer.ts:17-49 | an unwrap error is the parser's error; otherwise the result is the check of the unwrapped payload |
| MessageParsers.RunHeartbeatOf | src/interfaces/queue/metric-run-heartbeat.consumer.ts:30-49 | accepts exactly a metric_run_heartbeat event with truthy runId and ts, carrying them and the optional progress |
| MessageParsers.ParseMetricRunHeartbeatMessage | src/interfaces/queue/metric-run-heartbeat.consumer.ts:17-56 | an unwrap error is the parser's error; otherwise the result is the check of the unwrapped payload |
| MessageParsers.RunCompletedOf | src/interfaces/queue/metric-run-completed.consumer.ts:30-63 | accepts exactly a metric_run_completed event with truthy runId, metricCode and status where the status is SUCCESS or FAILURE, carrying every field the event gives |
| MessageParsers.ParseMetricRunCompletedMessage | src/interfaces/queue/metric-run-completed.consumer.ts:17-70 | an unwrap error is the parser's error; otherwise the result is the check of the unwrapped payload |
| MessageParsers.EmptyBodyRefused | src/interfaces/queue/metric-run-completed.consumer.ts:20-22 | every parser refuses a missing or empty body as empty |
| MessageParsers.EnvelopeIsTransparent | src/interfaces/queue/projection-update.consumer.ts:23-26 | an SNS envelope whose Message is the event's text unwraps to what that text decodes to on its own |
| MessageParsers.CarriedUnwraps | src/interfaces/queue/projection-update.consumer.ts:17-26 | a body carrying an event, bare or in an envelope, unwraps to that event |
| MessageParsers.ProjectionUpdateRoundTrip | src/interfaces/queue/projection-update.consumer.ts:17-52 | a projection notification with non-empty required fields, bare or enveloped, parses back to the same event |
| MessageParsers.RunStartedRoundTrip | src/interfaces/queue/metric-run-started.consumer.ts:17-42 | a started event with a run id, bare or enveloped, parses back to the same event |
| MessageParsers.RunHeartbeatRoundTrip | src/interfaces/queue/metric-run-heartbeat.consumer.ts:17-49 | a heartbeat with a run id and timestamp, bare or enveloped, parses back to the same event |
| MessageParsers.RunCompletedRoundTrip | src/interfaces/queue/metric-run-completed.consumer.ts:17-63 | a completion with a run id, a metric code and a known status, bare or enveloped, parses back to the same event |
| MessageParsers.UnknownStatusRefused | src/interfaces/queue/metric-run-completed.consumer.ts:48-52 | once type and required fields pass, a status other than SUCCESS or FAILURE is refused, naming that status |
| MetricMapper.ConvertSeriesCode | src/infrastructure/db/mappers/metric.mapper.ts:26-46 | scalars and null are returned as they are, arrays keep their length, and an object's keys are its own with series_code renamed to seriesCode |
| MetricMapper.ToDomain | src/infrastructure/db/mappers/metric.mapper.ts:51-63 | copies the scalar columns, turns each NULL column into an absent property and back, and the expression holds no series_code key at any depth |
| MetricMapper.NormalizeIsConvert | src/infrastructure/db/mappers/metric.mapper.ts:21-49 | objects and arrays are never falsy, so normalising any expression is converting it |
| MetricMapper.ConvertArrayElementwise | src/infrastructure/db/mappers/metric.mapper.ts:31-33 | array elements are converted one by one, in position |
| MetricMapper.ConvertObjectFields | src/infrastructure/db/mappers/metric.mapper.ts:37-43 | every other key keeps its converted value; seriesCode takes the converted series_code value when the object has one, its own otherwise |
| MetricMapper.SnakeReferenceBecomesReference | src/infrastructure/db/mappers/metric.mapper.ts:38-39 | a series_code string operand becomes a seriesCode reference to the same code |
| MetricMapper.ConvertHasNoSnakeKey | src/infrastructure/db/mappers/metric.mapper.ts:26-46 | the conversion leaves no series_code key at any depth |
| MetricMapper.NormalizedHasNoSnakeKey | src/infrastructure/db/mappers/metric.mapper.ts:21-49 | a normalised expression holds no series_code key at any depth |
| MetricMapper.ConvertKeepsNormalised | src/infrastructure/db/mappers/metric.mapper.ts:26-46 | a value without series_code keys is left exactly as it is |
| MetricMapper.NormalizeIdempotent | src/infrastructure/db/mappers/metric.mapper.ts:21-49 | normalising twice is normalising once |
| MetricRunMapper.ToDomainNullable | src/infrastructure/db/mappers/metric-run.mapper.ts:20-35 | each of the seven nullable columns is absent exactly when NULL and otherwise copied; the status is copied |
| MetricRunMapper.ToRowNullable | src/infrastructure/db/mappers/metric-run.mapper.ts:41-56 | each absent optional property becomes NULL, and only those |
| MetricRunMapper.RoundTrip | src/infrastructure/db/mappers/metric-run.mapper.ts:20-56 | a run written with toRow and read back with toDomain is the run supplied, with its assigned id and request time |
| MetricRunMapper.RowRoundTrip | src/infrastructure/db/mappers/metric-run.mapper.ts:20-56 | a row read with toDomain and written back with toRow is the same row |
| PendingDatasetMapper.ToDomainNullable | src/infrastructure/db/mappers/pending-dataset.mapper.ts:14-25 | the received update and time are absent exactly when NULL and otherwise copied; the other columns are copied |
| PendingDatasetMapper.ToRowNullable | src/infrastructure/db/mappers/pending-dataset.mapper.ts:30-41 | an absent received update or time becomes NULL, and only then |
| PendingDatasetMapper.RoundTrip | src/infrastructure/db/mappers/pending-dataset.mapper.ts:14-41 | a waiting row written with toRow and read back is the one supplied, with its creation time |
| PendingDatasetMapper.RowRoundTrip | src/infrastructure/db/mappers/pending-dataset.mapper.ts:14-41 | a row read with toDomain and written back with toRow is the same row |
| DatasetUpdateMapper.ToDomainNullable | src/infrastructure/db/mappers/dataset-update.mapper.ts:14-25 | the bucket is absent exactly when NULL and otherwise copied; every other column is copied |
| DatasetUpdateMapper.ToRowNullable | src/infrastructure/db/mappers/dataset-update.mapper.ts:30-40 | an absent bucket becomes NULL, and only then |
| DatasetUpdateMapper.RoundTrip | src/infrastructure/db/mappers/dataset-update.mapper.ts:14-40 | an update written with toRow and read back is the one supplied, with its assigned id and creation time |
| DatasetUpdateMapper.RowRoundTrip | src/infrastructure/db/mappers/dataset-update.mapper.ts:14-40 | a row read with toDomain and written back with toRow is the same row |
| MetricMapper.ToDomainList | src/infrastructure/db/mappers/metric.mapper.ts:65-67 | one metric per row, in the same order |
| MetricRunMapper.ToDomainList | src/infrastructure/db/mappers/metric-run.mapper.ts:37-39 | one run per row, in the same order |
| PendingDatasetMapper.ToDomainList | src/infrastructure/db/mappers/pending-dataset.mapper.ts:26-28 | one waiting row per row, in the same order |
| DatasetUpdateMapper.ToDomainList | src/infrastructure/db/mappers/dataset-update.mapper.ts:26-28 | one update per row, in the same order |
| Store.Store.constructor | src/infrastructure/db/database.client.ts:66-99 | a store over the given tables, with an empty outbox, the given first generated id and the given publisher behaviour, holds its invariant |
| Store.Store.FreshId | src/infrastructure/db/repositories/postgres-metric-run.repository.ts:18-62 | the id the database generates is not used by any run, waiting row or update, and every later one stays unused |
| Store.Store.Publish | src/infrastructure/aws/sns-publisher.ts:29-91 | a publish appends the request to the outbox when the publisher accepts it and otherwise fails, changing no table |
| Sequences.Filter | src/infrastructure/db/repositories/postgres-dataset-update.repository.ts:108 | keeps exactly the elements satisfying the condition, and no more elements than there were |
| Sequences.SortDesc | src/infrastructure/db/repositories/postgres-dataset-update.repository.ts:108 | a permutation of its input |
| Sequences.SortDescSorted | src/infrastructure/db/repositories/postgres-metric-run.repository.ts:110 | the sort yields a descending order of the key |
| Sequences.Latest | src/infrastructure/db/repositories/postgres-dataset-update.repository.ts:129-133 | an element of greatest key, and nothing exactly for an empty input |
| Sequences.SortDescHeadIsLatest | src/infrastructure/db/repositories/postgres-dataset-update.repository.ts:129-133 | the head of the descending sort is the element the latest-query picks |
| Sequences.CountIsFilterLength | src/infrastructure/db/repositories/postgres-pending-dataset.repository.ts:199-209 | counting the matching rows gives the length of the filtered rows |
| Sequences.FilterMultiset | src/infrastructure/db/repositories/postgres-dataset-update.repository.ts:108 | filtering keeps every matching element with its multiplicity and drops every other |
| Json.NatToStringInjective | src/infrastructure/db/repositories/postgres-metric-run.repository.ts:36-43 | distinct counter values render as distinct identifiers |

## Left out

- SQS consumption and SNS publishing. The consumer loop, the SQS helper and the queue module are transport. `SnsPublisher` is an AWS SDK wrapper. Publishing is an append to the outbox, or a failure.
- The S3 client. No core operation uses it.
- The Postgres pool. `database.client.ts` is kept only as commit-or-discard. Connection handling and driver errors are not modelled.
- Concurrent transactions. Every call runs alone. `ON CONFLICT` is modelled as the key check it performs.
- SQL text. Each query is modelled by the rows it selects or the change it makes.
- NestJS wiring, configuration, logging, scripts and test helpers. They have no effect on the tables or on what is published.
- The trivial SELECT repositories for metrics, series and datasets. They are lookups over the tables in `Catalog`.
- `findBySeriesCodes`. It is called but neither declared nor implemented. `Catalog.FindBySeriesCodes` is the abstract query: the datasets, in table order, that hold any of the codes.
- An event-log step in the projection-update use case. The use case's constructor takes no event-log repository, so the model has no such step, while the event-log repository is modelled on its own.
- Calendar arithmetic. `setDate` on local time is modelled as subtracting whole days of 86 400 000 ms. Daylight-saving shifts are not modelled.
- Floating point. JSON numbers are reals, so rounding is not modelled. A row count is accepted only when it is an integer.
- The clock in the lifecycle handlers. It is one parameter per call, while the code reads `new Date()` each time it needs one.
- Database-generated identifiers. They are a counter that a rolled-back transaction does not reset. This is harmless, because the model needs only that identifiers are distinct and unused.
- Key order of stored JSONB. It is modelled only where it decides a result: the `series_code`/`seriesCode` clash in `MetricMapper.ConvertSeriesCode`.
- Ties in `ORDER BY created_at` / `requested_at`. The model fixes one order for equal timestamps, while SQL leaves it unspecified.
- Fields of an inbound message that are not strings. The parsers return the decoded JSON values. The typed events the use cases take are recovered only when every field has its declared type, as in the round-trip lemmas.
- TimeWindow.ValidMonotoneInDays: stated for positive waits only. A wait of zero or fewer days accepts every update, so monotonicity fails from zero upwards (`TimeWindow.ValidNotMonotoneFromZero`).
