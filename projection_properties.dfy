/** What the "dataset updated" use case guarantees: which runs it creates and
    returns, which tables it may touch, how a failure rolls back, and what a
    replayed notification does. */
module ProjectionProperties {
  import opened Wrappers
  import opened Json
  import opened Entities
  import opened Store
  import opened MetricStatus
  import DatasetUpdateRepository
  import DatasetUpdateService
  import DependencyResolver
  import PendingDatasetRepository
  import PendingRunService
  import RunOrchestrator
  import opened ProjectionUpdate

  /** `after` differs from `before` at most in the run tables: the runs,
      the waiting rows and the run/update links. */
  predicate RunTablesOnly(before: Tables, after: Tables) {
    after == before.(runs := after.runs, pending := after.pending, runDatasetUpdates := after.runDatasetUpdates)
  }

  /** The run created for the `k`-th dependent metric when ids start at `firstId`. */
  function RunFor(metric: Metric, firstId: nat, k: nat, now: int): MetricRun {
    CreatedRun(RunOrchestrator.PendingRun(metric), GenId(firstId + k), now)
  }

  // ---------------------------------------------------------------------
  // Which tables each stage writes

  lemma EmissionWritesRunTables(db: Tables, runId: string, publishOk: bool)
    ensures RunTablesOnly(db, RunOrchestrator.Emission(db, runId, publishOk).db)
  {
  }

  /** One turn of the creation loop writes only the run tables, and the run
      it returns is the pending run of the metric with the turn's id. */
  lemma CreateStepSpec(db: Tables, id: nat, metric: Metric, datasetId: string, update: DatasetUpdate,
                       now: int, publishOk: bool)
    ensures var c := CreateStep(db, id, metric, datasetId, update, now, publishOk);
      && RunTablesOnly(db, c.db)
      && (c.result.Ok? ==> c.result.value == CreatedRun(RunOrchestrator.PendingRun(metric), GenId(id), now))
  {
    var required := DependencyResolver.ResolvedDatasets(db, metric.id);
    if required.Ok? {
      var run := CreatedRun(RunOrchestrator.PendingRun(metric), GenId(id), now);
      var setup := RunOrchestrator.SetUp(db, run, datasetId, update, required.value, now);
      EmissionWritesRunTables(setup, GenId(id), publishOk);
    }
  }

  /** Every turn of `step` writes only the run tables and returns the
      metric's pending run with the turn's id. */
  ghost predicate CreatesPendingRuns(step: (Tables, nat, Metric) -> RunOrchestrator.Created, now: int) {
    forall db: Tables, id: nat, metric: Metric :: (
      var c := step(db, id, metric);
      && RunTablesOnly(db, c.db)
      && (c.result.Ok? ==> c.result.value == CreatedRun(RunOrchestrator.PendingRun(metric), GenId(id), now)))
  }

  lemma {:induction false} CreateRunsWithSpec(step: (Tables, nat, Metric) -> RunOrchestrator.Created, db: Tables,
                                              firstId: nat, metrics: seq<Metric>, now: int)
    requires CreatesPendingRuns(step, now)
    ensures var b := CreateRunsWith(step, db, firstId, metrics);
      && RunTablesOnly(db, b.db)
      && (b.result.Ok? ==>
            && |b.result.value| == |metrics|
            && forall k :: 0 <= k < |metrics| ==> b.result.value[k] == RunFor(metrics[k], firstId, k, now))
    decreases |metrics|
  {
    if metrics != [] {
      var c := step(db, firstId, metrics[0]);
      if c.result.Ok? {
        var rest := CreateRunsWith(step, c.db, firstId + 1, metrics[1..]);
        CreateRunsWithSpec(step, c.db, firstId + 1, metrics[1..], now);
        var b := CreateRunsWith(step, db, firstId, metrics);
        if rest.result.Ok? {
          forall k | 0 <= k < |metrics|
            ensures b.result.value[k] == RunFor(metrics[k], firstId, k, now)
          {
            if k > 0 {
              assert b.result.value[k] == rest.result.value[k - 1];
              assert metrics[1..][k - 1] == metrics[k];
            }
          }
        }
      }
    }
  }

  /** The creation loop writes only the run tables and, when no turn fails,
      returns one run per metric, in order: the metric's pending run with
      the next generated id. */
  lemma CreateRunsSpec(db: Tables, firstId: nat, metrics: seq<Metric>, datasetId: string,
                       update: DatasetUpdate, now: int, publishOk: bool)
    ensures var b := CreateRuns(db, firstId, metrics, datasetId, update, now, publishOk);
      && RunTablesOnly(db, b.db)
      && (b.result.Ok? ==>
            && |b.result.value| == |metrics|
            && forall k :: 0 <= k < |metrics| ==> b.result.value[k] == RunFor(metrics[k], firstId, k, now))
  {
    var step := StepFor(datasetId, update, now, publishOk);
    forall db': Tables, id: nat, metric: Metric
      ensures var c := step(db', id, metric);
        && RunTablesOnly(db', c.db)
        && (c.result.Ok? ==> c.result.value == CreatedRun(RunOrchestrator.PendingRun(metric), GenId(id), now))
    {
      CreateStepSpec(db', id, metric, datasetId, update, now, publishOk);
    }
    CreateRunsWithSpec(step, db, firstId, metrics, now);
  }

  /** The runs created in one call have pairwise distinct ids. */
  lemma CreatedIdsDistinct(metrics: seq<Metric>, firstId: nat, now: int, j: int, k: int)
    requires 0 <= j < k < |metrics|
    ensures RunFor(metrics[j], firstId, j, now).id != RunFor(metrics[k], firstId, k, now).id
  {
    if GenId(firstId + j) == GenId(firstId + k) {
      NatToStringInjective(firstId + j, firstId + k);
    }
  }

  lemma {:induction false} EmitReadyWritesRunTables(db: Tables, runs: seq<MetricRun>, publishOk: bool)
    ensures RunTablesOnly(db, EmitReady(db, runs, publishOk).db)
    decreases |runs|
  {
    if runs != [] {
      if runs[0].status != PENDING_DEPENDENCIES {
        EmitReadyWritesRunTables(db, runs[1..], publishOk);
      } else {
        var e := RunOrchestrator.Emission(db, runs[0].id, publishOk);
        EmissionWritesRunTables(db, runs[0].id, publishOk);
        if e.outcome.Pass? {
          EmitReadyWritesRunTables(e.db, runs[1..], publishOk);
        }
      }
    }
  }

  /** Past `persistUpdate`, the use case writes only the run tables. */
  lemma ProcessWritesRunTables(db: Tables, nextId: nat, event: ProjectionUpdateEvent, now: int, publishOk: bool)
    ensures RunTablesOnly(Persist(db, nextId, event, now).db, ProcessUpdate(db, nextId, event, now, publishOk).db)
  {
    var p := Persist(db, nextId, event, now);
    var dependents := DependencyResolver.MetricsForDataset(p.db, event.datasetId);
    if dependents.Ok? && dependents.value != [] {
      var b := CreateRuns(p.db, p.nextId, dependents.value, event.datasetId, p.update, now, publishOk);
      CreateRunsSpec(p.db, p.nextId, dependents.value, event.datasetId, p.update, now, publishOk);
      if b.result.Ok? {
        var rows := PendingDatasetRepository.FindByDatasetId(b.db, event.datasetId);
        var q := PendingRunService.Process(b.db, rows, event.datasetId, p.update.id, p.update.createdAt, now);
        PendingRunService.ProcessTouchesOnlyDataset(b.db, rows, event.datasetId, p.update.id,
          p.update.createdAt, now);
        EmitReadyWritesRunTables(q.db, q.ready, publishOk);
      }
    }
  }

  // ---------------------------------------------------------------------
  // The dataset update

  /** After `persistUpdate` the notification's key finds the update it
      returned, which is a row of the table. */
  lemma PersistFindsUpdate(db: Tables, nextId: nat, event: ProjectionUpdateEvent, now: int)
    ensures var p := Persist(db, nextId, event, now);
      && DatasetUpdateRepository.FindByEventKey(p.db, DatasetUpdateService.EventKey(event)) == Some(p.update)
      && p.update in p.db.datasetUpdates
  {
    var key := DatasetUpdateService.EventKey(event);
    if DatasetUpdateRepository.FindByEventKey(db, key).None? {
      var u := CreatedUpdate(DatasetUpdateService.UpdateOf(event), GenId(nextId), now);
      DatasetUpdateService.FirstWithEventKeyAppend(db.datasetUpdates, u);
    }
  }

  /** The update is stored before the dependents are looked up: even with
      no dependent metric the call records it, returns no run, publishes
      nothing and commits. */
  lemma NoDependentsRecordsUpdateOnly(db: Tables, nextId: nat, event: ProjectionUpdateEvent, now: int,
                                      publishOk: bool)
    requires DependencyResolver.MetricsForDataset(Persist(db, nextId, event, now).db, event.datasetId) == Ok([])
    ensures var p := Persist(db, nextId, event, now);
      && ExecuteEffect(db, nextId, event, now, publishOk) == Effect(p.db, [], Ok([]))
      && p.update in p.db.datasetUpdates
      && p.update.eventKey == DatasetUpdateService.EventKey(event)
  {
    PersistFindsUpdate(db, nextId, event, now);
  }

  // ---------------------------------------------------------------------
  // The transaction

  /** On failure the tables are as before the call (what was published stays
      published); on success the update is recorded, and besides it only the
      run tables have changed. */
  lemma ExecuteCommitsOrRestores(db: Tables, nextId: nat, event: ProjectionUpdateEvent, now: int, publishOk: bool)
    ensures var x := ExecuteEffect(db, nextId, event, now, publishOk);
      var p := Persist(db, nextId, event, now);
      && x.published == ProcessUpdate(db, nextId, event, now, publishOk).published
      && (x.result.Err? ==> x.db == db)
      && (x.result.Ok? ==>
            && RunTablesOnly(db.(datasetUpdates := x.db.datasetUpdates), x.db)
            && x.db.datasetUpdates == p.db.datasetUpdates
            && DatasetUpdateRepository.FindByEventKey(x.db, DatasetUpdateService.EventKey(event)) == Some(p.update))
  {
    ProcessWritesRunTables(db, nextId, event, now, publishOk);
    PersistFindsUpdate(db, nextId, event, now);
  }

  /** Replaying a notification after a committed call, or one whose update
      was already stored, reuses the same dataset update and adds no row. */
  lemma ReplayReusesUpdate(db: Tables, nextId: nat, event: ProjectionUpdateEvent, now: int, publishOk: bool,
                           laterId: nat, later: int)
    requires ExecuteEffect(db, nextId, event, now, publishOk).result.Ok?
             || DatasetUpdateRepository.FindByEventKey(db, DatasetUpdateService.EventKey(event)).Some?
    ensures var x := ExecuteEffect(db, nextId, event, now, publishOk);
      var again := Persist(x.db, laterId, event, later);
      && again.update == Persist(db, nextId, event, now).update
      && again.db == x.db && again.nextId == laterId
  {
    ExecuteCommitsOrRestores(db, nextId, event, now, publishOk);
  }

  // ---------------------------------------------------------------------
  // The runs returned

  /** A committed call returns first one run per dependent metric, in the
      order of the dependents, each the metric's run as created (still
      waiting for dependencies) with the next generated id, then the runs
      the pending-run step reported, which were ready and stored when it
      ended. */
  lemma ReturnedRuns(db: Tables, nextId: nat, event: ProjectionUpdateEvent, now: int, publishOk: bool)
    requires ProcessUpdate(db, nextId, event, now, publishOk).result.Ok?
    ensures var p := Persist(db, nextId, event, now);
      var metrics := DependencyResolver.MetricsForDataset(p.db, event.datasetId).value;
      var rs := ProcessUpdate(db, nextId, event, now, publishOk).result.value;
      && |metrics| <= |rs|
      && (forall k :: 0 <= k < |metrics| ==>
            rs[k] == RunFor(metrics[k], p.nextId, k, now) && rs[k].status == PENDING_DEPENDENCIES)
      && (metrics == [] ==> rs == [])
      && (metrics != [] ==>
            var b := CreateRuns(p.db, p.nextId, metrics, event.datasetId, p.update, now, publishOk);
            var q := PendingRunService.Process(b.db, PendingDatasetRepository.FindByDatasetId(b.db, event.datasetId),
                                               event.datasetId, p.update.id, p.update.createdAt, now);
            && rs[|metrics|..] == q.ready
            && forall run :: run in q.ready ==> run in q.db.runs && PendingRunService.IsRunReady(q.db, run.id))
  {
    var p := Persist(db, nextId, event, now);
    var metrics := DependencyResolver.MetricsForDataset(p.db, event.datasetId).value;
    if metrics != [] {
      var b := CreateRuns(p.db, p.nextId, metrics, event.datasetId, p.update, now, publishOk);
      CreateRunsSpec(p.db, p.nextId, metrics, event.datasetId, p.update, now, publishOk);
      var rows := PendingDatasetRepository.FindByDatasetId(b.db, event.datasetId);
      var q := PendingRunService.Process(b.db, rows, event.datasetId, p.update.id, p.update.createdAt, now);
      PendingRunService.ReportedRunsAreReady(b.db, rows, event.datasetId, p.update.id, p.update.createdAt, now);
      var rs := ProcessUpdate(db, nextId, event, now, publishOk).result.value;
      assert rs == b.result.value + q.ready;
    }
  }
}
