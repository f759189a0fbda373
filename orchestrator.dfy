/** Creating a run for a metric, waiting rows for each dataset it needs, and
    emitting the run request once nothing is waited for. */
module RunOrchestrator {
  import opened Wrappers
  import opened Json
  import opened Entities
  import opened Errors
  import opened Store
  import opened Catalog
  import opened MetricStatus
  import opened Sequences
  import DependencyExtractor
  import WindowCheck
  import PendingDatasetRepository
  import MetricRunRepository
  import DatasetUpdateRepository
  import PendingRunService

  /** The freshness window of every waiting row; not yet configurable per metric. */
  const REQUIRED_DAYS: int := 7
  const RUN_REQUESTED: string := "metric_run_requested"

  // ---------------------------------------------------------------------
  // Creation

  /** `createPendingRun`: the run as inserted. */
  function PendingRun(metric: Metric): NewMetricRun {
    NewMetricRun(metric.id, metric.code, PENDING_DEPENDENCIES, None, None, None, None, None, None, None)
  }

  /** The waiting row for one required dataset: already received, with the
      current update, when it is the dataset that has just been updated. */
  function PendingRowFor(runId: string, currentDatasetId: string, currentUpdate: DatasetUpdate,
                         datasetId: string): NewPendingDataset {
    var isCurrent := datasetId == currentDatasetId;
    NewPendingDataset(runId, datasetId, REQUIRED_DAYS,
      if isCurrent then Some(currentUpdate.id) else None,
      isCurrent,
      if isCurrent then Some(currentUpdate.createdAt) else None)
  }

  /** The rows `createPendingDatasets` inserts, in order. */
  function PendingRowsFor(runId: string, currentDatasetId: string, currentUpdate: DatasetUpdate,
                          datasetIds: seq<string>, now: int): seq<PendingDataset>
  {
    seq(|datasetIds|, i requires 0 <= i < |datasetIds| =>
      CreatedPending(PendingRowFor(runId, currentDatasetId, currentUpdate, datasetIds[i]), now))
  }

  /** `createPendingDatasets`: one row per required dataset. */
  method CreatePendingDatasets(st: Store, runId: string, currentDatasetId: string, currentUpdate: DatasetUpdate,
                               datasetIds: seq<string>, now: int)
    requires st.Valid() && st.NotFuture(runId)
    modifies st
    ensures st.db == old(st.db).(pending := old(st.db.pending)
      + PendingRowsFor(runId, currentDatasetId, currentUpdate, datasetIds, now))
    ensures st.outbox == old(st.outbox) && st.nextId == old(st.nextId)
    ensures st.Valid() && st.NotFuture(runId)
  {
    var i := 0;
    while i < |datasetIds|
      invariant 0 <= i <= |datasetIds|
      invariant st.db == old(st.db).(pending := old(st.db.pending)
        + PendingRowsFor(runId, currentDatasetId, currentUpdate, datasetIds[..i], now))
      invariant st.outbox == old(st.outbox) && st.nextId == old(st.nextId)
      invariant st.Valid() && st.NotFuture(runId)
    {
      var row := PendingRowFor(runId, currentDatasetId, currentUpdate, datasetIds[i]);
      var created := PendingDatasetRepository.Create(st, row, now);
      assert PendingRowsFor(runId, currentDatasetId, currentUpdate, datasetIds[..i + 1], now)
        == PendingRowsFor(runId, currentDatasetId, currentUpdate, datasetIds[..i], now) + [created];
      i := i + 1;
    }
    assert datasetIds[..i] == datasetIds;
  }

  // ---------------------------------------------------------------------
  // The parts of a run request

  /** `fetchLatestDatasetUpdates`: the latest update of each required
      dataset that has one, in the order of the ids. */
  function LatestUpdates(db: Tables, datasetIds: seq<string>): seq<DatasetUpdate>
    decreases |datasetIds|
  {
    if datasetIds == [] then []
    else
      var last := datasetIds[|datasetIds| - 1];
      LatestUpdates(db, datasetIds[..|datasetIds| - 1])
      + match DatasetUpdateRepository.FindLatestByDatasetId(db, last)
        case None => []
        case Some(u) => [u]
  }

  method FetchLatestDatasetUpdates(db: Tables, datasetIds: seq<string>) returns (updates: seq<DatasetUpdate>)
    ensures updates == LatestUpdates(db, datasetIds)
  {
    updates := [];
    var i := 0;
    while i < |datasetIds|
      invariant 0 <= i <= |datasetIds|
      invariant updates == LatestUpdates(db, datasetIds[..i])
    {
      assert datasetIds[..i + 1][..i] == datasetIds[..i];
      var update := DatasetUpdateRepository.FindLatestByDatasetId(db, datasetIds[i]);
      if update.Some? {
        updates := updates + [update.value];
      }
      i := i + 1;
    }
    assert datasetIds[..i] == datasetIds;
  }

  /** `datasetUpdates.map((update) => update.id)`. */
  function UpdateIds(updates: seq<DatasetUpdate>): seq<string> {
    seq(|updates|, i requires 0 <= i < |updates| => updates[i].id)
  }

  /** The first of `candidates` that is in `required`. */
  function FirstRequired(candidates: seq<string>, required: seq<string>): (r: Option<string>)
    ensures r.Some? ==> r.value in candidates && r.value in required
    ensures r.None? <==> forall d :: d in candidates ==> d !in required
  {
    if candidates == [] then None
    else if candidates[0] in required then Some(candidates[0])
    else FirstRequired(candidates[1..], required)
  }

  /** No candidate before the one found is required. */
  lemma {:induction false} FirstRequiredIsFirst(candidates: seq<string>, required: seq<string>)
    requires FirstRequired(candidates, required).Some?
    ensures exists i :: (0 <= i < |candidates| && candidates[i] == FirstRequired(candidates, required).value
      && forall j :: 0 <= j < i ==> candidates[j] !in required)
  {
    if candidates[0] in required {
      assert candidates[0] == FirstRequired(candidates, required).value;
    } else {
      var tail := candidates[1..];
      FirstRequiredIsFirst(tail, required);
      var i :| 0 <= i < |tail| && tail[i] == FirstRequired(tail, required).value
        && forall j :: 0 <= j < i ==> tail[j] !in required;
      forall j | 0 <= j < i + 1
        ensures candidates[j] !in required
      {
        if j > 0 { assert candidates[j] == tail[j - 1]; }
      }
      assert candidates[i + 1] == tail[i];
    }
  }

  /** `findDatasetForSeries`: of the datasets holding the series, in query
      order, the first that the run requires. */
  function DatasetForSeries(db: Tables, seriesCode: string, required: seq<string>): (r: Option<string>)
    ensures r.Some? ==> r.value in db.datasets && (r.value, seriesCode) in db.membership && r.value in required
    ensures r.None? <==>
      forall d :: d in db.datasets && (d, seriesCode) in db.membership ==> d !in required
  {
    var candidates := FindBySeriesCodes(db, [seriesCode]);
    assert forall d :: OwnsAnyOf(db, d, [seriesCode]) <==> (d, seriesCode) in db.membership by {
      forall d ensures OwnsAnyOf(db, d, [seriesCode]) <==> (d, seriesCode) in db.membership {
        if (d, seriesCode) in db.membership {
          assert seriesCode in [seriesCode];
        }
      }
    }
    FirstRequired(candidates, required)
  }

  /** Whether a code gets an input. */
  function HasInput(db: Tables, required: seq<string>): string -> bool {
    (c: string) => DatasetForSeries(db, c, required).Some?
  }

  /** `buildRunInputs`: one input per code that some required dataset holds. */
  function RunInputs(db: Tables, codes: seq<string>, required: seq<string>): seq<MetricInput>
    decreases |codes|
  {
    if codes == [] then []
    else
      var last := codes[|codes| - 1];
      RunInputs(db, codes[..|codes| - 1], required)
      + match DatasetForSeries(db, last, required)
        case None => []
        case Some(d) => [MetricInput(d, last)]
  }

  method BuildRunInputs(db: Tables, codes: seq<string>, required: seq<string>) returns (inputs: seq<MetricInput>)
    ensures inputs == RunInputs(db, codes, required)
  {
    inputs := [];
    var i := 0;
    while i < |codes|
      invariant 0 <= i <= |codes|
      invariant inputs == RunInputs(db, codes[..i], required)
    {
      assert codes[..i + 1][..i] == codes[..i];
      var dataset := DatasetForSeries(db, codes[i], required);
      if dataset.Some? {
        inputs := inputs + [MetricInput(dataset.value, codes[i])];
      }
      i := i + 1;
    }
    assert codes[..i] == codes;
  }

  function Info(u: DatasetUpdate): DatasetCatalogInfo {
    DatasetCatalogInfo(u.versionManifestPath, u.projectionsPath)
  }

  /** `buildDatasetCatalog`: keyed by dataset; a later update of the same
      dataset overwrites an earlier one. */
  function CatalogOf(updates: seq<DatasetUpdate>): map<string, DatasetCatalogInfo>
    decreases |updates|
  {
    if updates == [] then map[]
    else
      var last := updates[|updates| - 1];
      CatalogOf(updates[..|updates| - 1])[last.datasetId := Info(last)]
  }

  method BuildDatasetCatalog(updates: seq<DatasetUpdate>) returns (catalog: map<string, DatasetCatalogInfo>)
    ensures catalog == CatalogOf(updates)
  {
    catalog := map[];
    var i := 0;
    while i < |updates|
      invariant 0 <= i <= |updates|
      invariant catalog == CatalogOf(updates[..i])
    {
      assert updates[..i + 1][..i] == updates[..i];
      catalog := catalog[updates[i].datasetId := Info(updates[i])];
      i := i + 1;
    }
    assert updates[..i] == updates;
  }

  function BasePath(metricCode: string): string {
    "s3://bucket/metrics/" + metricCode + "/"
  }

  /** `buildMetricRunRequestEvent`: checks the windows, then assembles the
      request, grouped by metric and deduplicated by run. */
  function BuildMetricRunRequestEvent(run: MetricRun, metric: Metric, inputs: seq<MetricInput>,
                                      catalog: map<string, DatasetCatalogInfo>)
    : (r: Result<MetricRunRequestEvent, Failure>)
    ensures r.Ok? <==> WindowCheck.AllOk(WindowCheck.Nodes(metric.expressionJson))
    ensures r.Err? ==> WindowCheck.ValidateWindowOps(metric.expressionJson, metric.code, "expressionJson") == Fail(r.error)
    ensures r.Ok? ==> (r.value.eventType == RUN_REQUESTED && r.value.runId == run.id
      && r.value.metricCode == metric.code && r.value.expressionType == metric.expressionType
      && r.value.expressionJson == metric.expressionJson
      && r.value.inputs == inputs && r.value.catalog == catalog
      && r.value.basePath == BasePath(metric.code)
      && r.value.messageGroupId == Some(metric.code) && r.value.messageDeduplicationId == Some(run.id))
  {
    WindowCheck.ValidateWindowOpsPasses(metric.expressionJson, metric.code, "expressionJson");
    match WindowCheck.ValidateWindowOps(metric.expressionJson, metric.code, "expressionJson")
    case Fail(e) => Err(e)
    case Pass =>
      Ok(MetricRunRequestEvent(RUN_REQUESTED, run.id, metric.code, metric.expressionType,
        metric.expressionJson, inputs, catalog, BasePath(metric.code), Some(metric.code), Some(run.id)))
  }

  /** The request `emitRun` builds after linking the updates. */
  function RequestEvent(db: Tables, run: MetricRun, metric: Metric, required: seq<string>,
                        updates: seq<DatasetUpdate>): Result<MetricRunRequestEvent, Failure>
  {
    match DependencyExtractor.SeriesCodes(metric.expressionJson)
    case Err(_) => Err(ExpressionTypeError)
    case Ok(codes) => BuildMetricRunRequestEvent(run, metric, RunInputs(db, codes, required), CatalogOf(updates))
  }

  // ---------------------------------------------------------------------
  // Emission

  /** The effect of an emission: the tables afterwards, what was published
      and the outcome. */
  datatype Emitted = Emitted(db: Tables, published: seq<MetricRunRequestEvent>, outcome: Outcome<Failure>)

  /** `emitRun`: link the latest updates, build the request and publish it. */
  function EmitRunEffect(db: Tables, run: MetricRun, metric: Metric, required: seq<string>, publishOk: bool): Emitted {
    var updates := LatestUpdates(db, required);
    var linked := db.(runDatasetUpdates := db.runDatasetUpdates
      + MetricRunRepository.Links(run.id, UpdateIds(updates)));
    match RequestEvent(db, run, metric, required, updates)
    case Err(e) => Emitted(linked, [], Fail(e))
    case Ok(event) =>
      if publishOk then Emitted(linked, [event], Pass) else Emitted(linked, [], Fail(PublishFailed))
  }

  /** `pendingDatasets.map((p) => p.datasetId)` over the run's rows. */
  function RequiredDatasetIds(db: Tables, runId: string): seq<string> {
    var rows := PendingDatasetRepository.FindByRunId(db, runId);
    seq(|rows|, i requires 0 <= i < |rows| => rows[i].datasetId)
  }

  /** `emitPendingRun`: the run must exist, still wait for dependencies and
      have its metric; a successful emission sets it to queued. */
  function Emission(db: Tables, runId: string, publishOk: bool): Emitted {
    match MetricRunRepository.FindById(db, runId)
    case None => Emitted(db, [], Fail(RunNotFound(runId)))
    case Some(run) =>
      if run.status != PENDING_DEPENDENCIES then Emitted(db, [], Fail(RunNotPending(runId, run.status)))
      else match FindMetricById(db, run.metricId)
        case None => Emitted(db, [], Fail(MetricNotFound(run.metricId)))
        case Some(metric) =>
          var e := EmitRunEffect(db, run, metric, RequiredDatasetIds(db, runId), publishOk);
          if e.outcome.Fail? then e
          else Emitted(e.db.(runs := MetricRunRepository.UpdateRuns(e.db.runs, runId,
                 MetricRunRepository.StatusPatch(QUEUED))), e.published, Pass)
  }

  method EmitRun(st: Store, run: MetricRun, metric: Metric, required: seq<string>) returns (r: Outcome<Failure>)
    requires st.Valid()
    modifies st
    ensures var e := EmitRunEffect(old(st.db), run, metric, required, st.publishSucceeds);
      st.db == e.db && st.outbox == old(st.outbox) + e.published && r == e.outcome
    ensures st.nextId == old(st.nextId)
    ensures st.Valid()
  {
    // The link insert changes no table the later queries read, so they are
    // answered from the tables as they were.
    var db := st.db;
    var updates := FetchLatestDatasetUpdates(db, required);
    MetricRunRepository.LinkDatasetUpdates(st, run.id, UpdateIds(updates));
    var codes := DependencyExtractor.ExtractSeriesCodes(metric);
    if codes.Err? {
      return Fail(ExpressionTypeError);
    }
    var inputs := BuildRunInputs(db, codes.value, required);
    var catalog := BuildDatasetCatalog(updates);
    var event := BuildMetricRunRequestEvent(run, metric, inputs, catalog);
    if event.Err? {
      return Fail(event.error);
    }
    var ok := st.Publish(event.value);
    if !ok {
      return Fail(PublishFailed);
    }
    r := Pass;
  }

  method EmitPendingRun(st: Store, runId: string) returns (r: Outcome<Failure>)
    requires st.Valid()
    modifies st
    ensures var e := Emission(old(st.db), runId, st.publishSucceeds);
      st.db == e.db && st.outbox == old(st.outbox) + e.published && r == e.outcome
    ensures st.nextId == old(st.nextId)
    ensures st.Valid()
  {
    var run := MetricRunRepository.FindById(st.db, runId);
    if run.None? {
      return Fail(RunNotFound(runId));
    }
    if run.value.status != PENDING_DEPENDENCIES {
      return Fail(RunNotPending(runId, run.value.status));
    }
    var metric := FindMetricById(st.db, run.value.metricId);
    if metric.None? {
      return Fail(MetricNotFound(run.value.metricId));
    }
    var required := RequiredDatasetIds(st.db, runId);
    r := EmitRun(st, run.value, metric.value, required);
    if r.Fail? {
      return;
    }
    var queued := MetricRunRepository.UpdateStatus(st, runId, QUEUED);
    if queued.Err? {
      assert false;
    }
  }

  /** The tables right after the run and its waiting rows are inserted. */
  function SetUp(db: Tables, run: MetricRun, currentDatasetId: string, currentUpdate: DatasetUpdate,
                 required: seq<string>, now: int): Tables
  {
    db.(runs := db.runs + [run],
        pending := db.pending + PendingRowsFor(run.id, currentDatasetId, currentUpdate, required, now))
  }

  /** The effect of creating a run: the tables afterwards, what was
      published and the run returned. */
  datatype Created = Created(db: Tables, published: seq<MetricRunRequestEvent>, result: Result<MetricRun, Failure>)

  /** `createRunForMetric` with `id` as the generated run id. */
  function CreateRunEffect(db: Tables, id: string, metric: Metric, currentDatasetId: string,
                           currentUpdate: DatasetUpdate, required: seq<string>, now: int, publishOk: bool): Created
  {
    var run := CreatedRun(PendingRun(metric), id, now);
    var setup := SetUp(db, run, currentDatasetId, currentUpdate, required, now);
    if !PendingRunService.IsRunReady(setup, id) then Created(setup, [], Ok(run))
    else
      var e := Emission(setup, id, publishOk);
      Created(e.db, e.published, if e.outcome.Pass? then Ok(run) else Err(e.outcome.error))
  }

  /** `createRunForMetric`: the run, its waiting rows and, when none of them
      waits, the emission. The run is returned as created. */
  method CreateRunForMetric(st: Store, metric: Metric, currentDatasetId: string, currentUpdate: DatasetUpdate,
                            required: seq<string>, now: int)
    returns (r: Result<MetricRun, Failure>)
    requires st.Valid()
    modifies st
    ensures Unused(old(st.db), GenId(old(st.nextId)))
    ensures var c := CreateRunEffect(old(st.db), GenId(old(st.nextId)), metric, currentDatasetId, currentUpdate,
                                     required, now, st.publishSucceeds);
      st.db == c.db && st.outbox == old(st.outbox) + c.published && r == c.result
    ensures st.nextId == old(st.nextId) + 1
    ensures st.Valid()
  {
    var run := MetricRunRepository.Create(st, PendingRun(metric), now);
    CreatePendingDatasets(st, run.id, currentDatasetId, currentUpdate, required, now);
    if PendingRunService.IsRunReady(st.db, run.id) {
      var emitted := EmitPendingRun(st, run.id);
      if emitted.Fail? {
        return Err(emitted.error);
      }
    }
    r := Ok(run);
  }

  // ---------------------------------------------------------------------
  // Properties of creation

  /** The rows carry the run, their dataset and seven days; a row is
      received, with the current update, exactly when its dataset is the
      current one. */
  lemma PendingRowsShape(runId: string, currentDatasetId: string, currentUpdate: DatasetUpdate,
                         datasetIds: seq<string>, now: int, i: int)
    requires 0 <= i < |datasetIds|
    ensures var p := PendingRowsFor(runId, currentDatasetId, currentUpdate, datasetIds, now)[i];
      && p.runId == runId && p.datasetId == datasetIds[i] && p.requiredDays == 7 && p.createdAt == now
      && (p.received <==> datasetIds[i] == currentDatasetId)
      && (p.receivedUpdateId.Some? <==> p.received) && (p.receivedAt.Some? <==> p.received)
      && (p.received ==> p.receivedUpdateId == Some(currentUpdate.id) && p.receivedAt == Some(currentUpdate.createdAt))
  {
  }

  /** A new run is ready right after creation exactly when every dataset it
      requires is the one just updated (in particular when it requires none). */
  lemma ReadyAtCreation(db: Tables, runId: string, currentDatasetId: string, currentUpdate: DatasetUpdate,
                        datasetIds: seq<string>, now: int)
    requires forall p :: p in db.pending ==> p.runId != runId
    ensures var rows := PendingRowsFor(runId, currentDatasetId, currentUpdate, datasetIds, now);
      PendingRunService.IsRunReady(db.(pending := db.pending + rows), runId)
      <==> forall d :: d in datasetIds ==> d == currentDatasetId
  {
    var rows := PendingRowsFor(runId, currentDatasetId, currentUpdate, datasetIds, now);
    var after := db.(pending := db.pending + rows);
    if forall d :: d in datasetIds ==> d == currentDatasetId {
      forall p | p in after.pending && p.runId == runId
        ensures p.received
      {
        assert p !in db.pending;
        var i :| 0 <= i < |rows| && rows[i] == p;
        assert datasetIds[i] in datasetIds;
      }
    } else {
      var d :| d in datasetIds && d != currentDatasetId;
      var i :| 0 <= i < |datasetIds| && datasetIds[i] == d;
      assert rows[i] in after.pending && rows[i].runId == runId && !rows[i].received;
    }
  }

  /** The new run is found by its id right after it is inserted. */
  lemma SetUpFindsRun(db: Tables, run: MetricRun, currentDatasetId: string, currentUpdate: DatasetUpdate,
                      required: seq<string>, now: int)
    requires Unused(db, run.id)
    ensures MetricRunRepository.FindById(SetUp(db, run, currentDatasetId, currentUpdate, required, now), run.id)
      == Some(run)
  {
    FirstWithIdAppend(db.runs, run);
  }

  lemma {:induction false} FirstWithIdAppend(runs: seq<MetricRun>, run: MetricRun)
    requires forall q :: q in runs ==> q.id != run.id
    ensures MetricRunRepository.FirstWithId(runs + [run], run.id) == Some(run)
  {
    if runs != [] {
      assert (runs + [run])[1..] == runs[1..] + [run];
      FirstWithIdAppend(runs[1..], run);
    }
  }

  /** While some required dataset is not the one just updated, the run is
      created waiting: nothing is published and the run is returned. */
  lemma CreateRunWaits(db: Tables, id: string, metric: Metric, currentDatasetId: string,
                       currentUpdate: DatasetUpdate, required: seq<string>, now: int, publishOk: bool)
    requires Unused(db, id)
    requires exists d :: d in required && d != currentDatasetId
    ensures var run := CreatedRun(PendingRun(metric), id, now);
      CreateRunEffect(db, id, metric, currentDatasetId, currentUpdate, required, now, publishOk)
      == Created(SetUp(db, run, currentDatasetId, currentUpdate, required, now), [], Ok(run))
  {
    ReadyAtCreation(db, id, currentDatasetId, currentUpdate, required, now);
  }

  /** When every required dataset is the one just updated, the run is
      emitted at once; it is returned as created, still waiting for
      dependencies, even though the tables now hold it queued. */
  lemma CreateRunEmits(db: Tables, id: string, metric: Metric, currentDatasetId: string,
                       currentUpdate: DatasetUpdate, required: seq<string>, now: int, publishOk: bool)
    requires Unused(db, id)
    requires forall d :: d in required ==> d == currentDatasetId
    ensures var run := CreatedRun(PendingRun(metric), id, now);
      var setup := SetUp(db, run, currentDatasetId, currentUpdate, required, now);
      var c := CreateRunEffect(db, id, metric, currentDatasetId, currentUpdate, required, now, publishOk);
      var e := Emission(setup, id, publishOk);
      && c.db == e.db && c.published == e.published
      && (c.result.Ok? <==> e.outcome.Pass?)
      && (c.result.Ok? ==> (c.result.value == run && run.status == PENDING_DEPENDENCIES
            && MetricRunRepository.FindById(c.db, id) == Some(run.(status := QUEUED))))
  {
    var run := CreatedRun(PendingRun(metric), id, now);
    var setup := SetUp(db, run, currentDatasetId, currentUpdate, required, now);
    ReadyAtCreation(db, id, currentDatasetId, currentUpdate, required, now);
    SetUpFindsRun(db, run, currentDatasetId, currentUpdate, required, now);
    EmissionOutcome(setup, id, publishOk);
  }

  // ---------------------------------------------------------------------
  // Properties of the parts of a request

  /** Every update fetched is the latest of a required dataset, and every
      required dataset with an update has one fetched. */
  lemma {:induction false} LatestUpdatesSpec(db: Tables, datasetIds: seq<string>)
    ensures |LatestUpdates(db, datasetIds)| <= |datasetIds|
    ensures forall u :: u in LatestUpdates(db, datasetIds) ==>
      u.datasetId in datasetIds && DatasetUpdateRepository.FindLatestByDatasetId(db, u.datasetId) == Some(u)
    ensures forall d :: d in datasetIds && DatasetUpdateRepository.FindLatestByDatasetId(db, d).Some? ==>
      exists u :: u in LatestUpdates(db, datasetIds) && u.datasetId == d
    decreases |datasetIds|
  {
    if datasetIds != [] {
      var init := datasetIds[..|datasetIds| - 1];
      var last := datasetIds[|datasetIds| - 1];
      LatestUpdatesSpec(db, init);
      assert datasetIds == init + [last];
      assert forall d :: d in datasetIds <==> d in init || d == last;
    }
  }

  /** The catalog has one key per dataset among the updates, mapped to the
      last of its updates. */
  lemma {:induction false} CatalogOfSpec(updates: seq<DatasetUpdate>)
    ensures forall d :: d in CatalogOf(updates) <==> exists u :: u in updates && u.datasetId == d
    ensures forall i :: (0 <= i < |updates| &&
      (forall j :: i < j < |updates| ==> updates[j].datasetId != updates[i].datasetId)) ==>
      CatalogOf(updates)[updates[i].datasetId] == Info(updates[i])
    decreases |updates|
  {
    if updates != [] {
      var init := updates[..|updates| - 1];
      CatalogOfSpec(init);
      assert updates == init + [updates[|updates| - 1]];
      assert forall u :: u in updates <==> u in init || u == updates[|updates| - 1];
      forall i | 0 <= i < |updates| - 1
        ensures init[i] == updates[i]
      {
      }
    }
  }

  /** With the fetched updates, the catalog holds exactly the required
      datasets that have an update, each with its latest update. */
  lemma CatalogOfLatest(db: Tables, datasetIds: seq<string>)
    ensures var catalog := CatalogOf(LatestUpdates(db, datasetIds));
      forall d :: (d in catalog <==> d in datasetIds && DatasetUpdateRepository.FindLatestByDatasetId(db, d).Some?)
        && (d in catalog ==> catalog[d] == Info(DatasetUpdateRepository.FindLatestByDatasetId(db, d).value))
  {
    var updates := LatestUpdates(db, datasetIds);
    LatestUpdatesSpec(db, datasetIds);
    CatalogOfSpec(updates);
    forall d | d in CatalogOf(updates)
      ensures CatalogOf(updates)[d] == Info(DatasetUpdateRepository.FindLatestByDatasetId(db, d).value)
    {
      var u :| u in updates && u.datasetId == d;
      var i :| 0 <= i < |updates| && updates[i] == u;
      LastOfDataset(updates, i);
      var k :| i <= k < |updates| && updates[k].datasetId == d
        && forall j :: k < j < |updates| ==> updates[j].datasetId != d;
      assert updates[k] in updates;
    }
  }

  /** Some update of a dataset is the last of its dataset. */
  lemma LastOfDataset(updates: seq<DatasetUpdate>, i: int)
    requires 0 <= i < |updates|
    ensures exists k :: (i <= k < |updates| && updates[k].datasetId == updates[i].datasetId
      && forall j :: k < j < |updates| ==> updates[j].datasetId != updates[i].datasetId)
    decreases |updates| - i
  {
    if exists j :: i < j < |updates| && updates[j].datasetId == updates[i].datasetId {
      var j :| i < j < |updates| && updates[j].datasetId == updates[i].datasetId;
      LastOfDataset(updates, j);
    } else {
      assert forall j :: i < j < |updates| ==> updates[j].datasetId != updates[i].datasetId;
    }
  }

  function InputCodes(inputs: seq<MetricInput>): seq<string> {
    seq(|inputs|, i requires 0 <= i < |inputs| => inputs[i].seriesCode)
  }

  function InputOf(db: Tables, code: string, required: seq<string>): seq<MetricInput> {
    match DatasetForSeries(db, code, required)
    case None => []
    case Some(d) => [MetricInput(d, code)]
  }

  lemma RunInputsSnoc(db: Tables, codes: seq<string>, required: seq<string>)
    requires codes != []
    ensures RunInputs(db, codes, required)
      == RunInputs(db, codes[..|codes| - 1], required) + InputOf(db, codes[|codes| - 1], required)
  {
  }

  lemma InputCodesAppend(a: seq<MetricInput>, b: seq<MetricInput>)
    ensures InputCodes(a + b) == InputCodes(a) + InputCodes(b)
  {
  }

  lemma InputCodesOfOne(db: Tables, code: string, required: seq<string>)
    ensures InputCodes(InputOf(db, code, required)) == if HasInput(db, required)(code) then [code] else []
  {
  }

  /** The inputs follow the codes in order, one per code that some required
      dataset holds. */
  lemma {:induction false} RunInputsCodes(db: Tables, codes: seq<string>, required: seq<string>)
    ensures InputCodes(RunInputs(db, codes, required)) == Filter(codes, HasInput(db, required))
    decreases |codes|
  {
    if codes != [] {
      var init := codes[..|codes| - 1];
      var last := codes[|codes| - 1];
      RunInputsCodes(db, init, required);
      RunInputsSnoc(db, codes, required);
      InputCodesAppend(RunInputs(db, init, required), InputOf(db, last, required));
      InputCodesOfOne(db, last, required);
      assert codes == init + [last];
      FilterSnoc(init, last, HasInput(db, required));
    }
  }

  /** Each input names a code of the expression and the dataset found for it. */
  lemma {:induction false} RunInputsDatasets(db: Tables, codes: seq<string>, required: seq<string>)
    ensures forall input :: input in RunInputs(db, codes, required) ==>
      input.seriesCode in codes && DatasetForSeries(db, input.seriesCode, required) == Some(input.datasetId)
    decreases |codes|
  {
    if codes != [] {
      var init := codes[..|codes| - 1];
      RunInputsDatasets(db, init, required);
      RunInputsSnoc(db, codes, required);
      assert forall c :: c in init ==> c in codes;
    }
  }

  // ---------------------------------------------------------------------
  // Properties of emission

  /** A missing run, a run that no longer waits for dependencies or a
      missing metric is rejected before anything changes or is published. */
  lemma EmissionRejects(db: Tables, runId: string, publishOk: bool)
    ensures var run := MetricRunRepository.FindById(db, runId);
      (run.None? || run.value.status != PENDING_DEPENDENCIES || FindMetricById(db, run.value.metricId).None?)
      ==> && Emission(db, runId, publishOk).db == db && Emission(db, runId, publishOk).published == []
          && Emission(db, runId, publishOk).outcome.Fail?
          && Emission(db, runId, publishOk).outcome.error
             == (if run.None? then RunNotFound(runId)
                 else if run.value.status != PENDING_DEPENDENCIES then RunNotPending(runId, run.value.status)
                 else MetricNotFound(run.value.metricId))
  {
  }

  /** At most one request is published, exactly when the emission succeeds;
      success leaves the run queued, and any later failure leaves its status
      as it was. */
  lemma EmissionOutcome(db: Tables, runId: string, publishOk: bool)
    ensures var e := Emission(db, runId, publishOk);
      && |e.published| <= 1
      && (e.outcome.Pass? <==> |e.published| == 1)
      && (e.outcome.Pass? ==> (MetricRunRepository.FindById(e.db, runId).Some?
            && MetricRunRepository.FindById(e.db, runId).value
               == MetricRunRepository.FindById(db, runId).value.(status := QUEUED)))
      && (e.outcome.Fail? ==> e.db.runs == db.runs)
      && (e.outcome.Pass? ==> publishOk)
  {
    var e := Emission(db, runId, publishOk);
    if e.outcome.Pass? {
      var run := MetricRunRepository.FindById(db, runId).value;
      var patch := MetricRunRepository.StatusPatch(QUEUED);
      var metric := FindMetricById(db, run.metricId).value;
      var linked := EmitRunEffect(db, run, metric, RequiredDatasetIds(db, runId), publishOk).db;
      MetricRunRepository.FirstUpdatedRun(linked.runs, runId, patch);
      MetricRunRepository.UpdateStatusChangesOnlyStatus(run, QUEUED);
    }
  }

  /** The published request names the run, its metric and the output
      location, and its inputs and catalog are those of the tables. */
  lemma EmissionRequest(db: Tables, runId: string, publishOk: bool)
    requires Emission(db, runId, publishOk).outcome.Pass?
    ensures var run := MetricRunRepository.FindById(db, runId).value;
      var metric := FindMetricById(db, run.metricId).value;
      var event := Emission(db, runId, publishOk).published[0];
      var required := RequiredDatasetIds(db, runId);
      && DependencyExtractor.SeriesCodes(metric.expressionJson).Ok?
      && WindowCheck.AllOk(WindowCheck.Nodes(metric.expressionJson))
      && event.runId == runId && event.messageDeduplicationId == Some(runId)
      && event.metricCode == metric.code && event.messageGroupId == Some(metric.code)
      && event.basePath == BasePath(metric.code)
      && event.inputs == RunInputs(db, DependencyExtractor.SeriesCodes(metric.expressionJson).value, required)
      && event.catalog == CatalogOf(LatestUpdates(db, required))
  {
  }

  /** After a successful emission the run is queued, so emitting it again is rejected. */
  lemma SecondEmissionRejected(db: Tables, runId: string, publishOk: bool, publishOkAgain: bool)
    requires Emission(db, runId, publishOk).outcome.Pass?
    ensures var again := Emission(Emission(db, runId, publishOk).db, runId, publishOkAgain);
      again.outcome == Fail(RunNotPending(runId, QUEUED)) && again.published == []
  {
    EmissionOutcome(db, runId, publishOk);
  }
}
