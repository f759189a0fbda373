/** The "dataset updated" use case: record the update, create a run for each
    metric that depends on the dataset, mark the waiting rows it satisfies
    and emit the runs left with nothing to wait for, all in one transaction. */
module ProjectionUpdate {
  import opened Wrappers
  import opened Entities
  import opened Errors
  import opened Store
  import opened MetricStatus
  import DatasetUpdateRepository
  import PendingDatasetRepository
  import DatasetUpdateService
  import DependencyResolver
  import PendingRunService
  import RunOrchestrator

  // ---------------------------------------------------------------------
  // Specification

  /** `persistUpdate` as a value: the tables, the next generated id and the update. */
  datatype Persisted = Persisted(db: Tables, nextId: nat, update: DatasetUpdate)

  function Persist(db: Tables, nextId: nat, event: ProjectionUpdateEvent, now: int): Persisted {
    var existing := DatasetUpdateRepository.FindByEventKey(db, DatasetUpdateService.EventKey(event));
    if existing.Some? then Persisted(db, nextId, existing.value)
    else
      var u := CreatedUpdate(DatasetUpdateService.UpdateOf(event), GenId(nextId), now);
      Persisted(db.(datasetUpdates := db.datasetUpdates + [u]), nextId + 1, u)
  }

  /** The effect of the run-creation loop. */
  datatype Batch = Batch(db: Tables, published: seq<MetricRunRequestEvent>, result: Result<seq<MetricRun>, Failure>)

  /** `b` preceded by runs already created and requests already published. */
  function Prefix(runs: seq<MetricRun>, published: seq<MetricRunRequestEvent>, b: Batch): Batch {
    Batch(b.db, published + b.published,
      match b.result
      case Ok(rest) => Ok(runs + rest)
      case Err(e) => Err(e))
  }

  /** One turn of the creation loop: resolve the metric's datasets, then
      `createRunForMetric` with the `id`-th generated id. */
  function CreateStep(db: Tables, id: nat, metric: Metric, datasetId: string, update: DatasetUpdate,
                      now: int, publishOk: bool): RunOrchestrator.Created
  {
    var required := DependencyResolver.ResolvedDatasets(db, metric.id);
    if required.Err? then RunOrchestrator.Created(db, [], Err(required.error))
    else RunOrchestrator.CreateRunEffect(db, GenId(id), metric, datasetId, update, required.value, now, publishOk)
  }

  /** The creation loop with the turn `step`: the metrics in order, ids drawn
      from `firstId` on, stopping at the first failure. */
  function CreateRunsWith(step: (Tables, nat, Metric) -> RunOrchestrator.Created, db: Tables, firstId: nat,
                          metrics: seq<Metric>): Batch
    decreases |metrics|
  {
    if metrics == [] then Batch(db, [], Ok([]))
    else
      var c := step(db, firstId, metrics[0]);
      if c.result.Err? then Batch(c.db, c.published, Err(c.result.error))
      else Prefix([c.result.value], c.published, CreateRunsWith(step, c.db, firstId + 1, metrics[1..]))
  }

  function StepFor(datasetId: string, update: DatasetUpdate, now: int, publishOk: bool)
    : (Tables, nat, Metric) -> RunOrchestrator.Created
  {
    (db: Tables, id: nat, metric: Metric) => CreateStep(db, id, metric, datasetId, update, now, publishOk)
  }

  /** `step` agrees with `CreateStep` (stated pointwise, so that a proof
      sees a turn's effect only where it asks for it). */
  ghost predicate IsCreateStep(step: (Tables, nat, Metric) -> RunOrchestrator.Created, datasetId: string,
                         update: DatasetUpdate, now: int, publishOk: bool)
  {
    forall db: Tables, id: nat, metric: Metric {:trigger CreateStep(db, id, metric, datasetId, update, now, publishOk)}
      :: step(db, id, metric) == CreateStep(db, id, metric, datasetId, update, now, publishOk)
  }

  /** The run-creation loop of the use case. */
  function CreateRuns(db: Tables, firstId: nat, metrics: seq<Metric>, datasetId: string,
                      update: DatasetUpdate, now: int, publishOk: bool): Batch
  {
    CreateRunsWith(StepFor(datasetId, update, now, publishOk), db, firstId, metrics)
  }

  /** `e` preceded by requests already published. */
  function After(published: seq<MetricRunRequestEvent>, e: RunOrchestrator.Emitted): RunOrchestrator.Emitted {
    RunOrchestrator.Emitted(e.db, published + e.published, e.outcome)
  }

  /** The emission loop: each reported run still waiting for dependencies
      (as it was read) is emitted; the first failure stops the loop. */
  function EmitReady(db: Tables, runs: seq<MetricRun>, publishOk: bool): RunOrchestrator.Emitted
    decreases |runs|
  {
    if runs == [] then RunOrchestrator.Emitted(db, [], Pass)
    else if runs[0].status != PENDING_DEPENDENCIES then EmitReady(db, runs[1..], publishOk)
    else
      var e := RunOrchestrator.Emission(db, runs[0].id, publishOk);
      if e.outcome.Fail? then e
      else After(e.published, EmitReady(e.db, runs[1..], publishOk))
  }

  /** The effect of the use case: the tables, the requests published and the runs returned. */
  datatype Effect = Effect(db: Tables, published: seq<MetricRunRequestEvent>, result: Result<seq<MetricRun>, Failure>)

  /** `processProjectionUpdate`, before commit or rollback. */
  function ProcessUpdate(db: Tables, nextId: nat, event: ProjectionUpdateEvent, now: int, publishOk: bool): Effect {
    var p := Persist(db, nextId, event, now);
    var dependents := DependencyResolver.MetricsForDataset(p.db, event.datasetId);
    if dependents.Err? then Effect(p.db, [], Err(dependents.error))
    else
      var metrics := dependents.value;
      if metrics == [] then Effect(p.db, [], Ok([]))
      else
        var b := CreateRuns(p.db, p.nextId, metrics, event.datasetId, p.update, now, publishOk);
        if b.result.Err? then Effect(b.db, b.published, Err(b.result.error))
        else
          var q := PendingRunService.Process(b.db, PendingDatasetRepository.FindByDatasetId(b.db, event.datasetId),
                                             event.datasetId, p.update.id, p.update.createdAt, now);
          var e := EmitReady(q.db, q.ready, publishOk);
          if e.outcome.Fail? then Effect(e.db, b.published + e.published, Err(e.outcome.error))
          else Effect(e.db, b.published + e.published, Ok(b.result.value + q.ready))
  }

  /** `execute`: the transaction commits the tables on success and restores
      them on failure. What was published stays published. */
  function ExecuteEffect(db: Tables, nextId: nat, event: ProjectionUpdateEvent, now: int, publishOk: bool): Effect {
    var x := ProcessUpdate(db, nextId, event, now, publishOk);
    if x.result.Err? then x.(db := db) else x
  }

  // ---------------------------------------------------------------------
  // Implementation

  /** `execute`: `processProjectionUpdate` inside one transaction. */
  method Execute(st: Store, event: ProjectionUpdateEvent, now: int) returns (r: Result<seq<MetricRun>, Failure>)
    requires st.Valid()
    modifies st
    ensures var x := ExecuteEffect(old(st.db), old(st.nextId), event, now, st.publishSucceeds);
      st.db == x.db && st.outbox == old(st.outbox) + x.published && r == x.result
    ensures st.nextId >= old(st.nextId)
    ensures st.Valid()
  {
    var snapshot := st.db;
    ghost var firstId := st.nextId;
    assert forall k: nat :: k >= firstId ==> Unused(snapshot, GenId(k));
    r := ProcessProjectionUpdate(st, event, now);
    if r.Err? {
      st.db := snapshot;
    }
  }

  /** `processProjectionUpdate`: persist, find the dependents, create their
      runs, mark the waiting rows and emit the runs reported ready. */
  method ProcessProjectionUpdate(st: Store, event: ProjectionUpdateEvent, now: int)
    returns (r: Result<seq<MetricRun>, Failure>)
    requires st.Valid()
    modifies st
    ensures var x := ProcessUpdate(old(st.db), old(st.nextId), event, now, st.publishSucceeds);
      st.db == x.db && st.outbox == old(st.outbox) + x.published && r == x.result
    ensures st.nextId >= old(st.nextId)
    ensures st.Valid()
  {
    ghost var p := Persist(st.db, st.nextId, event, now);
    var update := DatasetUpdateService.PersistUpdate(st, event, now);
    assert st.db == p.db && st.nextId == p.nextId && update == p.update;
    var dependents := DependencyResolver.FindMetricsForDataset(st.db, event.datasetId);
    if dependents.Err? {
      return Err(dependents.error);
    }
    var metrics := dependents.value;
    if metrics == [] {
      return Ok([]);
    }
    ghost var b := CreateRunsWith(StepFor(event.datasetId, update, now, st.publishSucceeds), st.db, st.nextId, metrics);
    var created := CreateRunsForMetrics(st, metrics, event.datasetId, update, now,
                                        StepFor(event.datasetId, update, now, st.publishSucceeds));
    if created.Err? {
      return Err(created.error);
    }
    var ready := PendingRunService.UpdatePendingRunsForDataset(st, event.datasetId, update.id, update.createdAt, now);
    ghost var e := EmitReady(st.db, ready, st.publishSucceeds);
    var emitted := EmitReadyRuns(st, ready);
    AppendAssoc(old(st.outbox), b.published, e.published);
    if emitted.Fail? {
      return Err(emitted.error);
    }
    r := Ok(created.value + ready);
  }

  /** The loop creating one run per dependent metric. */
  method CreateRunsForMetrics(st: Store, metrics: seq<Metric>, datasetId: string, update: DatasetUpdate, now: int,
                              ghost step: (Tables, nat, Metric) -> RunOrchestrator.Created)
    returns (r: Result<seq<MetricRun>, Failure>)
    requires st.Valid() && IsCreateStep(step, datasetId, update, now, st.publishSucceeds)
    modifies st
    ensures var b := CreateRunsWith(step, old(st.db), old(st.nextId), metrics);
      st.db == b.db && st.outbox == old(st.outbox) + b.published && r == b.result
    ensures st.nextId >= old(st.nextId)
    ensures st.Valid()
  {
    ghost var firstId := st.nextId;
    var runs: seq<MetricRun> := [];
    ghost var published: seq<MetricRunRequestEvent> := [];
    var i := 0;
    PrefixNothing(CreateRunsWith(step, st.db, firstId, metrics));
    assert metrics[i..] == metrics;
    while i < |metrics|
      invariant 0 <= i <= |metrics|
      invariant st.nextId == firstId + i
      invariant st.outbox == old(st.outbox) + published
      invariant CreateRunsWith(step, old(st.db), firstId, metrics)
        == Prefix(runs, published, CreateRunsWith(step, st.db, firstId + i, metrics[i..]))
      invariant st.Valid()
    {
      var run: Result<MetricRun, Failure>;
      ghost var c: seq<MetricRunRequestEvent>;
      run, c := CreateOne(st, metrics, i, datasetId, update, now, step);
      AppendAssoc(old(st.outbox), published, c);
      if run.Err? {
        return Err(run.error);
      }
      PrefixPrefix(runs, published, [run.value], c, CreateRunsWith(step, st.db, firstId + i + 1, metrics[i + 1..]));
      runs := runs + [run.value];
      published := published + c;
      i := i + 1;
    }
    PrefixDone(runs, published, st.db);
    r := Ok(runs);
  }

  /** One turn of the creation loop, as a step of the loop's specification. */
  method CreateOne(st: Store, metrics: seq<Metric>, i: int, datasetId: string, update: DatasetUpdate, now: int,
                   ghost step: (Tables, nat, Metric) -> RunOrchestrator.Created)
    returns (r: Result<MetricRun, Failure>, ghost c: seq<MetricRunRequestEvent>)
    requires st.Valid() && 0 <= i < |metrics| && IsCreateStep(step, datasetId, update, now, st.publishSucceeds)
    modifies st
    ensures st.outbox == old(st.outbox) + c
    ensures CreateRunsWith(step, old(st.db), old(st.nextId), metrics[i..])
      == if r.Err? then Batch(st.db, c, Err(r.error))
         else Prefix([r.value], c, CreateRunsWith(step, st.db, st.nextId, metrics[i + 1..]))
    ensures r.Ok? ==> st.nextId == old(st.nextId) + 1
    ensures st.nextId >= old(st.nextId)
    ensures st.Valid()
  {
    CreateRunsStep(step, st.db, st.nextId, metrics, i);
    c := CreateStep(st.db, st.nextId, metrics[i], datasetId, update, now, st.publishSucceeds).published;
    r := CreateForMetric(st, metrics[i], datasetId, update, now);
  }

  /** The body of the creation loop: resolve the metric's datasets, then
      `createRunForMetric`. */
  method CreateForMetric(st: Store, metric: Metric, datasetId: string, update: DatasetUpdate, now: int)
    returns (r: Result<MetricRun, Failure>)
    requires st.Valid()
    modifies st
    ensures var t := CreateStep(old(st.db), old(st.nextId), metric, datasetId, update, now, st.publishSucceeds);
      st.db == t.db && st.outbox == old(st.outbox) + t.published && r == t.result
    ensures r.Ok? ==> st.nextId == old(st.nextId) + 1
    ensures st.nextId >= old(st.nextId)
    ensures st.Valid()
  {
    var required := DependencyResolver.ResolvedDatasets(st.db, metric.id);
    if required.Err? {
      assert st.outbox + [] == st.outbox;
      return Err(required.error);
    }
    r := RunOrchestrator.CreateRunForMetric(st, metric, datasetId, update, required.value, now);
  }

  /** The loop emitting the reported runs. */
  method EmitReadyRuns(st: Store, runs: seq<MetricRun>) returns (r: Outcome<Failure>)
    requires st.Valid()
    modifies st
    ensures var e := EmitReady(old(st.db), runs, st.publishSucceeds);
      st.db == e.db && st.outbox == old(st.outbox) + e.published && r == e.outcome
    ensures st.nextId == old(st.nextId)
    ensures st.Valid()
  {
    ghost var published: seq<MetricRunRequestEvent> := [];
    var i := 0;
    AfterNothing(EmitReady(st.db, runs, st.publishSucceeds));
    assert runs[i..] == runs;
    while i < |runs|
      invariant 0 <= i <= |runs|
      invariant st.nextId == old(st.nextId)
      invariant st.outbox == old(st.outbox) + published
      invariant EmitReady(old(st.db), runs, st.publishSucceeds)
        == After(published, EmitReady(st.db, runs[i..], st.publishSucceeds))
      invariant st.Valid()
    {
      ghost var c: seq<MetricRunRequestEvent>;
      r, c := EmitOne(st, runs, i);
      if r.Fail? {
        return;
      }
      AfterAfter(published, c, EmitReady(st.db, runs[i + 1..], st.publishSucceeds));
      published := published + c;
      i := i + 1;
    }
    assert runs[i..] == [] && published + [] == published;
    r := Pass;
  }

  /** One step of the emission loop. */
  method EmitOne(st: Store, runs: seq<MetricRun>, i: int) returns (r: Outcome<Failure>, ghost c: seq<MetricRunRequestEvent>)
    requires st.Valid() && 0 <= i < |runs|
    modifies st
    ensures st.outbox == old(st.outbox) + c
    ensures EmitReady(old(st.db), runs[i..], st.publishSucceeds)
      == if r.Fail? then RunOrchestrator.Emitted(st.db, c, r)
         else After(c, EmitReady(st.db, runs[i + 1..], st.publishSucceeds))
    ensures st.nextId == old(st.nextId)
    ensures st.Valid()
  {
    EmitReadyStep(st.db, runs, i, st.publishSucceeds);
    if runs[i].status != PENDING_DEPENDENCIES {
      AfterNothing(EmitReady(st.db, runs[i + 1..], st.publishSucceeds));
      return Pass, [];
    }
    c := RunOrchestrator.Emission(st.db, runs[i].id, st.publishSucceeds).published;
    r := RunOrchestrator.EmitPendingRun(st, runs[i].id);
  }

  // ---------------------------------------------------------------------
  // Loop lemmas

  lemma PrefixNothing(b: Batch)
    ensures Prefix([], [], b) == b
  {
    if b.result.Ok? {
      assert [] + b.result.value == b.result.value;
    }
  }

  lemma PrefixPrefix(runs: seq<MetricRun>, published: seq<MetricRunRequestEvent>,
                     more: seq<MetricRun>, morePublished: seq<MetricRunRequestEvent>, b: Batch)
    ensures Prefix(runs, published, Prefix(more, morePublished, b)) == Prefix(runs + more, published + morePublished, b)
  {
    assert published + (morePublished + b.published) == (published + morePublished) + b.published;
    if b.result.Ok? {
      assert runs + (more + b.result.value) == (runs + more) + b.result.value;
    }
  }

  lemma CreateRunsStep(step: (Tables, nat, Metric) -> RunOrchestrator.Created, db: Tables, id: nat,
                       metrics: seq<Metric>, i: int)
    requires 0 <= i < |metrics|
    ensures var c := step(db, id, metrics[i]);
      CreateRunsWith(step, db, id, metrics[i..])
      == if c.result.Err? then Batch(c.db, c.published, Err(c.result.error))
         else Prefix([c.result.value], c.published, CreateRunsWith(step, c.db, id + 1, metrics[i + 1..]))
  {
    assert metrics[i..][0] == metrics[i] && metrics[i..][1..] == metrics[i + 1..];
  }

  lemma PrefixDone(runs: seq<MetricRun>, published: seq<MetricRunRequestEvent>, db: Tables)
    ensures Prefix(runs, published, Batch(db, [], Ok([]))) == Batch(db, published, Ok(runs))
  {
    assert runs + [] == runs && published + [] == published;
  }

  /** A proof step only: stated apart so that the methods above do not have to
      find it among their many facts. */
  lemma AppendAssoc<T>(a: seq<T>, b: seq<T>, c: seq<T>)
    ensures (a + b) + c == a + (b + c)
  {
  }

  lemma AfterNothing(e: RunOrchestrator.Emitted)
    ensures After([], e) == e
  {
    assert [] + e.published == e.published;
  }

  lemma AfterAfter(a: seq<MetricRunRequestEvent>, b: seq<MetricRunRequestEvent>, e: RunOrchestrator.Emitted)
    ensures After(a, After(b, e)) == After(a + b, e)
  {
    assert a + (b + e.published) == (a + b) + e.published;
  }

  lemma EmitReadyStep(db: Tables, runs: seq<MetricRun>, i: int, publishOk: bool)
    requires 0 <= i < |runs|
    ensures runs[i].status != PENDING_DEPENDENCIES ==>
      EmitReady(db, runs[i..], publishOk) == EmitReady(db, runs[i + 1..], publishOk)
    ensures runs[i].status == PENDING_DEPENDENCIES ==>
      var e := RunOrchestrator.Emission(db, runs[i].id, publishOk);
      EmitReady(db, runs[i..], publishOk)
        == if e.outcome.Fail? then e else After(e.published, EmitReady(e.db, runs[i + 1..], publishOk))
  {
    assert runs[i..][0] == runs[i] && runs[i..][1..] == runs[i + 1..];
  }
}
