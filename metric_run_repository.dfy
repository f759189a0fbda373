/** The `metric_runs` table and the `run_dataset_updates` link set. */
module MetricRunRepository {
  import opened Wrappers
  import opened Entities
  import opened Errors
  import opened Store
  import opened Sequences

  // ---------------------------------------------------------------------
  // Queries

  function RequestedAt(run: MetricRun): int {
    run.requestedAt
  }

  function OfMetric(metricId: string): MetricRun -> bool {
    (r: MetricRun) => r.metricId == metricId
  }

  function WithStatus(status: string): MetricRun -> bool {
    (r: MetricRun) => r.status == status
  }

  /** The first run with the id, in table order. */
  function FirstWithId(runs: seq<MetricRun>, id: string): (r: Option<MetricRun>)
    ensures r.Some? ==> r.value in runs && r.value.id == id
    ensures r.None? <==> forall run :: run in runs ==> run.id != id
  {
    if runs == [] then None
    else if runs[0].id == id then Some(runs[0])
    else FirstWithId(runs[1..], id)
  }

  /** `findById`. */
  function FindById(db: Tables, id: string): (r: Option<MetricRun>)
    ensures r.Some? ==> r.value in db.runs && r.value.id == id
    ensures r.None? <==> forall run :: run in db.runs ==> run.id != id
  {
    FirstWithId(db.runs, id)
  }

  /** `findByMetricId`: the metric's runs, most recently requested first. */
  function FindByMetricId(db: Tables, metricId: string): (r: seq<MetricRun>)
    ensures SortedDesc(r, RequestedAt)
    ensures multiset(r) == multiset(Filter(db.runs, OfMetric(metricId)))
    ensures forall run :: run in r <==> run in db.runs && run.metricId == metricId
  {
    var rows := Filter(db.runs, OfMetric(metricId));
    SortDescSorted(rows, RequestedAt);
    var r := SortDesc(rows, RequestedAt);
    assert forall run :: run in r <==> run in multiset(r);
    r
  }

  /** `findByStatus`: the runs in that status, most recently requested first. */
  function FindByStatus(db: Tables, status: string): (r: seq<MetricRun>)
    ensures SortedDesc(r, RequestedAt)
    ensures multiset(r) == multiset(Filter(db.runs, WithStatus(status)))
    ensures forall run :: run in r <==> run in db.runs && run.status == status
  {
    var rows := Filter(db.runs, WithStatus(status));
    SortDescSorted(rows, RequestedAt);
    var r := SortDesc(rows, RequestedAt);
    assert forall run :: run in r <==> run in multiset(r);
    r
  }

  // ---------------------------------------------------------------------
  // Partial updates

  /** The properties `update` may set; `None` is an undefined property. */
  datatype RunPatch = RunPatch(
    metricId: Option<string>,
    metricCode: Option<string>,
    status: Option<string>,
    startedAt: Option<int>,
    finishedAt: Option<int>,
    lastHeartbeatAt: Option<int>,
    error: Option<string>,
    versionTs: Option<string>,
    manifestPath: Option<string>,
    rowCount: Option<int>)
  {
    predicate IsEmpty() {
      && metricId.None? && metricCode.None? && status.None? && startedAt.None?
      && finishedAt.None? && lastHeartbeatAt.None? && error.None? && versionTs.None?
      && manifestPath.None? && rowCount.None?
    }
  }

  const NO_CHANGES: RunPatch := RunPatch(None, None, None, None, None, None, None, None, None, None)

  /** `{ status }`, the patch `updateStatus` sends. */
  function StatusPatch(status: string): RunPatch {
    NO_CHANGES.(status := Some(status))
  }

  /** `Some` replaces an optional property; `None` keeps it. */
  function Overwrite<T>(supplied: Option<T>, current: Option<T>): Option<T> {
    if supplied.Some? then supplied else current
  }

  /** A run after `SET` of the supplied columns. */
  function Patched(run: MetricRun, patch: RunPatch): (r: MetricRun)
    ensures r.id == run.id && r.requestedAt == run.requestedAt
    ensures r.metricId == patch.metricId.GetOr(run.metricId)
    ensures r.metricCode == patch.metricCode.GetOr(run.metricCode)
    ensures r.status == patch.status.GetOr(run.status)
    ensures r.startedAt == Overwrite(patch.startedAt, run.startedAt)
    ensures r.finishedAt == Overwrite(patch.finishedAt, run.finishedAt)
    ensures r.lastHeartbeatAt == Overwrite(patch.lastHeartbeatAt, run.lastHeartbeatAt)
    ensures r.error == Overwrite(patch.error, run.error)
    ensures r.versionTs == Overwrite(patch.versionTs, run.versionTs)
    ensures r.manifestPath == Overwrite(patch.manifestPath, run.manifestPath)
    ensures r.rowCount == Overwrite(patch.rowCount, run.rowCount)
    ensures patch.IsEmpty() ==> r == run
  {
    MetricRun(run.id, patch.metricId.GetOr(run.metricId), patch.metricCode.GetOr(run.metricCode),
      patch.status.GetOr(run.status), run.requestedAt,
      Overwrite(patch.startedAt, run.startedAt), Overwrite(patch.finishedAt, run.finishedAt),
      Overwrite(patch.lastHeartbeatAt, run.lastHeartbeatAt), Overwrite(patch.error, run.error),
      Overwrite(patch.versionTs, run.versionTs), Overwrite(patch.manifestPath, run.manifestPath),
      Overwrite(patch.rowCount, run.rowCount))
  }

  /** The table after `UPDATE metric_runs SET … WHERE id = …`. */
  function UpdateRuns(runs: seq<MetricRun>, id: string, patch: RunPatch): (r: seq<MetricRun>)
    ensures |r| == |runs|
    ensures forall i :: 0 <= i < |runs| ==>
      r[i] == if runs[i].id == id then Patched(runs[i], patch) else runs[i]
  {
    seq(|runs|, i requires 0 <= i < |runs| =>
      if runs[i].id == id then Patched(runs[i], patch) else runs[i])
  }

  lemma {:induction false} FirstUpdatedRun(runs: seq<MetricRun>, id: string, patch: RunPatch)
    ensures FirstWithId(UpdateRuns(runs, id, patch), id)
      == match FirstWithId(runs, id)
         case None => None
         case Some(run) => Some(Patched(run, patch))
  {
    if runs != [] {
      assert UpdateRuns(runs, id, patch)[1..] == UpdateRuns(runs[1..], id, patch);
      FirstUpdatedRun(runs[1..], id, patch);
    }
  }

  /** Updating never changes a run's id. */
  lemma UpdateRunsKeepsIds(runs: seq<MetricRun>, id: string, patch: RunPatch)
    ensures forall q :: q in UpdateRuns(runs, id, patch) ==> exists run :: run in runs && run.id == q.id
  {
    var r := UpdateRuns(runs, id, patch);
    forall q | q in r
      ensures exists run :: run in runs && run.id == q.id
    {
      var i :| 0 <= i < |r| && r[i] == q;
      assert runs[i] in runs && runs[i].id == q.id;
    }
  }

  /** The outcome of `update`: the first updated run, or the error of the
      branch taken (no fields: not found; some fields: update failed). */
  function UpdateOutcome(runs: seq<MetricRun>, id: string, patch: RunPatch): Result<MetricRun, Failure> {
    match FirstWithId(runs, id)
    case None => Err(if patch.IsEmpty() then MetricRunNotFound(id) else MetricRunUpdateFailed(id))
    case Some(run) => Ok(Patched(run, patch))
  }

  // ---------------------------------------------------------------------
  // Mutations

  /** `create`: appends the run with a generated id and the clock as `requestedAt`. */
  method Create(st: Store, run: NewMetricRun, now: int) returns (created: MetricRun)
    requires st.Valid()
    modifies st
    ensures created == CreatedRun(run, GenId(old(st.nextId)), now)
    ensures Unused(old(st.db), created.id)
    ensures st.db == old(st.db).(runs := old(st.db.runs) + [created])
    ensures st.nextId == old(st.nextId) + 1 && st.outbox == old(st.outbox)
    ensures st.Valid() && st.NotFuture(created.id)
  {
    var id := st.FreshId();
    created := CreatedRun(run, id, now);
    st.db := st.db.(runs := st.db.runs + [created]);
  }

  /** `update`: sets the supplied columns of the run and returns it; with no
      columns it returns the run as stored. A missing run throws. */
  method Update(st: Store, id: string, patch: RunPatch) returns (r: Result<MetricRun, Failure>)
    requires st.Valid()
    modifies st
    ensures st.db == old(st.db).(runs := UpdateRuns(old(st.db.runs), id, patch))
    ensures r == UpdateOutcome(old(st.db.runs), id, patch)
    ensures st.outbox == old(st.outbox) && st.nextId == old(st.nextId)
    ensures st.Valid()
  {
    if patch.IsEmpty() {
      assert UpdateRuns(st.db.runs, id, patch) == st.db.runs;
      var existing := FindById(st.db, id);
      if existing.None? {
        return Err(MetricRunNotFound(id));
      }
      return Ok(existing.value);
    }
    var before := st.db.runs;
    st.db := st.db.(runs := UpdateRuns(st.db.runs, id, patch));
    UpdateRunsKeepsIds(before, id, patch);
    FirstUpdatedRun(before, id, patch);
    var returned := FirstWithId(st.db.runs, id);
    if returned.None? {
      return Err(MetricRunUpdateFailed(id));
    }
    r := Ok(returned.value);
  }

  /** `updateStatus`: `update` with the status alone. */
  method UpdateStatus(st: Store, id: string, status: string) returns (r: Result<MetricRun, Failure>)
    requires st.Valid()
    modifies st
    ensures st.db == old(st.db).(runs := UpdateRuns(old(st.db.runs), id, StatusPatch(status)))
    ensures r == UpdateOutcome(old(st.db.runs), id, StatusPatch(status))
    ensures st.outbox == old(st.outbox) && st.nextId == old(st.nextId)
    ensures st.Valid()
  {
    r := Update(st, id, StatusPatch(status));
  }

  /** The pairs `linkDatasetUpdates` inserts. */
  function Links(runId: string, updateIds: seq<string>): set<(string, string)> {
    set u | u in updateIds :: (runId, u)
  }

  /** `linkDatasetUpdates`: one `INSERT … ON CONFLICT DO NOTHING` per id. */
  method LinkDatasetUpdates(st: Store, runId: string, updateIds: seq<string>)
    requires st.Valid()
    modifies st
    ensures st.db == old(st.db).(runDatasetUpdates := old(st.db.runDatasetUpdates) + Links(runId, updateIds))
    ensures st.outbox == old(st.outbox) && st.nextId == old(st.nextId)
    ensures st.Valid()
  {
    var i := 0;
    while i < |updateIds|
      invariant 0 <= i <= |updateIds|
      invariant st.db == old(st.db).(runDatasetUpdates := old(st.db.runDatasetUpdates) + Links(runId, updateIds[..i]))
      invariant st.outbox == old(st.outbox) && st.nextId == old(st.nextId)
    {
      assert updateIds[..i + 1] == updateIds[..i] + [updateIds[i]];
      assert Links(runId, updateIds[..i + 1]) == Links(runId, updateIds[..i]) + {(runId, updateIds[i])};
      st.db := st.db.(runDatasetUpdates := st.db.runDatasetUpdates + {(runId, updateIds[i])});
      i := i + 1;
    }
    assert updateIds[..i] == updateIds;
  }

  // ---------------------------------------------------------------------
  // Properties

  /** `update` leaves the other runs as they are. */
  lemma UpdateTouchesOnlyId(runs: seq<MetricRun>, id: string, patch: RunPatch, i: int)
    requires 0 <= i < |runs| && runs[i].id != id
    ensures UpdateRuns(runs, id, patch)[i] == runs[i]
  {
  }

  /** `updateStatus` changes the status of the run and nothing else. */
  lemma UpdateStatusChangesOnlyStatus(run: MetricRun, status: string)
    ensures Patched(run, StatusPatch(status)) == run.(status := status)
  {
  }

  /** Linking the same ids again adds nothing. */
  lemma LinkIdempotent(links: set<(string, string)>, runId: string, updateIds: seq<string>)
    ensures links + Links(runId, updateIds) + Links(runId, updateIds) == links + Links(runId, updateIds)
  {
  }
}
