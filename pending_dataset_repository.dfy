/** The `metric_run_pending_datasets` table: one row per (run, required
    dataset), telling whether a fresh enough update of that dataset has been
    received for the run. */
module PendingDatasetRepository {
  import opened Wrappers
  import opened Entities
  import opened Errors
  import opened Store
  import opened Sequences

  // ---------------------------------------------------------------------
  // Row selections

  function OfRun(runId: string): PendingDataset -> bool {
    (p: PendingDataset) => p.runId == runId
  }

  function UnreceivedOfRun(runId: string): PendingDataset -> bool {
    (p: PendingDataset) => p.runId == runId && !p.received
  }

  function UnreceivedOfDataset(datasetId: string): PendingDataset -> bool {
    (p: PendingDataset) => p.datasetId == datasetId && !p.received
  }

  predicate IsKey(p: PendingDataset, runId: string, datasetId: string) {
    p.runId == runId && p.datasetId == datasetId
  }

  function OtherThanKey(runId: string, datasetId: string): PendingDataset -> bool {
    (p: PendingDataset) => !IsKey(p, runId, datasetId)
  }

  // ---------------------------------------------------------------------
  // Queries

  /** `findByRunId`: every row of the run. */
  function FindByRunId(db: Tables, runId: string): (r: seq<PendingDataset>)
    ensures forall p :: p in r <==> p in db.pending && p.runId == runId
  {
    Filter(db.pending, OfRun(runId))
  }

  /** `findByDatasetId`: the rows of the dataset not yet received. */
  function FindByDatasetId(db: Tables, datasetId: string): (r: seq<PendingDataset>)
    ensures forall p :: p in r <==> p in db.pending && p.datasetId == datasetId && !p.received
  {
    Filter(db.pending, UnreceivedOfDataset(datasetId))
  }

  /** `findPendingByRunId`: the rows of the run not yet received. */
  function FindPendingByRunId(db: Tables, runId: string): (r: seq<PendingDataset>)
    ensures forall p :: p in r <==> p in db.pending && p.runId == runId && !p.received
  {
    Filter(db.pending, UnreceivedOfRun(runId))
  }

  /** `countPendingByRunId`: `COUNT(*)` of the rows of the run not yet received. */
  function CountPendingByRunId(db: Tables, runId: string): (n: nat)
    ensures n == |FindPendingByRunId(db, runId)|
    ensures n == 0 <==> forall p :: p in db.pending && p.runId == runId ==> p.received
  {
    CountIsFilterLength(db.pending, UnreceivedOfRun(runId));
    var r := FindPendingByRunId(db, runId);
    assert r != [] ==> r[0] in r;
    Count(db.pending, UnreceivedOfRun(runId))
  }

  /** The first row with the given key, in table order. */
  function FirstWithKey(rows: seq<PendingDataset>, runId: string, datasetId: string): (r: Option<PendingDataset>)
    ensures r.Some? ==> r.value in rows && IsKey(r.value, runId, datasetId)
    ensures r.None? <==> forall p :: p in rows ==> !IsKey(p, runId, datasetId)
  {
    if rows == [] then None
    else if IsKey(rows[0], runId, datasetId) then Some(rows[0])
    else FirstWithKey(rows[1..], runId, datasetId)
  }

  /** `existing.find((p) => p.datasetId === datasetId)`. */
  function FirstOfDataset(rows: seq<PendingDataset>, datasetId: string): Option<PendingDataset> {
    if rows == [] then None
    else if rows[0].datasetId == datasetId then Some(rows[0])
    else FirstOfDataset(rows[1..], datasetId)
  }

  /** Finding the dataset among the run's rows finds the first row of the key. */
  lemma {:induction false} FirstOfRunRows(rows: seq<PendingDataset>, runId: string, datasetId: string)
    ensures FirstOfDataset(Filter(rows, OfRun(runId)), datasetId) == FirstWithKey(rows, runId, datasetId)
  {
    if rows != [] {
      FirstOfRunRows(rows[1..], runId, datasetId);
      if rows[0].runId == runId {
        assert Filter(rows, OfRun(runId)) == [rows[0]] + Filter(rows[1..], OfRun(runId));
      } else {
        assert Filter(rows, OfRun(runId)) == Filter(rows[1..], OfRun(runId));
      }
    }
  }

  // ---------------------------------------------------------------------
  // Partial updates

  /** The properties `update` may set; `None` is an undefined property,
      which leaves its column alone. */
  datatype PendingPatch = PendingPatch(
    requiredDays: Option<int>,
    receivedUpdateId: Option<string>,
    received: Option<bool>,
    receivedAt: Option<int>)
  {
    predicate IsEmpty() {
      requiredDays.None? && receivedUpdateId.None? && received.None? && receivedAt.None?
    }
  }

  /** A row after `SET` of the supplied columns. */
  function Patched(p: PendingDataset, patch: PendingPatch): (q: PendingDataset)
    ensures q.runId == p.runId && q.datasetId == p.datasetId && q.createdAt == p.createdAt
    ensures q.requiredDays == (if patch.requiredDays.Some? then patch.requiredDays.value else p.requiredDays)
    ensures q.receivedUpdateId == (if patch.receivedUpdateId.Some? then patch.receivedUpdateId else p.receivedUpdateId)
    ensures q.received == (if patch.received.Some? then patch.received.value else p.received)
    ensures q.receivedAt == (if patch.receivedAt.Some? then patch.receivedAt else p.receivedAt)
    ensures patch.IsEmpty() ==> q == p
  {
    p.(requiredDays := patch.requiredDays.GetOr(p.requiredDays),
       receivedUpdateId := if patch.receivedUpdateId.Some? then patch.receivedUpdateId else p.receivedUpdateId,
       received := patch.received.GetOr(p.received),
       receivedAt := if patch.receivedAt.Some? then patch.receivedAt else p.receivedAt)
  }

  /** The table after `UPDATE … SET … WHERE run_id = … AND dataset_id = …`. */
  function UpdateRows(rows: seq<PendingDataset>, runId: string, datasetId: string, patch: PendingPatch)
    : (r: seq<PendingDataset>)
    ensures |r| == |rows|
    ensures forall i :: 0 <= i < |rows| ==>
      r[i] == if IsKey(rows[i], runId, datasetId) then Patched(rows[i], patch) else rows[i]
  {
    seq(|rows|, i requires 0 <= i < |rows| =>
      if IsKey(rows[i], runId, datasetId) then Patched(rows[i], patch) else rows[i])
  }

  /** The first row `RETURNING *` yields is the first matching row, patched. */
  lemma {:induction false} FirstUpdatedRow(rows: seq<PendingDataset>, runId: string, datasetId: string, patch: PendingPatch)
    ensures FirstWithKey(UpdateRows(rows, runId, datasetId, patch), runId, datasetId)
      == match FirstWithKey(rows, runId, datasetId)
         case None => None
         case Some(p) => Some(Patched(p, patch))
  {
    if rows != [] {
      assert UpdateRows(rows, runId, datasetId, patch)[1..] == UpdateRows(rows[1..], runId, datasetId, patch);
      FirstUpdatedRow(rows[1..], runId, datasetId, patch);
    }
  }

  /** Updating never changes which run a row belongs to. */
  lemma UpdateRowsKeepsRuns(rows: seq<PendingDataset>, runId: string, datasetId: string, patch: PendingPatch)
    ensures forall q :: q in UpdateRows(rows, runId, datasetId, patch) ==>
      exists p :: p in rows && p.runId == q.runId
  {
    var r := UpdateRows(rows, runId, datasetId, patch);
    forall q | q in r
      ensures exists p :: p in rows && p.runId == q.runId
    {
      var i :| 0 <= i < |r| && r[i] == q;
      assert rows[i] in rows && rows[i].runId == q.runId;
    }
  }

  /** An empty patch leaves the table as it is. */
  lemma EmptyPatchKeepsRows(rows: seq<PendingDataset>, runId: string, datasetId: string, patch: PendingPatch)
    requires patch.IsEmpty()
    ensures UpdateRows(rows, runId, datasetId, patch) == rows
  {
  }

  // ---------------------------------------------------------------------
  // Mutations

  /** `create`: appends the row, stamped with the clock. */
  method Create(st: Store, pending: NewPendingDataset, now: int) returns (created: PendingDataset)
    requires st.Valid() && st.NotFuture(pending.runId)
    modifies st
    ensures created == CreatedPending(pending, now)
    ensures st.db == old(st.db).(pending := old(st.db.pending) + [created])
    ensures st.outbox == old(st.outbox) && st.nextId == old(st.nextId)
    ensures st.Valid()
  {
    created := CreatedPending(pending, now);
    st.db := st.db.(pending := st.db.pending + [created]);
  }

  /** `update`: sets the supplied columns of the rows with the key and
      returns the first of them; with nothing supplied it returns the row as
      it is. Either way a missing key throws. */
  method Update(st: Store, runId: string, datasetId: string, patch: PendingPatch)
    returns (r: Result<PendingDataset, Failure>)
    requires st.Valid()
    modifies st
    ensures st.db == old(st.db).(pending := UpdateRows(old(st.db.pending), runId, datasetId, patch))
    ensures r == match FirstWithKey(old(st.db.pending), runId, datasetId)
                 case None => Err(PendingDatasetNotFound(runId, datasetId))
                 case Some(p) => Ok(Patched(p, patch))
    ensures st.outbox == old(st.outbox) && st.nextId == old(st.nextId)
    ensures st.Valid()
  {
    if patch.IsEmpty() {
      EmptyPatchKeepsRows(st.db.pending, runId, datasetId, patch);
      var existing := FindByRunId(st.db, runId);
      FirstOfRunRows(st.db.pending, runId, datasetId);
      var found := FirstOfDataset(existing, datasetId);
      if found.None? {
        return Err(PendingDatasetNotFound(runId, datasetId));
      }
      return Ok(found.value);
    }
    var before := st.db.pending;
    st.db := st.db.(pending := UpdateRows(st.db.pending, runId, datasetId, patch));
    UpdateRowsKeepsRuns(before, runId, datasetId, patch);
    FirstUpdatedRow(before, runId, datasetId, patch);
    var returned := FirstWithKey(st.db.pending, runId, datasetId);
    if returned.None? {
      return Err(PendingDatasetNotFound(runId, datasetId));
    }
    r := Ok(returned.value);
  }

  /** `delete`: removes every row with the key. */
  method Delete(st: Store, runId: string, datasetId: string)
    requires st.Valid()
    modifies st
    ensures st.db == old(st.db).(pending := Filter(old(st.db.pending), OtherThanKey(runId, datasetId)))
    ensures st.outbox == old(st.outbox) && st.nextId == old(st.nextId)
    ensures st.Valid()
  {
    st.db := st.db.(pending := Filter(st.db.pending, OtherThanKey(runId, datasetId)));
  }

  // ---------------------------------------------------------------------
  // Properties

  /** An update changes only the rows with the key. */
  lemma UpdateTouchesOnlyKey(rows: seq<PendingDataset>, runId: string, datasetId: string, patch: PendingPatch, i: int)
    requires 0 <= i < |rows| && !IsKey(rows[i], runId, datasetId)
    ensures UpdateRows(rows, runId, datasetId, patch)[i] == rows[i]
  {
  }

  /** Deleting keeps exactly the rows of other keys, and deleting again changes nothing. */
  lemma DeleteRemovesOnlyKey(rows: seq<PendingDataset>, runId: string, datasetId: string)
    ensures forall p :: (p in Filter(rows, OtherThanKey(runId, datasetId))
      <==> p in rows && !IsKey(p, runId, datasetId))
    ensures Filter(Filter(rows, OtherThanKey(runId, datasetId)), OtherThanKey(runId, datasetId))
      == Filter(rows, OtherThanKey(runId, datasetId))
  {
    FilterIdempotent(rows, OtherThanKey(runId, datasetId));
  }
}
