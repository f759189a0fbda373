/** Marking a run's wait on a dataset as satisfied when a fresh enough
    update arrives, and reporting the runs left with nothing to wait for. */
module PendingRunService {
  import opened Wrappers
  import opened Entities
  import opened Store
  import opened TimeWindow
  import opened PendingDatasetRepository
  import MetricRunRepository

  /** `isRunReady`: no row of the run is still waiting. */
  predicate IsRunReady(db: Tables, runId: string)
    ensures IsRunReady(db, runId) <==> forall p :: p in db.pending && p.runId == runId ==> p.received
  {
    CountPendingByRunId(db, runId) == 0
  }

  /** What `markPendingDatasetAsReceived` writes. */
  function ReceivedPatch(updateId: string, now: int): PendingPatch {
    PendingPatch(None, Some(updateId), Some(true), Some(now))
  }

  /** The tables after marking the (run, dataset) rows as received. */
  function Marked(db: Tables, runId: string, datasetId: string, updateId: string, now: int): Tables {
    db.(pending := UpdateRows(db.pending, runId, datasetId, ReceivedPatch(updateId, now)))
  }

  /** The run, when it is ready and exists. */
  function ReadyRun(db: Tables, runId: string): seq<MetricRun> {
    if !IsRunReady(db, runId) then []
    else match MetricRunRepository.FindById(db, runId)
      case None => []
      case Some(run) => [run]
  }

  datatype Progress = Progress(db: Tables, ready: seq<MetricRun>)

  /** `updatePendingRunsForDataset` over the rows it read at the start. */
  function Process(db: Tables, rows: seq<PendingDataset>, datasetId: string, updateId: string,
                   updateCreatedAt: int, now: int): Progress
    decreases |rows|
  {
    if rows == [] then Progress(db, [])
    else if !IsUpdateValid(updateCreatedAt, rows[0].requiredDays, now) then
      Process(db, rows[1..], datasetId, updateId, updateCreatedAt, now)
    else
      var marked := Marked(db, rows[0].runId, datasetId, updateId, now);
      var rest := Process(marked, rows[1..], datasetId, updateId, updateCreatedAt, now);
      Progress(rest.db, ReadyRun(marked, rows[0].runId) + rest.ready)
  }

  function Combine(ready: seq<MetricRun>, rest: Progress): Progress {
    Progress(rest.db, ready + rest.ready)
  }

  /** Every row of `rows` has its key in `pending`. */
  predicate KeysPresent(pending: seq<PendingDataset>, rows: seq<PendingDataset>, datasetId: string) {
    forall j :: 0 <= j < |rows| ==> FirstWithKey(pending, rows[j].runId, datasetId).Some?
  }

  /** `updatePendingRunsForDataset`: reads the dataset's waiting rows once,
      then for each row whose window admits the update marks it received and
      collects its run when nothing else is waiting. */
  method UpdatePendingRunsForDataset(st: Store, datasetId: string, updateId: string,
                                     updateCreatedAt: int, now: int)
    returns (ready: seq<MetricRun>)
    requires st.Valid()
    modifies st
    ensures Progress(st.db, ready)
      == Process(old(st.db), FindByDatasetId(old(st.db), datasetId), datasetId, updateId, updateCreatedAt, now)
    ensures st.outbox == old(st.outbox) && st.nextId == old(st.nextId)
    ensures st.Valid()
  {
    var rows := FindByDatasetId(st.db, datasetId);
    ready := [];
    var i := 0;
    assert rows[i..] == rows;
    CombineNothing(Process(st.db, rows, datasetId, updateId, updateCreatedAt, now));
    forall j | 0 <= j < |rows|
      ensures FirstWithKey(st.db.pending, rows[j].runId, datasetId).Some?
    {
      assert rows[j] in rows;
    }
    while i < |rows|
      invariant 0 <= i <= |rows|
      invariant Process(old(st.db), rows, datasetId, updateId, updateCreatedAt, now)
        == Combine(ready, Process(st.db, rows[i..], datasetId, updateId, updateCreatedAt, now))
      invariant KeysPresent(st.db.pending, rows[i..], datasetId)
      invariant st.outbox == old(st.outbox) && st.nextId == old(st.nextId)
      invariant st.Valid()
    {
      ProcessStep(st.db, rows, i, datasetId, updateId, updateCreatedAt, now);
      KeysPresentTail(st.db.pending, rows, i, datasetId);
      var pending := rows[i];
      if !IsUpdateValid(updateCreatedAt, pending.requiredDays, now) {
        i := i + 1;
        continue;
      }
      ghost var before := st.db;
      var marked := Update(st, pending.runId, datasetId, ReceivedPatch(updateId, now));
      if marked.Err? {
        assert false;
      }
      MarkingKeepsKeys(before.pending, rows[i + 1..], pending.runId, datasetId, ReceivedPatch(updateId, now));
      var here: seq<MetricRun> := [];
      if IsRunReady(st.db, pending.runId) {
        var run := MetricRunRepository.FindById(st.db, pending.runId);
        if run.Some? {
          here := [run.value];
        }
      }
      CombineCombine(ready, here, Process(st.db, rows[i + 1..], datasetId, updateId, updateCreatedAt, now));
      ready := ready + here;
      i := i + 1;
    }
    assert rows[i..] == [] && ready + [] == ready;
  }

  lemma KeysPresentTail(pending: seq<PendingDataset>, rows: seq<PendingDataset>, i: int, datasetId: string)
    requires 0 <= i < |rows| && KeysPresent(pending, rows[i..], datasetId)
    ensures FirstWithKey(pending, rows[i].runId, datasetId).Some?
    ensures KeysPresent(pending, rows[i + 1..], datasetId)
  {
    var tail := rows[i + 1..];
    assert rows[i..][0] == rows[i];
    forall j | 0 <= j < |tail|
      ensures FirstWithKey(pending, tail[j].runId, datasetId).Some?
    {
      assert tail[j] == rows[i..][j + 1];
    }
  }

  lemma CombineNothing(p: Progress)
    ensures Combine([], p) == p
  {
    assert [] + p.ready == p.ready;
  }

  lemma CombineCombine(a: seq<MetricRun>, b: seq<MetricRun>, p: Progress)
    ensures Combine(a, Combine(b, p)) == Combine(a + b, p)
  {
    assert a + (b + p.ready) == (a + b) + p.ready;
  }

  /** One step of the processing from position `i`. */
  lemma ProcessStep(db: Tables, rows: seq<PendingDataset>, i: int, datasetId: string, updateId: string,
                    updateCreatedAt: int, now: int)
    requires 0 <= i < |rows|
    ensures !IsUpdateValid(updateCreatedAt, rows[i].requiredDays, now) ==>
      Process(db, rows[i..], datasetId, updateId, updateCreatedAt, now)
      == Process(db, rows[i + 1..], datasetId, updateId, updateCreatedAt, now)
    ensures IsUpdateValid(updateCreatedAt, rows[i].requiredDays, now) ==>
      Process(db, rows[i..], datasetId, updateId, updateCreatedAt, now)
      == Combine(ReadyRun(Marked(db, rows[i].runId, datasetId, updateId, now), rows[i].runId),
           Process(Marked(db, rows[i].runId, datasetId, updateId, now), rows[i + 1..],
             datasetId, updateId, updateCreatedAt, now))
  {
    assert rows[i..][0] == rows[i] && rows[i..][1..] == rows[i + 1..];
  }

  // ---------------------------------------------------------------------
  // Properties

  /** Marking keeps the key of every row, so rows read at the start can
      still be updated. */
  lemma MarkingKeepsKeys(pending: seq<PendingDataset>, rows: seq<PendingDataset>, runId: string,
                         datasetId: string, patch: PendingPatch)
    requires KeysPresent(pending, rows, datasetId)
    ensures KeysPresent(UpdateRows(pending, runId, datasetId, patch), rows, datasetId)
  {
    var after := UpdateRows(pending, runId, datasetId, patch);
    forall j | 0 <= j < |rows|
      ensures FirstWithKey(after, rows[j].runId, datasetId).Some?
    {
      var p := FirstWithKey(pending, rows[j].runId, datasetId).value;
      var k :| 0 <= k < |pending| && pending[k] == p;
      assert IsKey(after[k], rows[j].runId, datasetId);
      assert after[k] in after;
    }
  }

  /** Marking only ever receives rows: a received row stays received, and a
      ready run stays ready. */
  lemma MarkingKeepsReady(db: Tables, runId: string, datasetId: string, updateId: string, now: int, other: string)
    requires IsRunReady(db, other)
    ensures IsRunReady(Marked(db, runId, datasetId, updateId, now), other)
  {
    var after := Marked(db, runId, datasetId, updateId, now).pending;
    forall q | q in after && q.runId == other
      ensures q.received
    {
      var k :| 0 <= k < |after| && after[k] == q;
      assert db.pending[k] in db.pending;
    }
  }

  /** Processing changes only the waiting rows of the dataset, and only
      their reception columns; the runs and every other table stay. */
  lemma {:induction false} ProcessTouchesOnlyDataset(db: Tables, rows: seq<PendingDataset>, datasetId: string,
                                                     updateId: string, updateCreatedAt: int, now: int)
    ensures var out := Process(db, rows, datasetId, updateId, updateCreatedAt, now).db;
      && out == db.(pending := out.pending)
      && |out.pending| == |db.pending|
      && forall k :: 0 <= k < |db.pending| ==>
           && out.pending[k].runId == db.pending[k].runId
           && out.pending[k].datasetId == db.pending[k].datasetId
           && out.pending[k].requiredDays == db.pending[k].requiredDays
           && (db.pending[k].datasetId != datasetId ==> out.pending[k] == db.pending[k])
    decreases |rows|
  {
    if rows != [] {
      if IsUpdateValid(updateCreatedAt, rows[0].requiredDays, now) {
        ProcessTouchesOnlyDataset(Marked(db, rows[0].runId, datasetId, updateId, now), rows[1..],
          datasetId, updateId, updateCreatedAt, now);
      } else {
        ProcessTouchesOnlyDataset(db, rows[1..], datasetId, updateId, updateCreatedAt, now);
      }
    }
  }

  /** Every run reported is ready once processing ends, and is a stored run. */
  lemma {:induction false} ReportedRunsAreReady(db: Tables, rows: seq<PendingDataset>, datasetId: string,
                                                updateId: string, updateCreatedAt: int, now: int)
    ensures var out := Process(db, rows, datasetId, updateId, updateCreatedAt, now);
      forall run :: run in out.ready ==> run in out.db.runs && IsRunReady(out.db, run.id)
    decreases |rows|
  {
    if rows != [] {
      if IsUpdateValid(updateCreatedAt, rows[0].requiredDays, now) {
        var marked := Marked(db, rows[0].runId, datasetId, updateId, now);
        ReportedRunsAreReady(marked, rows[1..], datasetId, updateId, updateCreatedAt, now);
        if IsRunReady(marked, rows[0].runId) {
          ReadyThroughProcess(marked, rows[1..], datasetId, updateId, updateCreatedAt, now, rows[0].runId);
        }
        ProcessTouchesOnlyDataset(marked, rows[1..], datasetId, updateId, updateCreatedAt, now);
      } else {
        ReportedRunsAreReady(db, rows[1..], datasetId, updateId, updateCreatedAt, now);
        assert Process(db, rows, datasetId, updateId, updateCreatedAt, now)
          == Process(db, rows[1..], datasetId, updateId, updateCreatedAt, now);
      }
    }
  }

  /** A run that is ready stays ready through the rest of the processing. */
  lemma {:induction false} ReadyThroughProcess(db: Tables, rows: seq<PendingDataset>, datasetId: string,
                                               updateId: string, updateCreatedAt: int, now: int, runId: string)
    requires IsRunReady(db, runId)
    ensures IsRunReady(Process(db, rows, datasetId, updateId, updateCreatedAt, now).db, runId)
    decreases |rows|
  {
    if rows != [] {
      if IsUpdateValid(updateCreatedAt, rows[0].requiredDays, now) {
        MarkingKeepsReady(db, rows[0].runId, datasetId, updateId, now, runId);
        ReadyThroughProcess(Marked(db, rows[0].runId, datasetId, updateId, now), rows[1..],
          datasetId, updateId, updateCreatedAt, now, runId);
      } else {
        ReadyThroughProcess(db, rows[1..], datasetId, updateId, updateCreatedAt, now, runId);
      }
    }
  }

  /** Every row read whose window admits the update ends up received, with
      the update's id. */
  lemma {:induction false} AdmittedRowsReceived(db: Tables, rows: seq<PendingDataset>, datasetId: string,
                                                updateId: string, updateCreatedAt: int, now: int)
    ensures var out := Process(db, rows, datasetId, updateId, updateCreatedAt, now).db;
      forall j, k :: 0 <= j < |rows| && 0 <= k < |out.pending|
        && IsUpdateValid(updateCreatedAt, rows[j].requiredDays, now)
        && IsKey(out.pending[k], rows[j].runId, datasetId)
        ==> out.pending[k].received && out.pending[k].receivedUpdateId == Some(updateId)
    decreases |rows|
  {
    if rows != [] {
      var rest := rows[1..];
      if IsUpdateValid(updateCreatedAt, rows[0].requiredDays, now) {
        var marked := Marked(db, rows[0].runId, datasetId, updateId, now);
        AdmittedRowsReceived(marked, rest, datasetId, updateId, updateCreatedAt, now);
        MarksStay(marked, rest, datasetId, updateId, updateCreatedAt, now);
        ProcessTouchesOnlyDataset(marked, rest, datasetId, updateId, updateCreatedAt, now);
        var out := Process(db, rows, datasetId, updateId, updateCreatedAt, now).db;
        assert out == Process(marked, rest, datasetId, updateId, updateCreatedAt, now).db;
        forall j, k | 0 <= j < |rows| && 0 <= k < |out.pending|
          && IsUpdateValid(updateCreatedAt, rows[j].requiredDays, now)
          && IsKey(out.pending[k], rows[j].runId, datasetId)
          ensures out.pending[k].received && out.pending[k].receivedUpdateId == Some(updateId)
        {
          if j > 0 {
            assert rest[j - 1] == rows[j];
          } else {
            assert IsKey(marked.pending[k], rows[0].runId, datasetId);
          }
        }
      } else {
        AdmittedRowsReceived(db, rest, datasetId, updateId, updateCreatedAt, now);
        var out := Process(db, rows, datasetId, updateId, updateCreatedAt, now).db;
        assert out == Process(db, rest, datasetId, updateId, updateCreatedAt, now).db;
        forall j, k | 0 <= j < |rows| && 0 <= k < |out.pending|
          && IsUpdateValid(updateCreatedAt, rows[j].requiredDays, now)
          && IsKey(out.pending[k], rows[j].runId, datasetId)
          ensures out.pending[k].received && out.pending[k].receivedUpdateId == Some(updateId)
        {
          assert j > 0;
          assert rest[j - 1] == rows[j];
        }
      }
    }
  }

  /** A row received with the update keeps that mark through the rest of the processing. */
  lemma {:induction false} MarksStay(db: Tables, rows: seq<PendingDataset>, datasetId: string,
                                     updateId: string, updateCreatedAt: int, now: int)
    ensures var out := Process(db, rows, datasetId, updateId, updateCreatedAt, now).db;
      && |out.pending| == |db.pending|
      && forall k :: 0 <= k < |db.pending| && db.pending[k].received && db.pending[k].receivedUpdateId == Some(updateId)
           ==> out.pending[k].received && out.pending[k].receivedUpdateId == Some(updateId)
    decreases |rows|
  {
    if rows != [] {
      if IsUpdateValid(updateCreatedAt, rows[0].requiredDays, now) {
        MarksStay(Marked(db, rows[0].runId, datasetId, updateId, now), rows[1..],
          datasetId, updateId, updateCreatedAt, now);
      } else {
        MarksStay(db, rows[1..], datasetId, updateId, updateCreatedAt, now);
      }
    }
  }

  /** When the window admits none of the rows, nothing changes and no run is reported. */
  lemma {:induction false} NothingAdmittedNoChange(db: Tables, rows: seq<PendingDataset>, datasetId: string,
                                                   updateId: string, updateCreatedAt: int, now: int)
    requires forall j :: 0 <= j < |rows| ==> !IsUpdateValid(updateCreatedAt, rows[j].requiredDays, now)
    ensures Process(db, rows, datasetId, updateId, updateCreatedAt, now) == Progress(db, [])
    decreases |rows|
  {
    if rows != [] {
      NothingAdmittedNoChange(db, rows[1..], datasetId, updateId, updateCreatedAt, now);
    }
  }

  /** Marking another run's rows leaves a run's readiness as it was. */
  lemma MarkingOtherKeepsReadiness(db: Tables, other: string, datasetId: string, updateId: string, now: int,
                                   runId: string)
    requires other != runId
    ensures IsRunReady(Marked(db, other, datasetId, updateId, now), runId) <==> IsRunReady(db, runId)
  {
    var after := Marked(db, other, datasetId, updateId, now).pending;
    assert forall k :: 0 <= k < |db.pending| && db.pending[k].runId == runId ==> after[k] == db.pending[k];
    if IsRunReady(db, runId) {
      MarkingKeepsReady(db, other, datasetId, updateId, now, runId);
    } else {
      var p :| p in db.pending && p.runId == runId && !p.received;
      var k :| 0 <= k < |db.pending| && db.pending[k] == p;
      assert after[k] in after;
    }
  }

  /** Processing rows none of which admits the update for `runId` leaves the
      run's readiness as it was. */
  lemma {:induction false} OtherRowsKeepReadiness(db: Tables, rows: seq<PendingDataset>, datasetId: string,
                                                  updateId: string, updateCreatedAt: int, now: int, runId: string)
    requires forall j :: 0 <= j < |rows| && IsUpdateValid(updateCreatedAt, rows[j].requiredDays, now) ==>
      rows[j].runId != runId
    ensures IsRunReady(Process(db, rows, datasetId, updateId, updateCreatedAt, now).db, runId)
      <==> IsRunReady(db, runId)
    decreases |rows|
  {
    if rows != [] {
      assert forall j :: 0 <= j < |rows| - 1 ==> rows[1..][j] == rows[j + 1];
      if IsUpdateValid(updateCreatedAt, rows[0].requiredDays, now) {
        MarkingOtherKeepsReadiness(db, rows[0].runId, datasetId, updateId, now, runId);
        OtherRowsKeepReadiness(Marked(db, rows[0].runId, datasetId, updateId, now), rows[1..],
          datasetId, updateId, updateCreatedAt, now, runId);
      } else {
        OtherRowsKeepReadiness(db, rows[1..], datasetId, updateId, updateCreatedAt, now, runId);
      }
    }
  }

  /** The converse of `ReportedRunsAreReady`: a stored run one of whose rows
      admitted the update, and which is ready once processing ends, is
      reported. */
  lemma {:induction false} ReadyRunsReported(db: Tables, rows: seq<PendingDataset>, datasetId: string,
                                             updateId: string, updateCreatedAt: int, now: int, runId: string)
    requires exists j :: (0 <= j < |rows| && rows[j].runId == runId
                          && IsUpdateValid(updateCreatedAt, rows[j].requiredDays, now))
    requires MetricRunRepository.FindById(db, runId).Some?
    requires IsRunReady(Process(db, rows, datasetId, updateId, updateCreatedAt, now).db, runId)
    ensures MetricRunRepository.FindById(db, runId).value in Process(db, rows, datasetId, updateId, updateCreatedAt, now).ready
    decreases |rows|
  {
    var rest := rows[1..];
    assert forall j :: 0 <= j < |rows| - 1 ==> rest[j] == rows[j + 1];
    var admitsLater := exists j :: (0 <= j < |rest| && rest[j].runId == runId
                                    && IsUpdateValid(updateCreatedAt, rest[j].requiredDays, now));
    if IsUpdateValid(updateCreatedAt, rows[0].requiredDays, now) {
      var marked := Marked(db, rows[0].runId, datasetId, updateId, now);
      assert MetricRunRepository.FindById(marked, runId) == MetricRunRepository.FindById(db, runId);
      if admitsLater {
        ReadyRunsReported(marked, rest, datasetId, updateId, updateCreatedAt, now, runId);
      } else {
        OtherRowsKeepReadiness(marked, rest, datasetId, updateId, updateCreatedAt, now, runId);
        assert rows[0].runId == runId;
      }
    } else {
      assert admitsLater;
      ReadyRunsReported(db, rest, datasetId, updateId, updateCreatedAt, now, runId);
    }
  }
}
