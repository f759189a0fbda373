/** The `event_log` table: a record of processed events, keyed by `event_key`. */
module EventLogRepository {
  import opened Wrappers
  import opened Json
  import opened Entities
  import opened Errors
  import opened Store

  /** `JSON.parse` on a string; `None` is the `SyntaxError` it throws. */
  type Decoder = string -> Option<Json>

  /** An `EventLog` without `createdAt`, which the database assigns. */
  datatype NewEventLog = NewEventLog(
    eventKey: string,
    eventType: string,
    eventPayload: Json,
    processedAt: Option<int>,
    runId: Option<string>)

  /** `mapToDomain`: NULL columns become absent properties, and a payload the
      driver returns as a string is parsed once more. */
  function MapToDomain(row: EventLogRow, decode: Decoder): (r: Result<EventLog, Failure>)
    ensures row.event_payload.JStr? ==> (r.Ok? <==> decode(row.event_payload.s).Some?)
    ensures row.event_payload.JStr? && r.Ok? ==> r.value.eventPayload == decode(row.event_payload.s).value
    ensures !row.event_payload.JStr? ==> r.Ok? && r.value.eventPayload == row.event_payload
    ensures r.Err? ==> r.error == PayloadSyntaxError
    ensures r.Ok? ==> (r.value.eventKey == row.event_key && r.value.eventType == row.event_type
      && r.value.createdAt == row.created_at)
    ensures r.Ok? ==> ((r.value.processedAt.None? <==> row.processed_at.Null?)
      && (r.value.runId.None? <==> row.run_id.Null?))
    ensures r.Ok? && row.processed_at.NonNull? ==> r.value.processedAt.value == row.processed_at.value
    ensures r.Ok? && row.run_id.NonNull? ==> r.value.runId.value == row.run_id.value
  {
    var payload :=
      if row.event_payload.JStr? then decode(row.event_payload.s) else Some(row.event_payload);
    if payload.None? then Err(PayloadSyntaxError)
    else Ok(EventLog(row.event_key, row.event_type, payload.value,
      OrUndefined(row.processed_at), OrUndefined(row.run_id), row.created_at))
  }

  function FirstWithKey(rows: seq<EventLogRow>, eventKey: string): (r: Option<EventLogRow>)
    ensures r.Some? ==> r.value in rows && r.value.event_key == eventKey
    ensures r.None? <==> forall row :: row in rows ==> row.event_key != eventKey
  {
    if rows == [] then None
    else if rows[0].event_key == eventKey then Some(rows[0])
    else FirstWithKey(rows[1..], eventKey)
  }

  /** `findByEventKey`: the mapped row with the key, or null. */
  function FindByEventKey(db: Tables, eventKey: string, decode: Decoder): Result<Option<EventLog>, Failure> {
    match FirstWithKey(db.eventLog, eventKey)
    case None => Ok(None)
    case Some(row) =>
      var e :- MapToDomain(row, decode);
      Ok(Some(e))
  }

  /** The row the insert stores: JSONB keeps the payload value, absent
      optional properties become NULL and `created_at` is the clock. */
  function InsertedRow(event: NewEventLog, now: int): EventLogRow {
    EventLogRow(event.eventKey, event.eventType, event.eventPayload,
      OrNull(event.processedAt), OrNull(event.runId), now)
  }

  function CountWithKey(rows: seq<EventLogRow>, eventKey: string): nat {
    if rows == [] then 0
    else (if rows[0].event_key == eventKey then 1 else 0) + CountWithKey(rows[1..], eventKey)
  }

  /** `create`: inserts when the key is new; otherwise the insert does
      nothing and the stored event is returned. */
  method Create(st: Store, event: NewEventLog, now: int, decode: Decoder) returns (r: Result<EventLog, Failure>)
    requires st.Valid()
    modifies st
    ensures FirstWithKey(old(st.db.eventLog), event.eventKey).Some? ==>
      && st.db == old(st.db)
      && r == MapToDomain(FirstWithKey(old(st.db.eventLog), event.eventKey).value, decode)
    ensures FirstWithKey(old(st.db.eventLog), event.eventKey).None? ==>
      && st.db == old(st.db).(eventLog := old(st.db.eventLog) + [InsertedRow(event, now)])
      && r == MapToDomain(InsertedRow(event, now), decode)
    ensures CountWithKey(st.db.eventLog, event.eventKey) == 1
    ensures st.outbox == old(st.outbox) && st.nextId == old(st.nextId)
    ensures st.Valid()
  {
    var conflict := FirstWithKey(st.db.eventLog, event.eventKey);
    if conflict.Some? {
      UniqueKeyCount(st.db.eventLog, event.eventKey);
      var existing := FindByEventKey(st.db, event.eventKey, decode);
      if existing.Err? {
        return Err(existing.error);
      }
      // The conflicting row is there, so the lookup finds it.
      r := Ok(existing.value.value);
      return;
    }
    var row := InsertedRow(event, now);
    var before := st.db.eventLog;
    st.db := st.db.(eventLog := st.db.eventLog + [row]);
    AbsentKeyCount(before, event.eventKey);
    CountAppend(before, row, event.eventKey);
    r := MapToDomain(row, decode);
  }

  /** The rows after `markAsProcessed`. */
  function MarkRows(rows: seq<EventLogRow>, eventKey: string, runId: Option<string>, now: int)
    : (r: seq<EventLogRow>)
    ensures |r| == |rows|
    ensures forall i :: 0 <= i < |rows| ==> r[i].event_key == rows[i].event_key
  {
    seq(|rows|, i requires 0 <= i < |rows| =>
      if rows[i].event_key == eventKey
      then rows[i].(processed_at := NonNull(now),
                    run_id := if runId.Some? then NonNull(runId.value) else rows[i].run_id)
      else rows[i])
  }

  /** `markAsProcessed`: `processed_at := NOW()` and `run_id := COALESCE(runId, run_id)`. */
  method MarkAsProcessed(st: Store, eventKey: string, runId: Option<string>, now: int)
    requires st.Valid()
    modifies st
    ensures st.db == old(st.db).(eventLog := MarkRows(old(st.db.eventLog), eventKey, runId, now))
    ensures st.outbox == old(st.outbox) && st.nextId == old(st.nextId)
    ensures st.Valid()
  {
    st.db := st.db.(eventLog := MarkRows(st.db.eventLog, eventKey, runId, now));
  }

  // ---------------------------------------------------------------------
  // Properties

  lemma {:induction false} AbsentKeyCount(rows: seq<EventLogRow>, eventKey: string)
    requires FirstWithKey(rows, eventKey).None?
    ensures CountWithKey(rows, eventKey) == 0
  {
    if rows != [] {
      AbsentKeyCount(rows[1..], eventKey);
    }
  }

  lemma {:induction false} UniqueKeyCount(rows: seq<EventLogRow>, eventKey: string)
    requires EventKeysUnique(rows) && FirstWithKey(rows, eventKey).Some?
    ensures CountWithKey(rows, eventKey) == 1
  {
    if rows[0].event_key == eventKey {
      assert FirstWithKey(rows[1..], eventKey).None?;
      AbsentKeyCount(rows[1..], eventKey);
    } else {
      UniqueKeyCount(rows[1..], eventKey);
    }
  }

  lemma {:induction false} CountAppend(rows: seq<EventLogRow>, row: EventLogRow, eventKey: string)
    ensures CountWithKey(rows + [row], eventKey)
      == CountWithKey(rows, eventKey) + (if row.event_key == eventKey then 1 else 0)
  {
    if rows != [] {
      assert (rows + [row])[1..] == rows[1..] + [row];
      CountAppend(rows[1..], row, eventKey);
    }
  }

  /** Marking sets the processing time of the keyed rows and replaces their run
      only when one is given; the other rows are left as they are. */
  lemma MarkRowsEffect(rows: seq<EventLogRow>, eventKey: string, runId: Option<string>, now: int, i: int)
    requires 0 <= i < |rows|
    ensures rows[i].event_key != eventKey ==> MarkRows(rows, eventKey, runId, now)[i] == rows[i]
    ensures rows[i].event_key == eventKey ==>
      && MarkRows(rows, eventKey, runId, now)[i].processed_at == NonNull(now)
      && MarkRows(rows, eventKey, runId, now)[i].run_id
         == (if runId.Some? then NonNull(runId.value) else rows[i].run_id)
      && MarkRows(rows, eventKey, runId, now)[i].event_payload == rows[i].event_payload
  {
  }

  /** Marking an absent key changes nothing. */
  lemma MarkAbsentKeyIsNoOp(rows: seq<EventLogRow>, eventKey: string, runId: Option<string>, now: int)
    requires FirstWithKey(rows, eventKey).None?
    ensures MarkRows(rows, eventKey, runId, now) == rows
  {
    assert forall i :: 0 <= i < |rows| ==> rows[i] in rows;
  }
}
