/** The row mappers between database rows and domain entities. A row column
    that may be NULL is a `Nullable`, the entity property it maps to an
    `Option` (`undefined` when absent); dates are integer milliseconds. */

/** Metric rows: the nullable columns, and the renaming of every
    `series_code` key of the stored expression to `seriesCode`. */
module MetricMapper {
  import opened Wrappers
  import opened Json
  import opened Entities

  datatype MetricRow = MetricRow(
    id: string,
    code: string,
    expression_type: string,
    expression_json: Json,
    frequency: Nullable<string>,
    unit: Nullable<string>,
    description: Nullable<string>,
    created_at: int,
    updated_at: int)

  const SNAKE_KEY: string := "series_code"
  const CAMEL_KEY: string := "seriesCode"

  /** The keys of an object after conversion: `series_code` becomes
      `seriesCode`, every other key stays. */
  function ConvertedKeys(fields: map<string, Json>): set<string> {
    (fields.Keys - {SNAKE_KEY}) + (if SNAKE_KEY in fields then {CAMEL_KEY} else {})
  }

  /** `convertSeriesCode`. When an object holds both `seriesCode` and
      `series_code`, the converted `series_code` value wins: the object comes
      from a JSONB column, whose keys are enumerated shorter first, so the
      `series_code` entry is visited last and overwrites the other. */
  function ConvertSeriesCode(v: Json): (r: Json)
    ensures !IsObjectLike(v) ==> r == v
    ensures v.JArr? ==> r.JArr? && |r.items| == |v.items|
    ensures v.JObj? ==> r.JObj? && r.fields.Keys == ConvertedKeys(v.fields)
    decreases v
  {
    match v
    case JArr(items) =>
      JArr(seq(|items|, i requires 0 <= i < |items| => ConvertSeriesCode(items[i])))
    case JObj(fields) =>
      JObj(map k | k in ConvertedKeys(fields) ::
        if k == CAMEL_KEY && SNAKE_KEY in fields then ConvertSeriesCode(fields[SNAKE_KEY])
        else ConvertSeriesCode(fields[k]))
    case _ => v
  }

  /** `normalizeExpressionJson`: falsy and non-object values are returned as
      they are, anything else is converted. */
  function NormalizeExpressionJson(json: Json): Json {
    if !Truthy(json) || !IsObjectLike(json) then json else ConvertSeriesCode(json)
  }

  /** No `series_code` key anywhere in the value. */
  predicate NoSnakeKey(v: Json)
    decreases v
  {
    match v
    case JArr(items) => forall i :: 0 <= i < |items| ==> NoSnakeKey(items[i])
    case JObj(fields) => SNAKE_KEY !in fields && forall k :: k in fields ==> NoSnakeKey(fields[k])
    case _ => true
  }

  function ToDomain(row: MetricRow): (m: Metric)
    ensures m.id == row.id && m.code == row.code && m.expressionType == row.expression_type
    ensures m.createdAt == row.created_at && m.updatedAt == row.updated_at
    ensures NoSnakeKey(m.expressionJson)
    ensures m.frequency.None? <==> row.frequency.Null?
    ensures m.unit.None? <==> row.unit.Null?
    ensures m.description.None? <==> row.description.Null?
    ensures row.frequency.NonNull? ==> m.frequency.value == row.frequency.value
    ensures row.unit.NonNull? ==> m.unit.value == row.unit.value
    ensures row.description.NonNull? ==> m.description.value == row.description.value
  {
    NormalizedHasNoSnakeKey(row.expression_json);
    Metric(row.id, row.code, row.expression_type, NormalizeExpressionJson(row.expression_json),
      OrUndefined(row.frequency), OrUndefined(row.unit), OrUndefined(row.description),
      row.created_at, row.updated_at)
  }

  function ToDomainList(rows: seq<MetricRow>): (r: seq<Metric>)
    ensures |r| == |rows|
    ensures forall i :: 0 <= i < |rows| ==> r[i] == ToDomain(rows[i])
  {
    seq(|rows|, i requires 0 <= i < |rows| => ToDomain(rows[i]))
  }

  /** Objects and arrays are never falsy, so normalising is converting. */
  lemma NormalizeIsConvert(json: Json)
    ensures NormalizeExpressionJson(json) == ConvertSeriesCode(json)
  {
  }

  /** Array elements are converted one by one, in order. */
  lemma ConvertArrayElementwise(items: seq<Json>, i: int)
    requires 0 <= i < |items|
    ensures ConvertSeriesCode(JArr(items)).items[i] == ConvertSeriesCode(items[i])
  {
  }

  /** Every key other than the two spellings keeps its converted value, and
      `seriesCode` takes the converted `series_code` value when there is one. */
  lemma ConvertObjectFields(fields: map<string, Json>)
    ensures forall k :: k in fields && k != SNAKE_KEY && k != CAMEL_KEY ==>
      ConvertSeriesCode(JObj(fields)).fields[k] == ConvertSeriesCode(fields[k])
    ensures SNAKE_KEY in fields ==>
      ConvertSeriesCode(JObj(fields)).fields[CAMEL_KEY] == ConvertSeriesCode(fields[SNAKE_KEY])
    ensures SNAKE_KEY !in fields && CAMEL_KEY in fields ==>
      ConvertSeriesCode(JObj(fields)).fields[CAMEL_KEY] == ConvertSeriesCode(fields[CAMEL_KEY])
  {
  }

  /** A `series_code` string operand becomes a series reference. */
  lemma SnakeReferenceBecomesReference(fields: map<string, Json>, code: string)
    requires SNAKE_KEY in fields && fields[SNAKE_KEY] == JStr(code)
    ensures ConvertSeriesCode(JObj(fields)).fields[CAMEL_KEY] == JStr(code)
  {
  }

  /** The conversion leaves no `series_code` key at any depth. */
  lemma {:induction false} ConvertHasNoSnakeKey(v: Json)
    ensures NoSnakeKey(ConvertSeriesCode(v))
    decreases v
  {
    match v
    case JArr(items) =>
      var r := ConvertSeriesCode(v);
      forall i | 0 <= i < |r.items|
        ensures NoSnakeKey(r.items[i])
      {
        ConvertHasNoSnakeKey(items[i]);
      }
    case JObj(fields) =>
      var r := ConvertSeriesCode(v);
      forall k | k in r.fields
        ensures NoSnakeKey(r.fields[k])
      {
        if k == CAMEL_KEY && SNAKE_KEY in fields {
          ConvertHasNoSnakeKey(fields[SNAKE_KEY]);
        } else {
          ConvertHasNoSnakeKey(fields[k]);
        }
      }
    case _ =>
  }

  lemma NormalizedHasNoSnakeKey(json: Json)
    ensures NoSnakeKey(NormalizeExpressionJson(json))
  {
    ConvertHasNoSnakeKey(json);
  }

  /** A value without `series_code` keys is left exactly as it is. */
  lemma {:induction false} ConvertKeepsNormalised(v: Json)
    requires NoSnakeKey(v)
    ensures ConvertSeriesCode(v) == v
    decreases v
  {
    match v
    case JArr(items) =>
      var r := ConvertSeriesCode(v);
      forall i | 0 <= i < |items|
        ensures r.items[i] == items[i]
      {
        ConvertKeepsNormalised(items[i]);
      }
      assert r.items == items;
    case JObj(fields) =>
      var r := ConvertSeriesCode(v);
      assert r.fields.Keys == fields.Keys;
      forall k | k in fields
        ensures r.fields[k] == fields[k]
      {
        ConvertKeepsNormalised(fields[k]);
      }
      assert r.fields == fields;
    case _ =>
  }

  /** Normalising twice is normalising once. */
  lemma NormalizeIdempotent(json: Json)
    ensures NormalizeExpressionJson(NormalizeExpressionJson(json)) == NormalizeExpressionJson(json)
  {
    NormalizedHasNoSnakeKey(json);
    NormalizeIsConvert(NormalizeExpressionJson(json));
    ConvertKeepsNormalised(NormalizeExpressionJson(json));
  }
}

/** Metric run rows: seven nullable columns. */
module MetricRunMapper {
  import opened Wrappers
  import opened Entities

  datatype MetricRunRow = MetricRunRow(
    id: string,
    metric_id: string,
    metric_code: string,
    status: string,
    requested_at: int,
    started_at: Nullable<int>,
    finished_at: Nullable<int>,
    last_heartbeat_at: Nullable<int>,
    error: Nullable<string>,
    version_ts: Nullable<string>,
    manifest_path: Nullable<string>,
    row_count: Nullable<int>)

  /** A row without the columns the database assigns. */
  datatype MetricRunInsert = MetricRunInsert(
    metric_id: string,
    metric_code: string,
    status: string,
    started_at: Nullable<int>,
    finished_at: Nullable<int>,
    last_heartbeat_at: Nullable<int>,
    error: Nullable<string>,
    version_ts: Nullable<string>,
    manifest_path: Nullable<string>,
    row_count: Nullable<int>)

  function ToDomain(row: MetricRunRow): MetricRun {
    MetricRun(row.id, row.metric_id, row.metric_code, row.status, row.requested_at,
      OrUndefined(row.started_at), OrUndefined(row.finished_at),
      OrUndefined(row.last_heartbeat_at), OrUndefined(row.error),
      OrUndefined(row.version_ts), OrUndefined(row.manifest_path), OrUndefined(row.row_count))
  }

  function ToDomainList(rows: seq<MetricRunRow>): (r: seq<MetricRun>)
    ensures |r| == |rows|
    ensures forall i :: 0 <= i < |rows| ==> r[i] == ToDomain(rows[i])
  {
    seq(|rows|, i requires 0 <= i < |rows| => ToDomain(rows[i]))
  }

  function ToRow(run: NewMetricRun): MetricRunInsert {
    MetricRunInsert(run.metricId, run.metricCode, run.status,
      OrNull(run.startedAt), OrNull(run.finishedAt), OrNull(run.lastHeartbeatAt),
      OrNull(run.error), OrNull(run.versionTs), OrNull(run.manifestPath), OrNull(run.rowCount))
  }

  /** The row `INSERT … RETURNING *` yields once `id` and `requested_at` are set. */
  function Assigned(row: MetricRunInsert, id: string, requestedAt: int): MetricRunRow {
    MetricRunRow(id, row.metric_id, row.metric_code, row.status, requestedAt,
      row.started_at, row.finished_at, row.last_heartbeat_at, row.error,
      row.version_ts, row.manifest_path, row.row_count)
  }

  /** A run without its assigned properties, as `toRow` takes it. */
  function Unassigned(run: MetricRun): NewMetricRun {
    NewMetricRun(run.metricId, run.metricCode, run.status, run.startedAt, run.finishedAt,
      run.lastHeartbeatAt, run.error, run.versionTs, run.manifestPath, run.rowCount)
  }

  /** NULL columns become absent properties, other columns are copied. */
  lemma ToDomainNullable(row: MetricRunRow)
    ensures var m := ToDomain(row);
      && (m.startedAt.None? <==> row.started_at.Null?)
      && (m.finishedAt.None? <==> row.finished_at.Null?)
      && (m.lastHeartbeatAt.None? <==> row.last_heartbeat_at.Null?)
      && (m.error.None? <==> row.error.Null?)
      && (m.versionTs.None? <==> row.version_ts.Null?)
      && (m.manifestPath.None? <==> row.manifest_path.Null?)
      && (m.rowCount.None? <==> row.row_count.Null?)
    ensures var m := ToDomain(row);
      && (row.started_at.NonNull? ==> m.startedAt.value == row.started_at.value)
      && (row.finished_at.NonNull? ==> m.finishedAt.value == row.finished_at.value)
      && (row.last_heartbeat_at.NonNull? ==> m.lastHeartbeatAt.value == row.last_heartbeat_at.value)
      && (row.error.NonNull? ==> m.error.value == row.error.value)
      && (row.version_ts.NonNull? ==> m.versionTs.value == row.version_ts.value)
      && (row.manifest_path.NonNull? ==> m.manifestPath.value == row.manifest_path.value)
      && (row.row_count.NonNull? ==> m.rowCount.value == row.row_count.value)
    ensures ToDomain(row).status == row.status
  {
  }

  /** Absent properties become NULL columns. */
  lemma ToRowNullable(run: NewMetricRun)
    ensures var row := ToRow(run);
      && (row.started_at.Null? <==> run.startedAt.None?)
      && (row.finished_at.Null? <==> run.finishedAt.None?)
      && (row.last_heartbeat_at.Null? <==> run.lastHeartbeatAt.None?)
      && (row.error.Null? <==> run.error.None?)
      && (row.version_ts.Null? <==> run.versionTs.None?)
      && (row.manifest_path.Null? <==> run.manifestPath.None?)
      && (row.row_count.Null? <==> run.rowCount.None?)
  {
  }

  /** Creating a run stores exactly what was supplied, plus the assigned columns. */
  lemma RoundTrip(run: NewMetricRun, id: string, requestedAt: int)
    ensures ToDomain(Assigned(ToRow(run), id, requestedAt)) == CreatedRun(run, id, requestedAt)
  {
  }

  /** Every row is the image of its own entity. */
  lemma RowRoundTrip(row: MetricRunRow)
    ensures Assigned(ToRow(Unassigned(ToDomain(row))), row.id, row.requested_at) == row
  {
  }
}

/** Pending dataset rows: two nullable columns. */
module PendingDatasetMapper {
  import opened Wrappers
  import opened Entities

  datatype PendingDatasetRow = PendingDatasetRow(
    run_id: string,
    dataset_id: string,
    required_days: int,
    received_update_id: Nullable<string>,
    received: bool,
    received_at: Nullable<int>,
    created_at: int)

  datatype PendingDatasetInsert = PendingDatasetInsert(
    run_id: string,
    dataset_id: string,
    required_days: int,
    received_update_id: Nullable<string>,
    received: bool,
    received_at: Nullable<int>)

  function ToDomain(row: PendingDatasetRow): PendingDataset {
    PendingDataset(row.run_id, row.dataset_id, row.required_days,
      OrUndefined(row.received_update_id), row.received, OrUndefined(row.received_at),
      row.created_at)
  }

  function ToDomainList(rows: seq<PendingDatasetRow>): (r: seq<PendingDataset>)
    ensures |r| == |rows|
    ensures forall i :: 0 <= i < |rows| ==> r[i] == ToDomain(rows[i])
  {
    seq(|rows|, i requires 0 <= i < |rows| => ToDomain(rows[i]))
  }

  function ToRow(pending: NewPendingDataset): PendingDatasetInsert {
    PendingDatasetInsert(pending.runId, pending.datasetId, pending.requiredDays,
      OrNull(pending.receivedUpdateId), pending.received, OrNull(pending.receivedAt))
  }

  function Assigned(row: PendingDatasetInsert, createdAt: int): PendingDatasetRow {
    PendingDatasetRow(row.run_id, row.dataset_id, row.required_days,
      row.received_update_id, row.received, row.received_at, createdAt)
  }

  function Unassigned(pending: PendingDataset): NewPendingDataset {
    NewPendingDataset(pending.runId, pending.datasetId, pending.requiredDays,
      pending.receivedUpdateId, pending.received, pending.receivedAt)
  }

  lemma ToDomainNullable(row: PendingDatasetRow)
    ensures var p := ToDomain(row);
      && (p.receivedUpdateId.None? <==> row.received_update_id.Null?)
      && (p.receivedAt.None? <==> row.received_at.Null?)
      && (row.received_update_id.NonNull? ==> p.receivedUpdateId.value == row.received_update_id.value)
      && (row.received_at.NonNull? ==> p.receivedAt.value == row.received_at.value)
      && p.received == row.received && p.requiredDays == row.required_days
  {
  }

  lemma ToRowNullable(pending: NewPendingDataset)
    ensures var row := ToRow(pending);
      && (row.received_update_id.Null? <==> pending.receivedUpdateId.None?)
      && (row.received_at.Null? <==> pending.receivedAt.None?)
  {
  }

  lemma RoundTrip(pending: NewPendingDataset, createdAt: int)
    ensures ToDomain(Assigned(ToRow(pending), createdAt)) == CreatedPending(pending, createdAt)
  {
  }

  lemma RowRoundTrip(row: PendingDatasetRow)
    ensures Assigned(ToRow(Unassigned(ToDomain(row))), row.created_at) == row
  {
  }
}

/** Dataset update rows: one nullable column. */
module DatasetUpdateMapper {
  import opened Wrappers
  import opened Entities

  datatype DatasetUpdateRow = DatasetUpdateRow(
    id: string,
    dataset_id: string,
    version_manifest_path: string,
    projections_path: string,
    bucket: Nullable<string>,
    event_key: string,
    created_at: int)

  datatype DatasetUpdateInsert = DatasetUpdateInsert(
    dataset_id: string,
    version_manifest_path: string,
    projections_path: string,
    bucket: Nullable<string>,
    event_key: string)

  function ToDomain(row: DatasetUpdateRow): DatasetUpdate {
    DatasetUpdate(row.id, row.dataset_id, row.version_manifest_path, row.projections_path,
      OrUndefined(row.bucket), row.event_key, row.created_at)
  }

  function ToDomainList(rows: seq<DatasetUpdateRow>): (r: seq<DatasetUpdate>)
    ensures |r| == |rows|
    ensures forall i :: 0 <= i < |rows| ==> r[i] == ToDomain(rows[i])
  {
    seq(|rows|, i requires 0 <= i < |rows| => ToDomain(rows[i]))
  }

  function ToRow(update: NewDatasetUpdate): DatasetUpdateInsert {
    DatasetUpdateInsert(update.datasetId, update.versionManifestPath, update.projectionsPath,
      OrNull(update.bucket), update.eventKey)
  }

  function Assigned(row: DatasetUpdateInsert, id: string, createdAt: int): DatasetUpdateRow {
    DatasetUpdateRow(id, row.dataset_id, row.version_manifest_path, row.projections_path,
      row.bucket, row.event_key, createdAt)
  }

  function Unassigned(update: DatasetUpdate): NewDatasetUpdate {
    NewDatasetUpdate(update.datasetId, update.versionManifestPath, update.projectionsPath,
      update.bucket, update.eventKey)
  }

  lemma ToDomainNullable(row: DatasetUpdateRow)
    ensures var u := ToDomain(row);
      && (u.bucket.None? <==> row.bucket.Null?)
      && (row.bucket.NonNull? ==> u.bucket.value == row.bucket.value)
      && u.id == row.id && u.datasetId == row.dataset_id
      && u.versionManifestPath == row.version_manifest_path
      && u.projectionsPath == row.projections_path
      && u.eventKey == row.event_key && u.createdAt == row.created_at
  {
  }

  lemma ToRowNullable(update: NewDatasetUpdate)
    ensures ToRow(update).bucket.Null? <==> update.bucket.None?
  {
  }

  lemma RoundTrip(update: NewDatasetUpdate, id: string, createdAt: int)
    ensures ToDomain(Assigned(ToRow(update), id, createdAt)) == CreatedUpdate(update, id, createdAt)
  {
  }

  lemma RowRoundTrip(row: DatasetUpdateRow)
    ensures Assigned(ToRow(Unassigned(ToDomain(row))), row.id, row.created_at) == row
  {
  }
}
