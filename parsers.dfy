/** The four inbound message parsers: the SQS body is decoded, unwrapped
    from its SNS envelope when it has one, and checked for its type and its
    required fields before the event record is built. */
module MessageParsers {
  import opened Wrappers
  import opened Json
  import Entities

  /** Why a message was refused: one constructor per `throw` of the parsers.
      `TypeError` is reading a property of a decoded `null`. */
  datatype ParseError =
    | EmptyBody
    | InvalidJson
    | InvalidEventType(got: Option<Json>)
    | MissingField(name: string)
    | InvalidStatus(status: Json)
    | TypeError

  /** `JSON.parse` on text, and the `String` coercion `JSON.parse` applies
      to an argument that is not a string. Both are foreign to the model. */
  datatype JsonCodec = JsonCodec(decode: string -> Option<Json>, coerce: Json -> string)

  /** `JSON.parse(body)`, then `JSON.parse(body.Message)` when `Message` is
      truthy. A failed decode is the invalid-JSON error. */
  function Unwrap(codec: JsonCodec, body: Option<string>): (r: Result<Json, ParseError>)
    ensures body.None? || body == Some("") ==> r == Err(EmptyBody)
    ensures body.Some? && body.value != "" && codec.decode(body.value).None? ==> r == Err(InvalidJson)
    ensures body.Some? && body.value != "" && codec.decode(body.value).Some? ==>
      var outer := codec.decode(body.value).value;
      && (outer.JNull? ==> r == Err(TypeError))
      && (!outer.JNull? && !TruthyField(outer, "Message") ==> r == Ok(outer))
  {
    if body.None? || body.value == "" then Err(EmptyBody)
    else match codec.decode(body.value)
      case None => Err(InvalidJson)
      case Some(outer) =>
        if outer.JNull? then Err(TypeError)
        else if !TruthyField(outer, "Message") then Ok(outer)
        else
          var message := outer.fields["Message"];
          var text := if message.JStr? then message.s else codec.coerce(message);
          match codec.decode(text)
          case None => Err(InvalidJson)
          case Some(inner) => Ok(inner)
  }

  /** The values of the truthy `keys` of `data`, checked in order: the first
      key that is missing or falsy is the error. */
  function RequireAll(data: Json, keys: seq<string>): (r: Result<seq<Json>, ParseError>)
    ensures r.Ok? <==> forall i :: 0 <= i < |keys| ==> TruthyField(data, keys[i])
    ensures r.Ok? ==> |r.value| == |keys| && forall i :: 0 <= i < |keys| ==> Some(r.value[i]) == Get(data, keys[i])
    ensures r.Err? ==> exists i :: 0 <= i < |keys| && r.error == MissingField(keys[i]) && !TruthyField(data, keys[i])
                                   && forall j :: 0 <= j < i ==> TruthyField(data, keys[j])
  {
    if keys == [] then Ok([])
    else if !TruthyField(data, keys[0]) then Err(MissingField(keys[0]))
    else
      var rest := RequireAll(data, keys[1..]);
      if rest.Err? then
        assert forall i :: 1 <= i < |keys| ==> keys[1..][i - 1] == keys[i];
        Err(rest.error)
      else Ok([data.fields[keys[0]]] + rest.value)
  }

  /** The discriminator check: `data[key] !== expected`, where reading a key
      of `null` throws. */
  function CheckType(data: Json, key: string, expected: string): (r: Outcome<ParseError>)
    ensures r == Pass <==> !data.JNull? && Get(data, key) == Some(JStr(expected))
    ensures data.JNull? ==> r == Fail(TypeError)
  {
    if data.JNull? then Fail(TypeError)
    else if Get(data, key) != Some(JStr(expected)) then Fail(InvalidEventType(Get(data, key)))
    else Pass
  }

  /** A property read, `undefined` when absent. */
  function Optional(data: Json, key: string): Option<Json> {
    Get(data, key)
  }

  // ---------------------------------------------------------------------
  // projection_update

  const PROJECTION_UPDATE_FIELDS: seq<string> := ["dataset_id", "version_manifest_path", "projections_path"]

  /** The parsed `ProjectionUpdateEvent`, its fields as decoded. */
  datatype ProjectionUpdateMessage = ProjectionUpdateMessage(
    datasetId: Json, bucket: Json, versionManifestPath: Json, projectionsPath: Json)

  function ProjectionUpdateOf(data: Json): (r: Result<ProjectionUpdateMessage, ParseError>)
    ensures r.Ok? <==> && CheckType(data, "event", "projection_update") == Pass
                       && forall i :: 0 <= i < |PROJECTION_UPDATE_FIELDS| ==> TruthyField(data, PROJECTION_UPDATE_FIELDS[i])
    ensures CheckType(data, "event", "projection_update").Fail? ==>
      r == Err(CheckType(data, "event", "projection_update").error)
    ensures r.Ok? ==> && Some(r.value.datasetId) == Get(data, "dataset_id")
                      && Some(r.value.versionManifestPath) == Get(data, "version_manifest_path")
                      && Some(r.value.projectionsPath) == Get(data, "projections_path")
                      && r.value.bucket == if TruthyField(data, "bucket") then Get(data, "bucket").value else JStr("")
  {
    var check := CheckType(data, "event", "projection_update");
    if check.Fail? then Err(check.error) else
    var values :- RequireAll(data, PROJECTION_UPDATE_FIELDS);
    var bucket := if TruthyField(data, "bucket") then data.fields["bucket"] else JStr("");
    Ok(ProjectionUpdateMessage(values[0], bucket, values[1], values[2]))
  }

  /** `parseProjectionUpdateMessage`. */
  function ParseProjectionUpdateMessage(codec: JsonCodec, body: Option<string>)
    : (r: Result<ProjectionUpdateMessage, ParseError>)
    ensures Unwrap(codec, body).Err? ==> r == Err(Unwrap(codec, body).error)
    ensures Unwrap(codec, body).Ok? ==> r == ProjectionUpdateOf(Unwrap(codec, body).value)
  {
    var data :- Unwrap(codec, body);
    ProjectionUpdateOf(data)
  }

  // ---------------------------------------------------------------------
  // metric_run_started

  datatype RunStartedMessage = RunStartedMessage(runId: Json, startedAt: Option<Json>)

  function RunStartedOf(data: Json): (r: Result<RunStartedMessage, ParseError>)
    ensures r.Ok? <==> CheckType(data, "type", "metric_run_started") == Pass && TruthyField(data, "runId")
    ensures CheckType(data, "type", "metric_run_started").Fail? ==>
      r == Err(CheckType(data, "type", "metric_run_started").error)
    ensures r.Ok? ==> Some(r.value.runId) == Get(data, "runId") && r.value.startedAt == Get(data, "startedAt")
  {
    var check := CheckType(data, "type", "metric_run_started");
    if check.Fail? then Err(check.error) else
    var values :- RequireAll(data, ["runId"]);
    Ok(RunStartedMessage(values[0], Optional(data, "startedAt")))
  }

  /** `parseMetricRunStartedMessage`. */
  function ParseMetricRunStartedMessage(codec: JsonCodec, body: Option<string>)
    : (r: Result<RunStartedMessage, ParseError>)
    ensures Unwrap(codec, body).Err? ==> r == Err(Unwrap(codec, body).error)
    ensures Unwrap(codec, body).Ok? ==> r == RunStartedOf(Unwrap(codec, body).value)
  {
    var data :- Unwrap(codec, body);
    RunStartedOf(data)
  }

  // ---------------------------------------------------------------------
  // metric_run_heartbeat

  const HEARTBEAT_FIELDS: seq<string> := ["runId", "ts"]

  datatype RunHeartbeatMessage = RunHeartbeatMessage(runId: Json, progress: Option<Json>, ts: Json)

  function RunHeartbeatOf(data: Json): (r: Result<RunHeartbeatMessage, ParseError>)
    ensures r.Ok? <==> && CheckType(data, "type", "metric_run_heartbeat") == Pass
                       && TruthyField(data, "runId") && TruthyField(data, "ts")
    ensures CheckType(data, "type", "metric_run_heartbeat").Fail? ==>
      r == Err(CheckType(data, "type", "metric_run_heartbeat").error)
    ensures r.Ok? ==> && Some(r.value.runId) == Get(data, "runId") && Some(r.value.ts) == Get(data, "ts")
                      && r.value.progress == Get(data, "progress")
  {
    var check := CheckType(data, "type", "metric_run_heartbeat");
    if check.Fail? then Err(check.error) else
    var values :- RequireAll(data, HEARTBEAT_FIELDS);
    assert HEARTBEAT_FIELDS[0] == "runId" && HEARTBEAT_FIELDS[1] == "ts";
    Ok(RunHeartbeatMessage(values[0], Optional(data, "progress"), values[1]))
  }

  /** `parseMetricRunHeartbeatMessage`. */
  function ParseMetricRunHeartbeatMessage(codec: JsonCodec, body: Option<string>)
    : (r: Result<RunHeartbeatMessage, ParseError>)
    ensures Unwrap(codec, body).Err? ==> r == Err(Unwrap(codec, body).error)
    ensures Unwrap(codec, body).Ok? ==> r == RunHeartbeatOf(Unwrap(codec, body).value)
  {
    var data :- Unwrap(codec, body);
    RunHeartbeatOf(data)
  }

  // ---------------------------------------------------------------------
  // metric_run_completed

  const COMPLETED_FIELDS: seq<string> := ["runId", "metricCode", "status"]

  datatype RunCompletedMessage = RunCompletedMessage(
    runId: Json, metricCode: Json, status: string,
    versionTs: Option<Json>, outputManifest: Option<Json>, rowCount: Option<Json>, error: Option<Json>)

  predicate IsCompletionStatus(v: Option<Json>) {
    v == Some(JStr("SUCCESS")) || v == Some(JStr("FAILURE"))
  }

  function RunCompletedOf(data: Json): (r: Result<RunCompletedMessage, ParseError>)
    ensures r.Ok? <==> && CheckType(data, "type", "metric_run_completed") == Pass
                       && (forall i :: 0 <= i < |COMPLETED_FIELDS| ==> TruthyField(data, COMPLETED_FIELDS[i]))
                       && IsCompletionStatus(Get(data, "status"))
    ensures CheckType(data, "type", "metric_run_completed").Fail? ==>
      r == Err(CheckType(data, "type", "metric_run_completed").error)
    ensures r.Ok? ==> && Some(r.value.runId) == Get(data, "runId") && Some(r.value.metricCode) == Get(data, "metricCode")
                      && Some(JStr(r.value.status)) == Get(data, "status")
                      && r.value.versionTs == Get(data, "versionTs")
                      && r.value.outputManifest == Get(data, "outputManifest")
                      && r.value.rowCount == Get(data, "rowCount")
                      && r.value.error == Get(data, "error")
    ensures r.Err? && r.error.InvalidStatus? ==> Some(r.error.status) == Get(data, "status")
  {
    var check := CheckType(data, "type", "metric_run_completed");
    if check.Fail? then Err(check.error) else
    var values :- RequireAll(data, COMPLETED_FIELDS);
    var status := values[2];
    if !IsCompletionStatus(Some(status)) then Err(InvalidStatus(status))
    else Ok(RunCompletedMessage(values[0], values[1], status.s, Optional(data, "versionTs"),
      Optional(data, "outputManifest"), Optional(data, "rowCount"), Optional(data, "error")))
  }

  /** `parseMetricRunCompletedMessage`. */
  function ParseMetricRunCompletedMessage(codec: JsonCodec, body: Option<string>)
    : (r: Result<RunCompletedMessage, ParseError>)
    ensures Unwrap(codec, body).Err? ==> r == Err(Unwrap(codec, body).error)
    ensures Unwrap(codec, body).Ok? ==> r == RunCompletedOf(Unwrap(codec, body).value)
  {
    var data :- Unwrap(codec, body);
    RunCompletedOf(data)
  }

  // ---------------------------------------------------------------------
  // Typed events, and the messages that carry them

  /** A string field as the typed event expects it. */
  function AsString(v: Json): Option<string> {
    if v.JStr? then Some(v.s) else None
  }

  /** An optional string field: absent, or a string. */
  function AsOptionalString(v: Option<Json>): Option<Option<string>> {
    match v
    case None => Some(None)
    case Some(JStr(s)) => Some(Some(s))
    case Some(_) => None
  }

  /** The typed `ProjectionUpdateEvent` a parsed message stands for, when
      every field is a string. */
  function ProjectionUpdateEventOf(m: ProjectionUpdateMessage): Option<Entities.ProjectionUpdateEvent> {
    if m.datasetId.JStr? && m.bucket.JStr? && m.versionManifestPath.JStr? && m.projectionsPath.JStr? then
      Some(Entities.ProjectionUpdateEvent(m.datasetId.s, m.bucket.s, m.versionManifestPath.s, m.projectionsPath.s))
    else None
  }

  function RunStartedEventOf(m: RunStartedMessage): Option<Entities.MetricRunStartedEvent> {
    match (AsString(m.runId), AsOptionalString(m.startedAt))
    case (Some(id), Some(startedAt)) => Some(Entities.MetricRunStartedEvent(id, startedAt))
    case _ => None
  }

  function RunHeartbeatEventOf(m: RunHeartbeatMessage): Option<Entities.MetricRunHeartbeatEvent> {
    var progress := match m.progress
      case None => Some(None)
      case Some(JNum(n)) => Some(Some(n))
      case Some(_) => None;
    match (AsString(m.runId), progress, AsString(m.ts))
    case (Some(id), Some(p), Some(ts)) => Some(Entities.MetricRunHeartbeatEvent(id, p, ts))
    case _ => None
  }

  /** A whole JSON number as an integer. */
  function AsOptionalInt(v: Option<Json>): Option<Option<int>> {
    match v
    case None => Some(None)
    case Some(JNum(n)) => if n.Floor as real == n then Some(Some(n.Floor)) else None
    case Some(_) => None
  }

  function RunCompletedEventOf(m: RunCompletedMessage): Option<Entities.MetricRunCompletedEvent> {
    match (AsString(m.runId), AsString(m.metricCode), AsOptionalString(m.versionTs),
           AsOptionalString(m.outputManifest), AsOptionalInt(m.rowCount), AsOptionalString(m.error))
    case (Some(id), Some(code), Some(versionTs), Some(manifest), Some(rowCount), Some(error)) =>
      Some(Entities.MetricRunCompletedEvent(id, code, m.status, versionTs, manifest, rowCount, error))
    case _ => None
  }

  /** The JSON object a publisher sends for an event. */
  function ProjectionUpdateJson(e: Entities.ProjectionUpdateEvent): Json {
    JObj(map["event" := JStr("projection_update"), "dataset_id" := JStr(e.datasetId), "bucket" := JStr(e.bucket),
             "version_manifest_path" := JStr(e.versionManifestPath), "projections_path" := JStr(e.projectionsPath)])
  }

  /** `fields` with `key` set when `o` holds a value. */
  function WithOptional(fields: map<string, Json>, key: string, o: Option<Json>): map<string, Json> {
    if o.Some? then fields[key := o.value] else fields
  }

  function StrOpt(o: Option<string>): Option<Json> {
    match o
    case None => None
    case Some(s) => Some(JStr(s))
  }

  function RunStartedJson(e: Entities.MetricRunStartedEvent): Json {
    JObj(WithOptional(map["type" := JStr("metric_run_started"), "runId" := JStr(e.runId)], "startedAt",
      StrOpt(e.startedAt)))
  }

  function RunHeartbeatJson(e: Entities.MetricRunHeartbeatEvent): Json {
    JObj(WithOptional(map["type" := JStr("metric_run_heartbeat"), "runId" := JStr(e.runId), "ts" := JStr(e.ts)],
      "progress", if e.progress.Some? then Some(JNum(e.progress.value)) else None))
  }

  /** `data` is a completion object a publisher sends for `e`: the fixed
      type, the required strings, and each optional result present exactly
      when `e` has it. */
  predicate DescribesCompleted(data: Json, e: Entities.MetricRunCompletedEvent) {
    && data.JObj? && "Message" !in data.fields
    && Get(data, "type") == Some(JStr("metric_run_completed"))
    && Get(data, "runId") == Some(JStr(e.runId)) && Get(data, "metricCode") == Some(JStr(e.metricCode))
    && Get(data, "status") == Some(JStr(e.status))
    && Get(data, "versionTs") == StrOpt(e.versionTs) && Get(data, "outputManifest") == StrOpt(e.outputManifest)
    && Get(data, "rowCount") == (if e.rowCount.Some? then Some(JNum(e.rowCount.value as real)) else None)
    && Get(data, "error") == StrOpt(e.error)
  }

  // ---------------------------------------------------------------------
  // Properties

  /** A body that is missing or empty is refused before anything is decoded,
      whatever the parser. */
  lemma EmptyBodyRefused(codec: JsonCodec, body: Option<string>)
    requires body.None? || body == Some("")
    ensures ParseProjectionUpdateMessage(codec, body) == Err(EmptyBody)
    ensures ParseMetricRunStartedMessage(codec, body) == Err(EmptyBody)
    ensures ParseMetricRunHeartbeatMessage(codec, body) == Err(EmptyBody)
    ensures ParseMetricRunCompletedMessage(codec, body) == Err(EmptyBody)
  {
  }

  /** An SNS envelope whose `Message` is the event's JSON text parses as
      that text would on its own. */
  lemma EnvelopeIsTransparent(codec: JsonCodec, outer: string, inner: string, event: Json)
    requires outer != "" && inner != "" && !event.JNull? && !TruthyField(event, "Message")
    requires codec.decode(outer) == Some(JObj(map["Message" := JStr(inner)]))
    requires codec.decode(inner) == Some(event)
    ensures Unwrap(codec, Some(outer)) == Ok(event) == Unwrap(codec, Some(inner))
  {
  }

  /** The body the publisher sends, on its own or inside an envelope. */
  ghost predicate Carries(codec: JsonCodec, body: string, event: Json) {
    && body != ""
    && (|| codec.decode(body) == Some(event)
        || exists inner :: inner != "" && codec.decode(body) == Some(JObj(map["Message" := JStr(inner)]))
                           && codec.decode(inner) == Some(event))
  }

  lemma CarriedUnwraps(codec: JsonCodec, body: string, event: Json)
    requires Carries(codec, body, event) && event.JObj? && "Message" !in event.fields
    ensures Unwrap(codec, Some(body)) == Ok(event)
  {
    if codec.decode(body) != Some(event) {
      var inner :| inner != "" && codec.decode(body) == Some(JObj(map["Message" := JStr(inner)]))
                   && codec.decode(inner) == Some(event);
      assert TruthyField(JObj(map["Message" := JStr(inner)]), "Message");
    }
  }

  /** Round trip: a projection notification whose required fields are not
      empty parses back to the same event. */
  lemma ProjectionUpdateRoundTrip(codec: JsonCodec, body: string, e: Entities.ProjectionUpdateEvent)
    requires e.datasetId != "" && e.versionManifestPath != "" && e.projectionsPath != ""
    requires Carries(codec, body, ProjectionUpdateJson(e))
    ensures var r := ParseProjectionUpdateMessage(codec, Some(body));
      r.Ok? && ProjectionUpdateEventOf(r.value) == Some(e)
  {
    CarriedUnwraps(codec, body, ProjectionUpdateJson(e));
  }

  lemma RunStartedRoundTrip(codec: JsonCodec, body: string, e: Entities.MetricRunStartedEvent)
    requires e.runId != ""
    requires Carries(codec, body, RunStartedJson(e))
    ensures var r := ParseMetricRunStartedMessage(codec, Some(body));
      r.Ok? && RunStartedEventOf(r.value) == Some(e)
  {
    CarriedUnwraps(codec, body, RunStartedJson(e));
  }

  lemma RunHeartbeatRoundTrip(codec: JsonCodec, body: string, e: Entities.MetricRunHeartbeatEvent)
    requires e.runId != "" && e.ts != ""
    requires Carries(codec, body, RunHeartbeatJson(e))
    ensures var r := ParseMetricRunHeartbeatMessage(codec, Some(body));
      r.Ok? && RunHeartbeatEventOf(r.value) == Some(e)
  {
    CarriedUnwraps(codec, body, RunHeartbeatJson(e));
  }

  lemma RunCompletedRoundTrip(codec: JsonCodec, body: string, data: Json, e: Entities.MetricRunCompletedEvent)
    requires e.runId != "" && e.metricCode != "" && (e.status == "SUCCESS" || e.status == "FAILURE")
    requires DescribesCompleted(data, e) && Carries(codec, body, data)
    ensures var r := ParseMetricRunCompletedMessage(codec, Some(body));
      r.Ok? && RunCompletedEventOf(r.value) == Some(e)
  {
    CarriedUnwraps(codec, body, data);
    assert forall i :: 0 <= i < |COMPLETED_FIELDS| ==> TruthyField(data, COMPLETED_FIELDS[i]) by {
      assert COMPLETED_FIELDS == ["runId", "metricCode", "status"];
    }
    var m := RunCompletedOf(data).value;
    if e.rowCount.Some? {
      assert (e.rowCount.value as real).Floor == e.rowCount.value;
    }
    assert AsOptionalInt(m.rowCount) == Some(e.rowCount);
  }

  /** A completion status other than SUCCESS or FAILURE is refused, once
      the type and the required fields have passed. */
  lemma UnknownStatusRefused(data: Json)
    requires CheckType(data, "type", "metric_run_completed") == Pass
    requires forall i :: 0 <= i < |COMPLETED_FIELDS| ==> TruthyField(data, COMPLETED_FIELDS[i])
    requires !IsCompletionStatus(Get(data, "status"))
    ensures var r := RunCompletedOf(data);
      r.Err? && r.error.InvalidStatus? && Some(r.error.status) == Get(data, "status")
  {
  }
}
