/** Domain entities and the typed event records of the core. Dates are
    integer timestamps in milliseconds; optional properties (`x?: T`) are
    `Option`s. */
module Entities {
  import opened Wrappers
  import opened Json

  datatype Metric = Metric(
    id: string,
    code: string,
    expressionType: string,
    expressionJson: Json,
    frequency: Option<string>,
    unit: Option<string>,
    description: Option<string>,
    createdAt: int,
    updatedAt: int)

  datatype MetricRun = MetricRun(
    id: string,
    metricId: string,
    metricCode: string,
    status: string,
    requestedAt: int,
    startedAt: Option<int>,
    finishedAt: Option<int>,
    lastHeartbeatAt: Option<int>,
    error: Option<string>,
    versionTs: Option<string>,
    manifestPath: Option<string>,
    rowCount: Option<int>)

  /** The properties a caller supplies to create a run: a `MetricRun`
      without `id` and `requestedAt`, which the database assigns. */
  datatype NewMetricRun = NewMetricRun(
    metricId: string,
    metricCode: string,
    status: string,
    startedAt: Option<int>,
    finishedAt: Option<int>,
    lastHeartbeatAt: Option<int>,
    error: Option<string>,
    versionTs: Option<string>,
    manifestPath: Option<string>,
    rowCount: Option<int>)

  /** The run a database row holds once `id` and `requestedAt` are assigned. */
  function CreatedRun(run: NewMetricRun, id: string, requestedAt: int): MetricRun {
    MetricRun(id, run.metricId, run.metricCode, run.status, requestedAt, run.startedAt,
      run.finishedAt, run.lastHeartbeatAt, run.error, run.versionTs, run.manifestPath, run.rowCount)
  }

  /** A run's wait on one required dataset, keyed by (runId, datasetId). */
  datatype PendingDataset = PendingDataset(
    runId: string,
    datasetId: string,
    requiredDays: int,
    receivedUpdateId: Option<string>,
    received: bool,
    receivedAt: Option<int>,
    createdAt: int)

  /** A `PendingDataset` without `createdAt`, which the database assigns. */
  datatype NewPendingDataset = NewPendingDataset(
    runId: string,
    datasetId: string,
    requiredDays: int,
    receivedUpdateId: Option<string>,
    received: bool,
    receivedAt: Option<int>)

  function CreatedPending(pending: NewPendingDataset, createdAt: int): PendingDataset {
    PendingDataset(pending.runId, pending.datasetId, pending.requiredDays,
      pending.receivedUpdateId, pending.received, pending.receivedAt, createdAt)
  }

  datatype DatasetUpdate = DatasetUpdate(
    id: string,
    datasetId: string,
    versionManifestPath: string,
    projectionsPath: string,
    bucket: Option<string>,
    eventKey: string,
    createdAt: int)

  /** A `DatasetUpdate` without `id` and `createdAt`, which the database assigns. */
  datatype NewDatasetUpdate = NewDatasetUpdate(
    datasetId: string,
    versionManifestPath: string,
    projectionsPath: string,
    bucket: Option<string>,
    eventKey: string)

  function CreatedUpdate(update: NewDatasetUpdate, id: string, createdAt: int): DatasetUpdate {
    DatasetUpdate(id, update.datasetId, update.versionManifestPath, update.projectionsPath,
      update.bucket, update.eventKey, createdAt)
  }

  datatype EventLog = EventLog(
    eventKey: string,
    eventType: string,
    eventPayload: Json,
    processedAt: Option<int>,
    runId: Option<string>,
    createdAt: int)

  /** Inbound "dataset updated" notification, as the use case receives it. */
  datatype ProjectionUpdateEvent = ProjectionUpdateEvent(
    datasetId: string,
    bucket: string,
    versionManifestPath: string,
    projectionsPath: string)

  datatype MetricRunStartedEvent = MetricRunStartedEvent(
    runId: string,
    startedAt: Option<string>)

  datatype MetricRunHeartbeatEvent = MetricRunHeartbeatEvent(
    runId: string,
    progress: Option<real>,
    ts: string)

  datatype MetricRunCompletedEvent = MetricRunCompletedEvent(
    runId: string,
    metricCode: string,
    status: string,
    versionTs: Option<string>,
    outputManifest: Option<string>,
    rowCount: Option<int>,
    error: Option<string>)

  /** One `{datasetId, seriesCode}` entry of a run request. */
  datatype MetricInput = MetricInput(datasetId: string, seriesCode: string)

  datatype DatasetCatalogInfo = DatasetCatalogInfo(manifestPath: string, projectionsPath: string)

  /** The outbound `metric_run_requested` event; `catalog` is
      `catalog.datasets` of the wire format and `basePath` is `output.basePath`. */
  datatype MetricRunRequestEvent = MetricRunRequestEvent(
    eventType: string,
    runId: string,
    metricCode: string,
    expressionType: string,
    expressionJson: Json,
    inputs: seq<MetricInput>,
    catalog: map<string, DatasetCatalogInfo>,
    basePath: string,
    messageGroupId: Option<string>,
    messageDeduplicationId: Option<string>)
}
