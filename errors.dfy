/** The errors the core throws, one constructor per distinct `throw`. The
    strings they carry are the identifiers the messages interpolate. */
module Errors {

  datatype Failure =
    /** `SeriesNotFoundError`, listing every extracted code without a series row. */
    | SeriesNotFound(codes: seq<string>)
    /** The `TypeError` of the `in` operator applied to null or a primitive
        while walking an expression. */
    | ExpressionTypeError
    /** `MetricRun with id … not found`: an update without fields on a missing run. */
    | MetricRunNotFound(id: string)
    /** `Failed to update metric run with id …`: an UPDATE that matched no row. */
    | MetricRunUpdateFailed(id: string)
    /** `PendingDataset with runId … and datasetId … not found`. */
    | PendingDatasetNotFound(runId: string, datasetId: string)
    /** `Run not found: …`, raised when emitting. */
    | RunNotFound(runId: string)
    /** `Run … is not in pending_dependencies status: …`. */
    | RunNotPending(runId: string, status: string)
    /** `Metric not found: …`. */
    | MetricNotFound(metricId: string)
    /** A node with `op` and `series` whose `window` is absent or null. */
    | WindowMissing(metricCode: string, path: string)
    /** A node with `op` and `series` whose `window` is not a number of at least 1. */
    | WindowInvalid(metricCode: string, path: string)
    /** The publisher rejected the run request. */
    | PublishFailed
    /** `JSON.parse` of a stored event payload that is a string but not JSON text. */
    | PayloadSyntaxError
    /** A timestamp string of an event that does not denote a date. */
    | InvalidDate(text: string)
}
