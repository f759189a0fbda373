/** The expression types and operator enumerations of metric expressions. */
module ExpressionTypes {

  const SERIES_MATH: string := "series_math"
  const WINDOW_OP: string := "window_op"
  const COMPOSITE: string := "composite"

  /** Operators allowed in a series_math node. */
  const SERIES_MATH_OPS: set<string> := {"ratio", "multiply", "subtract", "add"}

  /** Operators allowed in a window_op node. */
  const WINDOW_OPS: set<string> := {"sma", "ema", "sum", "max", "min", "lag"}

  /** Operators allowed in a composite node. */
  const COMPOSITE_OPS: set<string> := {"sum", "avg", "max", "min"}
}

/** The statuses of a metric run. Statuses are stored and compared as the
    strings below; `dispatched`, `timed_out` and `canceled` have no producing
    transition in this core. */
module MetricStatus {

  const PENDING_DEPENDENCIES: string := "pending_dependencies"
  const QUEUED: string := "queued"
  const DISPATCHED: string := "dispatched"
  const RUNNING: string := "running"
  const SUCCEEDED: string := "succeeded"
  const FAILED: string := "failed"
  const TIMED_OUT: string := "timed_out"
  const CANCELED: string := "canceled"

  const ALL_STATUSES: set<string> :=
    {PENDING_DEPENDENCIES, QUEUED, DISPATCHED, RUNNING, SUCCEEDED, FAILED, TIMED_OUT, CANCELED}
}
