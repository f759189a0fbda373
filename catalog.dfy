/** The read-only lookups over metrics, series and datasets, and the
    dataset-by-series query the services call. */
module Catalog {
  import opened Wrappers
  import opened Entities
  import opened Store
  import Sequences

  /** `metricRepository.findById`: the metric with that id, if any. */
  function FindMetricById(db: Tables, id: string): (r: Option<Metric>)
    ensures r.Some? ==> r.value in db.metrics && r.value.id == id
    ensures r.None? <==> forall m :: m in db.metrics ==> m.id != id
  {
    FirstMetricWithId(db.metrics, id)
  }

  function FirstMetricWithId(metrics: seq<Metric>, id: string): (r: Option<Metric>)
    ensures r.Some? ==> r.value in metrics && r.value.id == id
    ensures r.None? <==> forall m :: m in metrics ==> m.id != id
  {
    if metrics == [] then None
    else if metrics[0].id == id then Some(metrics[0])
    else FirstMetricWithId(metrics[1..], id)
  }

  /** The codes among `codes` that have a series row (`findByCodes`; an
      empty list of codes finds nothing). */
  function FindSeriesByCodes(db: Tables, codes: seq<string>): (found: set<string>)
    ensures forall c :: c in found <==> c in codes && c in db.series
    ensures codes == [] ==> found == {}
  {
    set c | c in codes && c in db.series
  }

  /** `datasetRepository.findById` reduced to existence. */
  predicate DatasetExists(db: Tables, id: string) {
    id in db.datasets
  }

  /** Whether dataset `d` holds one of `codes`. */
  predicate OwnsAnyOf(db: Tables, d: string, codes: seq<string>) {
    exists c :: c in codes && (d, c) in db.membership
  }

  /** `findBySeriesCodes`: the datasets, in query order, that hold at least
      one of the codes. */
  function FindBySeriesCodes(db: Tables, codes: seq<string>): (r: seq<string>)
    ensures forall d :: d in r <==> d in db.datasets && OwnsAnyOf(db, d, codes)
  {
    Sequences.Filter(db.datasets, d => OwnsAnyOf(db, d, codes))
  }
}
