/** Which datasets a metric needs, and which metrics depend on a dataset. */
module DependencyResolver {
  import opened Wrappers
  import opened Entities
  import opened Errors
  import opened Store
  import opened Catalog
  import opened OrderedSet
  import DependencyExtractor
  import Sequences

  /** `validateSeriesExist`: the codes, in order and with repetitions, with
      no series row. */
  function MissingSeries(db: Tables, codes: seq<string>): (missing: seq<string>)
    ensures forall c :: c in missing <==> c in codes && c !in db.series
    ensures missing == Sequences.Filter(codes, c => c !in db.series)
  {
    WithoutIsFilterOn(codes, FindSeriesByCodes(db, codes), c => c !in db.series);
    Without(codes, FindSeriesByCodes(db, codes))
  }

  /** Every requested code is either found by the series query or reported
      missing, never both; nothing else is found or reported. */
  lemma FoundOrMissing(db: Tables, codes: seq<string>)
    ensures forall c :: c in codes ==>
      (c in FindSeriesByCodes(db, codes) <==> c !in MissingSeries(db, codes))
    ensures forall c :: c in FindSeriesByCodes(db, codes) || c in MissingSeries(db, codes) ==> c in codes
  {
  }

  /** `resolveRequiredDatasets`: a missing metric or an expression without
      series needs nothing; a code without a series row fails with all
      missing codes; otherwise the distinct ids of the datasets holding one
      of the codes, in query order. */
  function ResolvedDatasets(db: Tables, metricId: string): (r: Result<seq<string>, Failure>)
    ensures FindMetricById(db, metricId).None? ==> r == Ok([])
    ensures r.Ok? ==> NoDuplicates(r.value)
    ensures FindMetricById(db, metricId).Some? ==>
      var codes := DependencyExtractor.SeriesCodes(FindMetricById(db, metricId).value.expressionJson);
      && (codes.Err? ==> r == Err(ExpressionTypeError))
      && (codes.Ok? ==>
            && (r.Ok? <==> forall c :: c in codes.value ==> c in db.series)
            && (r.Ok? ==> forall d :: d in r.value <==> d in db.datasets && OwnsAnyOf(db, d, codes.value))
            && (r.Err? ==> r == Err(SeriesNotFound(MissingSeries(db, codes.value)))))
  {
    match FindMetricById(db, metricId)
    case None => Ok([])
    case Some(metric) =>
      match DependencyExtractor.SeriesCodes(metric.expressionJson)
      case Err(_) => Err(ExpressionTypeError)
      case Ok(codes) =>
        if codes == [] then Ok([])
        else
          var missing := MissingSeries(db, codes);
          if missing != [] then
            assert missing[0] in missing;
            Err(SeriesNotFound(missing))
          else
            var datasets := FindBySeriesCodes(db, codes);
            AddAllNoDuplicates([], datasets);
            AddAllMembers([], datasets);
            Ok(AddAll([], datasets))
  }

  /** The metrics of `metrics`, in order, whose required datasets include
      `datasetId`; the first metric that fails to resolve aborts the scan. */
  function DependentAmong(db: Tables, metrics: seq<Metric>, datasetId: string): Result<seq<Metric>, Failure> {
    if metrics == [] then Ok([])
    else
      var required :- ResolvedDatasets(db, metrics[0].id);
      var rest :- DependentAmong(db, metrics[1..], datasetId);
      Ok((if datasetId in required then [metrics[0]] else []) + rest)
  }

  /** `findMetricsForDataset` as a value: an unknown dataset has no dependents. */
  function MetricsForDataset(db: Tables, datasetId: string): Result<seq<Metric>, Failure> {
    if !DatasetExists(db, datasetId) then Ok([]) else DependentAmong(db, db.metrics, datasetId)
  }

  function Prepend(acc: seq<Metric>, r: Result<seq<Metric>, Failure>): Result<seq<Metric>, Failure> {
    match r
    case Ok(ms) => Ok(acc + ms)
    case Err(e) => Err(e)
  }

  /** `findMetricsForDataset` with `filterMetricsByDataset`'s loop. */
  method FindMetricsForDataset(db: Tables, datasetId: string) returns (r: Result<seq<Metric>, Failure>)
    ensures r == MetricsForDataset(db, datasetId)
  {
    if !DatasetExists(db, datasetId) {
      return Ok([]);
    }
    var metrics := db.metrics;
    var dependent: seq<Metric> := [];
    var i := 0;
    PrependNothing(DependentAmong(db, metrics, datasetId));
    assert metrics[i..] == metrics;
    while i < |metrics|
      invariant 0 <= i <= |metrics|
      invariant DependentAmong(db, metrics, datasetId) == Prepend(dependent, DependentAmong(db, metrics[i..], datasetId))
    {
      DependentAmongStep(db, metrics, datasetId, i);
      var required := ResolvedDatasets(db, metrics[i].id);
      if required.Err? {
        return Err(required.error);
      }
      var kept := if datasetId in required.value then [metrics[i]] else [];
      PrependPrepend(dependent, kept, DependentAmong(db, metrics[i + 1..], datasetId));
      dependent := dependent + kept;
      i := i + 1;
    }
    assert metrics[i..] == [] && dependent + [] == dependent;
    r := Ok(dependent);
  }

  lemma PrependNothing(r: Result<seq<Metric>, Failure>)
    ensures Prepend([], r) == r
  {
    if r.Ok? {
      assert [] + r.value == r.value;
    }
  }

  lemma PrependPrepend(a: seq<Metric>, b: seq<Metric>, r: Result<seq<Metric>, Failure>)
    ensures Prepend(a, Prepend(b, r)) == Prepend(a + b, r)
  {
    if r.Ok? {
      assert a + (b + r.value) == (a + b) + r.value;
    }
  }

  /** One step of the scan from position `i`. */
  lemma DependentAmongStep(db: Tables, metrics: seq<Metric>, datasetId: string, i: int)
    requires 0 <= i < |metrics|
    ensures ResolvedDatasets(db, metrics[i].id).Err? ==>
      DependentAmong(db, metrics[i..], datasetId) == Err(ResolvedDatasets(db, metrics[i].id).error)
    ensures ResolvedDatasets(db, metrics[i].id).Ok? ==>
      DependentAmong(db, metrics[i..], datasetId)
      == Prepend(if datasetId in ResolvedDatasets(db, metrics[i].id).value then [metrics[i]] else [],
           DependentAmong(db, metrics[i + 1..], datasetId))
  {
    assert metrics[i..][0] == metrics[i] && metrics[i..][1..] == metrics[i + 1..];
  }

  // ---------------------------------------------------------------------
  // Properties

  /** The scan succeeds exactly when every metric resolves, and then keeps
      exactly the metrics whose required datasets include the dataset. */
  lemma {:induction false} DependentAmongMembers(db: Tables, metrics: seq<Metric>, datasetId: string)
    ensures DependentAmong(db, metrics, datasetId).Ok? <==>
      forall m :: m in metrics ==> ResolvedDatasets(db, m.id).Ok?
    ensures DependentAmong(db, metrics, datasetId).Ok? ==>
      forall m :: m in DependentAmong(db, metrics, datasetId).value <==>
        m in metrics && datasetId in ResolvedDatasets(db, m.id).value
  {
    if metrics != [] {
      DependentAmongMembers(db, metrics[1..], datasetId);
      assert forall m :: m in metrics <==> m == metrics[0] || m in metrics[1..];
    }
  }

  /** The scan fails with the failure of the first metric that does not resolve. */
  lemma {:induction false} DependentAmongFirstFailure(db: Tables, metrics: seq<Metric>, datasetId: string, i: int)
    requires 0 <= i < |metrics| && ResolvedDatasets(db, metrics[i].id).Err?
    requires forall j :: 0 <= j < i ==> ResolvedDatasets(db, metrics[j].id).Ok?
    ensures DependentAmong(db, metrics, datasetId) == Err(ResolvedDatasets(db, metrics[i].id).error)
  {
    if i > 0 {
      DependentAmongFirstFailure(db, metrics[1..], datasetId, i - 1);
    }
  }

  /** A metric depends on a known dataset when that dataset holds one of the
      series codes of its expression. */
  lemma DependentMetric(db: Tables, datasetId: string, m: Metric)
    requires DatasetExists(db, datasetId) && MetricsForDataset(db, datasetId).Ok?
    requires m in db.metrics && FindMetricById(db, m.id) == Some(m)
    requires DependencyExtractor.SeriesCodes(m.expressionJson).Ok?
    ensures m in MetricsForDataset(db, datasetId).value <==>
      OwnsAnyOf(db, datasetId, DependencyExtractor.SeriesCodes(m.expressionJson).value)
  {
    DependentAmongMembers(db, db.metrics, datasetId);
  }
}
