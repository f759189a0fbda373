/** The database and the publisher the core works against, as one mutable
    object. The tables the core only reads (metrics, series, datasets and the
    dataset/series membership) are plain values; the tables it writes are
    updated by the repository modules. */
module Store {
  import opened Wrappers
  import opened Json
  import opened Entities

  /** A row of `event_log`, as the driver returns it: `event_payload` is the
      stored JSONB value, and `processed_at` / `run_id` may be NULL. */
  datatype EventLogRow = EventLogRow(
    event_key: string,
    event_type: string,
    event_payload: Json,
    processed_at: Nullable<int>,
    run_id: Nullable<string>,
    created_at: int)

  /** All tables. Sequences are in physical (insertion) order, which is the
      order a query without `ORDER BY` returns. */
  datatype Tables = Tables(
    /** `metrics`, in the order `findAll` returns them. */
    metrics: seq<Metric>,
    /** The codes of the `series` rows. */
    series: set<string>,
    /** The ids of the `datasets` rows, in query order. */
    datasets: seq<string>,
    /** (dataset id, series code) pairs: which series a dataset holds. */
    membership: set<(string, string)>,
    datasetUpdates: seq<DatasetUpdate>,
    runs: seq<MetricRun>,
    pending: seq<PendingDataset>,
    /** `run_dataset_updates`: (run id, dataset update id) pairs. */
    runDatasetUpdates: set<(string, string)>,
    eventLog: seq<EventLogRow>)

  /** The k-th identifier the database generates. */
  function GenId(k: nat): string {
    NatToString(k)
  }

  /** No run, pending row or dataset update uses `id` as its identifier. */
  predicate Unused(db: Tables, id: string) {
    && (forall r :: r in db.runs ==> r.id != id)
    && (forall p :: p in db.pending ==> p.runId != id)
    && (forall u :: u in db.datasetUpdates ==> u.id != id)
  }

  /** `event_log.event_key` is unique (the insert relies on it with
      `ON CONFLICT (event_key)`). */
  predicate EventKeysUnique(rows: seq<EventLogRow>) {
    forall i, j :: 0 <= i < j < |rows| ==> rows[i].event_key != rows[j].event_key
  }

  class Store {
    var db: Tables
    /** Every run request published so far, oldest first. */
    var outbox: seq<MetricRunRequestEvent>
    /** The index of the next identifier the database will generate. */
    var nextId: nat
    /** Whether the publisher accepts messages. */
    const publishSucceeds: bool

    /** Every identifier still to be generated is unused, and the unique
        key of the event log holds. */
    ghost predicate Valid()
      reads this
    {
      && (forall k: nat :: k >= nextId ==> Unused(db, GenId(k)))
      && EventKeysUnique(db.eventLog)
    }

    /** `id` is not among the identifiers still to be generated. */
    ghost predicate NotFuture(id: string)
      reads this
    {
      forall k: nat :: k >= nextId ==> GenId(k) != id
    }

    constructor (initial: Tables, firstId: nat, publishSucceeds: bool)
      requires forall k: nat :: k >= firstId ==> Unused(initial, GenId(k))
      requires EventKeysUnique(initial.eventLog)
      ensures Valid()
      ensures db == initial && outbox == [] && nextId == firstId
      ensures this.publishSucceeds == publishSucceeds
    {
      db := initial;
      outbox := [];
      nextId := firstId;
      this.publishSucceeds := publishSucceeds;
    }

    /** Draws the next generated identifier; it is unused, and so are all
        identifiers after it. */
    method FreshId() returns (id: string)
      requires Valid()
      modifies this
      ensures id == GenId(old(nextId)) && nextId == old(nextId) + 1
      ensures Unused(db, id)
      ensures db == old(db) && outbox == old(outbox)
      ensures Valid() && NotFuture(id)
    {
      id := GenId(nextId);
      nextId := nextId + 1;
      forall k: nat | k >= nextId
        ensures GenId(k) != id
      {
        if GenId(k) == id {
          NatToStringInjective(k, nextId - 1);
        }
      }
    }

    /** `publishMetricRunRequest`: appends to the outbox, or fails. */
    method Publish(event: MetricRunRequestEvent) returns (ok: bool)
      requires Valid()
      modifies this
      ensures ok == publishSucceeds
      ensures outbox == if ok then old(outbox) + [event] else old(outbox)
      ensures db == old(db) && nextId == old(nextId)
      ensures Valid()
    {
      ok := publishSucceeds;
      if ok {
        outbox := outbox + [event];
      }
    }
  }
}
