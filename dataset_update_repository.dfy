/** The `dataset_updates` table: one row per received version of a dataset. */
module DatasetUpdateRepository {
  import opened Wrappers
  import opened Entities
  import opened Store
  import opened Sequences

  function CreatedAt(u: DatasetUpdate): int {
    u.createdAt
  }

  function OfDataset(datasetId: string): DatasetUpdate -> bool {
    (u: DatasetUpdate) => u.datasetId == datasetId
  }

  /** The first row with the key, in table order. */
  function FirstWithEventKey(rows: seq<DatasetUpdate>, eventKey: string): (r: Option<DatasetUpdate>)
    ensures r.Some? ==> r.value in rows && r.value.eventKey == eventKey
    ensures r.None? <==> forall u :: u in rows ==> u.eventKey != eventKey
  {
    if rows == [] then None
    else if rows[0].eventKey == eventKey then Some(rows[0])
    else FirstWithEventKey(rows[1..], eventKey)
  }

  /** `findByEventKey`: the row with that key, or null. */
  function FindByEventKey(db: Tables, eventKey: string): (r: Option<DatasetUpdate>)
    ensures r.Some? ==> r.value in db.datasetUpdates && r.value.eventKey == eventKey
    ensures r.None? <==> forall u :: u in db.datasetUpdates ==> u.eventKey != eventKey
  {
    FirstWithEventKey(db.datasetUpdates, eventKey)
  }

  /** `findByDatasetId`: the dataset's updates, newest first. */
  function FindByDatasetId(db: Tables, datasetId: string): (r: seq<DatasetUpdate>)
    ensures SortedDesc(r, CreatedAt)
    ensures multiset(r) == multiset(Filter(db.datasetUpdates, OfDataset(datasetId)))
    ensures forall u :: u in r <==> u in db.datasetUpdates && u.datasetId == datasetId
  {
    var rows := Filter(db.datasetUpdates, OfDataset(datasetId));
    SortDescSorted(rows, CreatedAt);
    var r := SortDesc(rows, CreatedAt);
    assert forall u :: u in r <==> u in multiset(r);
    r
  }

  /** `findLatestByDatasetId`: an update of the dataset with the greatest
      `createdAt`, or null when it has none. */
  function FindLatestByDatasetId(db: Tables, datasetId: string): (r: Option<DatasetUpdate>)
    ensures r.None? <==> forall u :: u in db.datasetUpdates ==> u.datasetId != datasetId
    ensures r.Some? ==> r.value in db.datasetUpdates && r.value.datasetId == datasetId
    ensures r.Some? ==> forall u :: u in db.datasetUpdates && u.datasetId == datasetId ==>
      u.createdAt <= r.value.createdAt
  {
    var rows := Filter(db.datasetUpdates, OfDataset(datasetId));
    assert rows != [] ==> rows[0] in rows;
    Latest(rows, CreatedAt)
  }

  /** `LIMIT 1` of the ordered query is the head of the full ordered query. */
  lemma LatestIsHeadOfOrdered(db: Tables, datasetId: string)
    ensures FindByDatasetId(db, datasetId) == [] <==> FindLatestByDatasetId(db, datasetId).None?
    ensures FindByDatasetId(db, datasetId) != [] ==>
      FindLatestByDatasetId(db, datasetId) == Some(FindByDatasetId(db, datasetId)[0])
  {
    var rows := Filter(db.datasetUpdates, OfDataset(datasetId));
    if rows != [] {
      SortDescHeadIsLatest(rows, CreatedAt);
    }
  }

  /** `create`: appends the update with a generated id, stamped with the clock. */
  method Create(st: Store, update: NewDatasetUpdate, now: int) returns (created: DatasetUpdate)
    requires st.Valid()
    modifies st
    ensures created == CreatedUpdate(update, GenId(old(st.nextId)), now)
    ensures Unused(old(st.db), created.id)
    ensures st.db == old(st.db).(datasetUpdates := old(st.db.datasetUpdates) + [created])
    ensures st.nextId == old(st.nextId) + 1 && st.outbox == old(st.outbox)
    ensures st.Valid()
  {
    var id := st.FreshId();
    created := CreatedUpdate(update, id, now);
    st.db := st.db.(datasetUpdates := st.db.datasetUpdates + [created]);
  }
}
