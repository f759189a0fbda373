/** Recording a dataset update announced by a projection notification,
    once per (dataset, version manifest). */
module DatasetUpdateService {
  import opened Wrappers
  import opened Entities
  import opened Store
  import opened DatasetUpdateRepository

  /** The deduplication key of a notification. */
  function EventKey(event: ProjectionUpdateEvent): string {
    event.datasetId + ":" + event.versionManifestPath
  }

  /** The update a new notification records. */
  function UpdateOf(event: ProjectionUpdateEvent): NewDatasetUpdate {
    NewDatasetUpdate(event.datasetId, event.versionManifestPath, event.projectionsPath,
      Some(event.bucket), EventKey(event))
  }

  /** `persistUpdate`: the stored update with the notification's key if there
      is one, otherwise a newly created one. Afterwards the key finds the
      returned update, so a repeated notification returns it unchanged. */
  method PersistUpdate(st: Store, event: ProjectionUpdateEvent, now: int) returns (u: DatasetUpdate)
    requires st.Valid()
    modifies st
    ensures FindByEventKey(old(st.db), EventKey(event)).Some? ==>
      && u == FindByEventKey(old(st.db), EventKey(event)).value
      && st.db == old(st.db) && st.nextId == old(st.nextId)
    ensures FindByEventKey(old(st.db), EventKey(event)).None? ==>
      && u == CreatedUpdate(UpdateOf(event), GenId(old(st.nextId)), now)
      && Unused(old(st.db), u.id)
      && st.db == old(st.db).(datasetUpdates := old(st.db.datasetUpdates) + [u])
      && st.nextId == old(st.nextId) + 1
    ensures FindByEventKey(st.db, EventKey(event)) == Some(u)
    ensures st.outbox == old(st.outbox)
    ensures st.Valid()
  {
    var eventKey := EventKey(event);
    var existing := FindByEventKey(st.db, eventKey);
    if existing.Some? {
      return existing.value;
    }
    var before := st.db.datasetUpdates;
    u := Create(st, UpdateOf(event), now);
    FirstWithEventKeyAppend(before, u);
  }

  lemma {:induction false} FirstWithEventKeyAppend(rows: seq<DatasetUpdate>, u: DatasetUpdate)
    requires FirstWithEventKey(rows, u.eventKey).None?
    ensures FirstWithEventKey(rows + [u], u.eventKey) == Some(u)
  {
    if rows != [] {
      assert (rows + [u])[1..] == rows[1..] + [u];
      FirstWithEventKeyAppend(rows[1..], u);
    }
  }

  /** While dataset ids contain no colon, the key tells notifications of
      different datasets or manifests apart. */
  lemma EventKeyInjective(a: ProjectionUpdateEvent, b: ProjectionUpdateEvent)
    requires ':' !in a.datasetId && ':' !in b.datasetId
    requires EventKey(a) == EventKey(b)
    ensures a.datasetId == b.datasetId && a.versionManifestPath == b.versionManifestPath
  {
    var k := EventKey(a);
    if |a.datasetId| < |b.datasetId| {
      KeyCharacters(a, |a.datasetId|);
      KeyCharacters(b, |a.datasetId|);
      assert false;
    } else if |b.datasetId| < |a.datasetId| {
      KeyCharacters(b, |b.datasetId|);
      KeyCharacters(a, |b.datasetId|);
      assert false;
    }
    assert a.datasetId == k[..|a.datasetId|] == b.datasetId;
    assert a.versionManifestPath == k[|a.datasetId| + 1..] == b.versionManifestPath;
  }

  /** The key is the dataset id, a colon, then the manifest path. */
  lemma KeyCharacters(e: ProjectionUpdateEvent, i: int)
    requires 0 <= i <= |e.datasetId|
    ensures i < |EventKey(e)|
    ensures i < |e.datasetId| ==> EventKey(e)[i] == e.datasetId[i]
    ensures i == |e.datasetId| ==> EventKey(e)[i] == ':'
  {
  }

  /** With a colon inside a dataset id, two notifications of different
      datasets share a key. */
  lemma EventKeyCollision()
    ensures var a := ProjectionUpdateEvent("a:b", "bucket", "c", "p");
            var b := ProjectionUpdateEvent("a", "bucket", "b:c", "p");
            a.datasetId != b.datasetId && EventKey(a) == EventKey(b)
  {
  }
}
