/**
 * The IndexedDB database `bridgenotary`, version 1, that the page and the service
 * worker share. It holds at most one object store, `pendingSubmissions`, keyed by the
 * record's `id`. The store is created only by the page's `onupgradeneeded` handler, and
 * that handler runs only when `open` creates the database; the service worker opens the
 * database without one.
 */
module PendingStore {

  /** `{ id, data, timestamp }`, the record `savePendingSubmission` adds. */
  datatype PendingRecord<D> = PendingRecord(id: string, data: D, timestamp: string)

  class Database<D> {
    /** The database `bridgenotary` exists (at version 1). */
    var created: bool
    /** The object store `pendingSubmissions` exists. */
    var hasStore: bool
    /** The store's contents, by key path `id`. */
    var records: map<string, PendingRecord<D>>

    /** Records sit under their own id, and only a store holds records. */
    predicate Valid()
      reads this
    {
      (hasStore ==> created)
      && (!hasStore ==> records == map[])
      && forall k :: k in records ==> records[k].id == k
    }

    /** No database yet: the state before the site first runs. */
    constructor ()
      ensures Valid() && !created && !hasStore && records == map[]
    {
      created := false;
      hasStore := false;
      records := map[];
    }

    /**
     * `indexedDB.open('bridgenotary', 1)`: creates the database when it does not exist,
     * and only then runs the upgrade handler, which creates the store if it is absent.
     */
    method Open(withUpgradeHandler: bool)
      requires Valid()
      modifies this
      ensures Valid() && created && records == old(records)
      ensures hasStore == (old(hasStore) || (!old(created) && withUpgradeHandler))
    {
      if !created {
        created := true;
        if withUpgradeHandler && !hasStore {
          hasStore := true;
        }
      }
    }

    /** `store.add(record)`: inserts when the key is free; a taken key fails the request and leaves the store as it was. */
    method Add(rec: PendingRecord<D>) returns (ok: bool)
      requires Valid() && hasStore
      modifies this
      ensures Valid() && created == old(created) && hasStore == old(hasStore)
      ensures ok <==> rec.id !in old(records)
      ensures records == if ok then old(records)[rec.id := rec] else old(records)
    {
      if rec.id in records {
        ok := false;
      } else {
        records := records[rec.id := rec];
        ok := true;
      }
    }

    /** `store.delete(id)`: removes the record with that key, if any. */
    method Delete(id: string)
      requires Valid() && hasStore
      modifies this
      ensures Valid() && created == old(created) && hasStore == old(hasStore)
      ensures records == old(records) - {id}
    {
      records := records - {id};
    }

    /** `store.getAll()`: every record once. */
    method GetAll() returns (pending: seq<PendingRecord<D>>)
      requires Valid() && hasStore
      ensures forall r :: r in pending <==> r.id in records && records[r.id] == r
      ensures forall i, j :: 0 <= i < j < |pending| ==> pending[i].id != pending[j].id
      ensures |pending| == |records|
    {
      pending := [];
      var left := records.Keys;
      while left != {}
        invariant left <= records.Keys
        invariant forall r :: r in pending <==> r.id in records.Keys - left && records[r.id] == r
        invariant forall i, j :: 0 <= i < j < |pending| ==> pending[i].id != pending[j].id
        invariant |pending| + |left| == |records|
        decreases left
      {
        var k :| k in left;
        pending := pending + [records[k]];
        left := left - {k};
      }
    }
  }
}
