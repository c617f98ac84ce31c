/** subCacheSync on a cache and a database that nobody else touches meanwhile. */
module CacheSyncMethod {
  import opened Text
  import opened SyncData

  datatype Entry = Entry(id: Id, data: Cached)

  /** The first cached entry of a subscription; the cache may hold one twice. */
  function FirstEntry(items: seq<Entry>, id: Id): Option<Cached> {
    if items == [] then None
    else if items[0].id == id then Some(items[0].data)
    else FirstEntry(items[1..], id)
  }

  lemma {:induction false} FirstEntryAppend(items: seq<Entry>, e: Entry, id: Id)
    ensures FirstEntry(items + [e], id)
         == if FirstEntry(items, id).Some? then FirstEntry(items, id) else if e.id == id then Some(e.data) else None
  {
    if items == [] {
      assert items + [e] == [e] && [e][1..] == [];
    } else {
      assert (items + [e])[1..] == items[1..] + [e];
      FirstEntryAppend(items[1..], e, id);
    }
  }

  /** What a synchronisation owes the database: the first cached count of each subscription is added, and each
      timestamp ends up at the later of the stored one and the cached one. */
  function Owed(d: Doc, cached: Option<Cached>): Doc {
    match cached
    case None => d
    case Some(s) =>
      Doc(d.count + s.count, Later(d.lastNotification, s.lastNotification),
          Later(d.lastFailure, s.lastFailure), Later(d.lastSuccess, s.lastSuccess))
  }

  predicate OnePerId(items: seq<Entry>) {
    forall i, j :: 0 <= i < j < |items| ==> items[i].id != items[j].id
  }

  predicate Has(items: seq<Entry>, id: Id) {
    exists i :: 0 <= i < |items| && items[i].id == id
  }

  function Updated(d: Doc, id: Id, saved: map<Id, Cached>): Doc {
    if id in saved then CountersUpdate(d, saved[id]) else d
  }

  function KeptEntry(e: Entry, saved: map<Id, Cached>): Entry {
    if e.id !in saved then e
    else Entry(e.id, e.data.(lastFailure := saved[e.id].lastFailure, lastSuccess := saved[e.id].lastSuccess))
  }

  lemma OwedBySync(d: Doc, id: Id, first: map<Id, Cached>, saved: map<Id, Cached>, cached: Option<Cached>)
    requires id in first <==> cached.Some?
    requires id in first ==> first[id] == cached.value
    requires id in first <==> id in saved
    requires id in saved ==> saved[id] == ClearOld(first[id], Load(d))
    ensures Updated(d, id, saved) == Owed(d, cached)
  {
    if id in first {
      SyncIsMax(d, first[id]);
    }
  }

  class Database {
    var docs: map<Id, Doc>

    /** mongoSubCacheRefresh finds the documents in some order, each once. */
    method Refresh() returns (found: seq<Entry>)
      ensures forall i :: 0 <= i < |found| ==> found[i].id in docs && found[i].data == Load(docs[found[i].id])
      ensures OnePerId(found)
      ensures forall id :: id in docs ==> Has(found, id)
    {
      found := [];
      var left := docs.Keys;
      while left != {}
        invariant left <= docs.Keys
        invariant forall i :: 0 <= i < |found| ==> found[i].id in docs && found[i].data == Load(docs[found[i].id]) && found[i].id !in left
        invariant OnePerId(found)
        invariant forall id :: id in docs && id !in left ==> Has(found, id)
        decreases |left|
      {
        var id :| id in left;
        ghost var before := found;
        found := found + [Entry(id, Load(docs[id]))];
        left := left - {id};
        forall x | x in docs && x !in left ensures Has(found, x) {
          if x == id {
            assert found[|before|].id == id;
          } else {
            var i :| 0 <= i < |before| && before[i].id == x;
            assert found[i].id == x;
          }
        }
      }
    }

    /** mongoSubCountersUpdate. */
    method Update(id: Id, s: Cached)
      modifies this
      ensures docs == if id in old(docs) then old(docs)[id := CountersUpdate(old(docs)[id], s)] else old(docs)
    {
      if id in docs {
        docs := docs[id := CountersUpdate(docs[id], s)];
      }
    }
  }

  class Cache {
    var items: seq<Entry>
    const db: Database

    constructor (db: Database)
      ensures items == [] && this.db == db
    {
      items := [];
      this.db := db;
    }

    /** Step 1: one saved entry for each subscription, the first one found. */
    method Save() returns (saved: map<Id, Cached>)
      ensures forall id :: id in saved <==> FirstEntry(items, id).Some?
      ensures forall id :: id in saved ==> saved[id] == FirstEntry(items, id).value
    {
      saved := map[];
      for i := 0 to |items|
        invariant forall id :: id in saved <==> FirstEntry(items[..i], id).Some?
        invariant forall id :: id in saved ==> saved[id] == FirstEntry(items[..i], id).value
      {
        assert items[..i + 1] == items[..i] + [items[i]];
        forall id {
          FirstEntryAppend(items[..i], items[i], id);
        }
        if items[i].id !in saved {
          saved := saved[items[i].id := items[i].data];
        }
      }
      assert items[..|items|] == items;
    }

    /** Step 3: saved timestamps older than the ones just loaded are cleared. */
    method Compare(first: map<Id, Cached>) returns (saved: map<Id, Cached>)
      requires OnePerId(items)
      ensures saved.Keys == first.Keys
      ensures forall k :: 0 <= k < |items| && items[k].id in saved ==>
        saved[items[k].id] == ClearOld(first[items[k].id], items[k].data)
    {
      saved := first;
      for i := 0 to |items|
        invariant saved.Keys == first.Keys
        invariant forall k :: 0 <= k < i && items[k].id in saved ==>
          saved[items[k].id] == ClearOld(first[items[k].id], items[k].data)
        invariant forall k :: i <= k < |items| && items[k].id in saved ==> saved[items[k].id] == first[items[k].id]
      {
        var id := items[i].id;
        if id in saved {
          saved := saved[id := ClearOld(saved[id], items[i].data)];
        }
      }
    }

    /** Steps 4 and 5: what was saved goes to the database; lastFailure and lastSuccess stay in the cache. */
    method Flush(saved: map<Id, Cached>)
      requires OnePerId(items) && forall k :: 0 <= k < |items| ==> items[k].id in db.docs
      modifies this, db
      ensures |items| == |old(items)| && db.docs.Keys == old(db.docs).Keys
      ensures forall k :: 0 <= k < |items| ==> items[k] == KeptEntry(old(items)[k], saved)
      ensures forall k :: 0 <= k < |items| ==> items[k].id == old(items)[k].id && items[k].id in db.docs
      ensures forall k :: 0 <= k < |items| ==>
        db.docs[items[k].id] == Updated(old(db.docs)[items[k].id], items[k].id, saved)
    {
      ghost var was, loaded := db.docs, items;
      for i := 0 to |items|
        invariant |items| == |loaded| && db.docs.Keys == was.Keys
        invariant forall k :: 0 <= k < i ==> items[k] == KeptEntry(loaded[k], saved)
        invariant forall k :: i <= k < |items| ==> items[k] == loaded[k]
        invariant forall k :: 0 <= k < i ==> db.docs[loaded[k].id] == Updated(was[loaded[k].id], loaded[k].id, saved)
        invariant forall k :: i <= k < |items| ==> db.docs[loaded[k].id] == was[loaded[k].id]
      {
        var id := items[i].id;
        if id in saved {
          db.Update(id, saved[id]);
          items := items[i := KeptEntry(items[i], saved)];
        }
      }
    }

    /** The whole synchronisation. */
    method Sync()
      modifies this, db
      ensures db.docs.Keys == old(db.docs).Keys
      ensures forall id :: id in old(db.docs) ==> db.docs[id] == Owed(old(db.docs)[id], FirstEntry(old(items), id))
      ensures OnePerId(items)
      ensures forall i :: 0 <= i < |items| ==> items[i].id in db.docs && items[i].data.count == 0
      ensures forall id :: id in db.docs ==> Has(items, id)
    {
      var first := Save();
      ghost var cached, was := items, db.docs;
      items := db.Refresh();
      ghost var loaded := items;
      var saved := Compare(first);
      Flush(saved);
      hide FirstEntry, CountersUpdate, ClearOld, Load, Owed;
      forall id | id in was ensures db.docs[id] == Owed(was[id], FirstEntry(cached, id)) && Has(items, id) {
        assert Has(loaded, id);
        var i :| 0 <= i < |loaded| && loaded[i].id == id;
        assert items[i].id == id;
        OwedBySync(was[id], id, first, saved, FirstEntry(cached, id));
      }
    }
  }
}
