/** The storage layer below the cache adapter: the embedded document store
    (one nedb `Datastore` per collection) and the `DummyDB` factory of
    lib/db.js that opens one store per collection name.

    The engine is foreign code, so it is modelled by what the adapter relies
    on: documents keyed by `_id`, full-record upsert, remove by `_id`, TTL
    indexes, and a load that either yields an empty in-memory store or fails.
    Every engine failure is a parameter (`fault`, `loadFault`) supplied by the
    caller of the model; an operation that fails changes nothing. */
module Storage {
  import opened Values

  /** A document as the adapter writes it: `_id`, `value`, `stored`, `ttl`
      and `expiresAt`. `stored` and `expiresAt` are Date fields given in
      milliseconds since the epoch; `None` stands for a document that lacks the
      field, as a corrupted or foreign document may. */
  datatype Record = Record(
    id: string,
    value: Value,
    stored: Option<int>,
    ttl: Option<int>,
    expiresAt: Option<int>)

  /** The documents of one store, by `_id`. */
  type Docs = map<string, Record>

  /** The Date held in a document's top-level field `field`, if any. */
  function DateField(r: Record, field: string): Option<int> {
    if field == "stored" then r.stored
    else if field == "expiresAt" then r.expiresAt
    else None
  }

  /** The engine's TTL rule: a document has expired once, for some TTL index
      (field name to grace seconds), the document's Date in that field plus the
      grace lies strictly before `now`. Expired documents are never returned. */
  predicate Expired(r: Record, ttlIndexes: map<string, int>, now: int) {
    exists field :: field in ttlIndexes && PastDue(r, field, ttlIndexes[field], now)
  }

  predicate PastDue(r: Record, field: string, grace: int, now: int) {
    DateField(r, field).Some? && now > DateField(r, field).value + 1000 * grace
  }

  /** `findOne({_id: id})`: the live document with that `_id`, if any. */
  function Find(docs: Docs, ttlIndexes: map<string, int>, id: string, now: int): Option<Record> {
    if id in docs && !Expired(docs[id], ttlIndexes, now) then Some(docs[id]) else None
  }

  /** Under a single TTL index on `expiresAt` with grace `grace`, a document
      has expired exactly when its `expiresAt` plus the grace is past `now`. */
  lemma ExpiredUnderOneIndex(r: Record, grace: int, now: int)
    ensures Expired(r, map["expiresAt" := grace], now)
        <==> r.expiresAt.Some? && now > r.expiresAt.value + 1000 * grace
  {
    var idx := map["expiresAt" := grace];
    if r.expiresAt.Some? && now > r.expiresAt.value + 1000 * grace {
      assert "expiresAt" in idx && PastDue(r, "expiresAt", idx["expiresAt"], now);
    }
  }

  /** Under the adapter's one index (`expiresAt`, zero grace seconds),
      `findOne` yields a stored document exactly while its `expiresAt` is
      absent or not yet past, and then the document as stored. */
  lemma FindUnderCacheIndex(docs: Docs, id: string, now: int)
    ensures Find(docs, map["expiresAt" := 0], id, now).Some?
        <==> id in docs && (docs[id].expiresAt.None? || now <= docs[id].expiresAt.value)
    ensures Find(docs, map["expiresAt" := 0], id, now).Some? ==>
              Find(docs, map["expiresAt" := 0], id, now).value == docs[id]
  {
    if id in docs {
      ExpiredUnderOneIndex(docs[id], 0, now);
    }
  }

  /** One opened collection: an nedb `Datastore`. */
  class DataStore {
    var docs: Docs
    /** TTL indexes created by `ensureIndex`: field name to grace seconds. */
    var ttlIndexes: map<string, int>

    /** A freshly loaded in-memory store holds nothing and has no TTL index
        (the unique `_id` index every store has is not modelled). */
    constructor ()
      ensures docs == map[] && ttlIndexes == map[]
    {
      docs := map[];
      ttlIndexes := map[];
    }

    /** `ensureIndex({fieldName, expireAfterSeconds})`. */
    method EnsureIndex(fieldName: string, expireAfterSeconds: int, fault: Option<Error>) returns (o: Outcome)
      modifies this`ttlIndexes
      ensures fault.Some? ==> o == Fail(fault.value) && ttlIndexes == old(ttlIndexes)
      ensures fault.None? ==> o == Pass && ttlIndexes == old(ttlIndexes)[fieldName := expireAfterSeconds]
    {
      if fault.Some? {
        return Fail(fault.value);
      }
      ttlIndexes := ttlIndexes[fieldName := expireAfterSeconds];
      return Pass;
    }

    /** `findOne({_id: id})`, reading the clock as `now`. */
    method FindOne(id: string, now: int, fault: Option<Error>) returns (r: Result<Option<Record>>)
      ensures fault.Some? ==> r == Err(fault.value)
      ensures fault.None? ==> r == Ok(Find(docs, ttlIndexes, id, now))
    {
      if fault.Some? {
        return Err(fault.value);
      }
      return Ok(Find(docs, ttlIndexes, id, now));
    }

    /** `update({_id: id}, record, {upsert: true})`: the document with that
        `_id` is replaced by `record` as a whole, or `record` is inserted. */
    method Update(id: string, record: Record, fault: Option<Error>) returns (o: Outcome)
      modifies this`docs
      ensures fault.Some? ==> o == Fail(fault.value) && docs == old(docs)
      ensures fault.None? ==> o == Pass && docs == old(docs)[id := record]
    {
      if fault.Some? {
        return Fail(fault.value);
      }
      docs := docs[id := record];
      return Pass;
    }

    /** `remove({_id: id}, {})`: removing an absent `_id` succeeds. */
    method Remove(id: string, fault: Option<Error>) returns (o: Outcome)
      modifies this`docs
      ensures fault.Some? ==> o == Fail(fault.value) && docs == old(docs)
      ensures fault.None? ==> o == Pass && docs == old(docs) - {id}
    {
      if fault.Some? {
        return Fail(fault.value);
      }
      docs := docs - {id};
      return Pass;
    }
  }

  /** The factory of lib/db.js. Its settings only shape file paths, which are
      not modelled, so it has no state. */
  class DummyDB {
    constructor () {
    }

    /** `collection(name, callback)`: a new store, loaded, or the load error. */
    method Collection(name: string, loadFault: Option<Error>) returns (r: Result<DataStore>)
      ensures loadFault.Some? ==> r == Err(loadFault.value)
      ensures loadFault.None? ==> r.Ok? && fresh(r.value) && r.value.docs == map[] && r.value.ttlIndexes == map[]
    {
      if loadFault.Some? {
        return Err(loadFault.value);
      }
      var store := new DataStore();
      return Ok(store);
    }

    /** `close()`: nothing to release for an in-process engine. */
    method Close() {
    }
  }
}
