/** The catbox cache client of lib/index.js: a `Connection` object whose
    fields its methods update in place, and the one method of it that reads
    no state, segment-name validation. Every operation is proved against its
    transition function in CacheSpec. */
module CatboxNedb {
  import opened Values
  import opened Storage
  import opened CacheSpec

  /** `s.indexOf(c)`: the first position of `c` in `s`, or -1. */
  function IndexOf(s: string, c: char): (i: int)
    ensures -1 <= i < |s|
    ensures i == -1 <==> c !in s
    ensures i >= 0 ==> s[i] == c && c !in s[..i]
  {
    if s == [] then -1
    else if s[0] == c then 0
    else
      var j := IndexOf(s[1..], c);
      if j == -1 then -1 else j + 1
  }

  /** `validateSegmentName(name)`: the error for an empty name or one holding
      a null character, and None (`null`) for every other name. */
  function ValidateSegmentName(name: string): (r: Option<Error>)
    ensures name == "" ==> r == Some(EmptyString)
    ensures name != "" && '\0' in name ==> r == Some(IncludesNull)
    ensures r == None <==> name != "" && '\0' !in name
  {
    if name == "" then Some(EmptyString)
    else if IndexOf(name, '\0') != -1 then Some(IncludesNull)
    else None
  }

  /** The documents of each registered store. */
  ghost function Registry(collections: map<string, DataStore>): (r: map<string, Docs>)
    reads collections.Values
    ensures r.Keys == collections.Keys
  {
    map seg | seg in collections :: collections[seg].docs
  }

  class Connection {
    var db: DummyDB?
    var isConnectionStarted: bool
    var isConnected: bool
    /** Segment name to opened collection. */
    var collections: map<string, DataStore>
    /** The callbacks waiting for a start in flight; None is `null`. */
    var startPending: Option<seq<Callback>>

    /** The fields as a CacheSpec state: each collection by its documents. */
    ghost function AbstractState(): State
      reads this, collections.Values
    {
      State(db != null, isConnectionStarted, isConnected,
            Registry(collections), startPending)
    }

    /** The abstract state satisfies Inv, distinct segments never share a
        store, and every registered store carries the `expiresAt` TTL index. */
    ghost predicate Valid()
      reads this, collections.Values
    {
      && Inv(AbstractState())
      && (forall a, b :: a in collections && b in collections && a != b ==> collections[a] != collections[b])
      && (forall seg :: seg in collections ==> collections[seg].ttlIndexes == CacheIndexes)
    }

    constructor ()
      ensures Valid() && AbstractState() == Initial
      ensures db == null && collections == map[]
    {
      db := null;
      isConnectionStarted := false;
      isConnected := false;
      collections := map[];
      startPending := None;
    }

    /** `start(callback)`: returns the callbacks invoked, each without error,
        in the order they were queued. */
    method Start(callback: Callback) returns (invoked: seq<Callback>)
      requires Valid()
      modifies this
      ensures Valid()
      ensures (invoked, AbstractState()) == StartSpec(old(AbstractState()), callback)
      ensures collections == old(collections)
      // a `db` is constructed only when none exists, and then exactly one
      ensures db != old(db) ==> old(db) == null && fresh(db)
      ensures !old(isConnected) && old(startPending) == None ==> db != null && fresh(db)
    {
      if isConnected {
        return [callback];
      }
      if startPending.Some? {
        startPending := Some(startPending.value + [callback]);
        return [];
      }
      startPending := Some([callback]);
      isConnectionStarted := true;
      db := new DummyDB();
      // connected(): no error is ever passed
      isConnected := true;
      invoked := [];
      var i := 0;
      while i < |startPending.value|
        invariant 0 <= i <= |startPending.value| && startPending == Some([callback])
        invariant invoked == startPending.value[..i]
      {
        invoked := invoked + [startPending.value[i]];
        i := i + 1;
      }
      startPending := None;
      assert invoked == [callback];
    }

    /** `stop()`. */
    method Stop()
      requires Valid()
      modifies this
      ensures Valid()
      ensures AbstractState() == StopSpec(old(AbstractState()))
      ensures old(db) != null ==> db == null && collections == map[]
      ensures old(db) == null ==> unchanged(this)
    {
      if db != null {
        db.Close();
        db := null;
        collections := map[];
        isConnected := false;
        isConnectionStarted := false;
      }
    }

    /** `isReady()`: true exactly while started, so that collections can be
        opened through the `db`. */
    method IsReady() returns (ready: bool)
      requires Valid()
      ensures ready == isConnected
      ensures ready <==> db != null && isConnectionStarted
    {
      ready := isConnected;
    }

    /** `getCollection(name, callback)`. */
    method GetCollection(name: string, f: Faults) returns (r: Result<DataStore>)
      requires Valid()
      modifies this`collections
      ensures Valid()
      ensures var out := Resolve(old(AbstractState()), name, f);
              && AbstractState() == out.1
              && r.Ok? == out.0.Ok?
              && (r.Err? ==> r.error == out.0.error)
              && (r.Ok? ==> r.value.docs == out.0.value)
      ensures db == old(db)
      // a cached name yields the same store, a new one a store of its own
      ensures r.Ok? ==> name in collections && collections[name] == r.value
      ensures r.Ok? && name in old(collections) ==> r.value == old(collections)[name] && collections == old(collections)
      ensures r.Ok? && name !in old(collections) ==> fresh(r.value) && collections == old(collections)[name := r.value]
      ensures r.Err? ==> collections == old(collections)
    {
      if !isConnected {
        return Err(NotReady);
      }
      if name == "" {
        return Err(EmptyString);
      }
      if name in collections {
        return Ok(collections[name]);
      }
      var loaded := db.Collection(name, f.open);
      if loaded.Err? {
        return Err(loaded.error);
      }
      r := IndexAndRegister(name, loaded.value, f.index);
    }

    /** The callback of `db.collection` once the store has loaded: create the
        TTL index, then register the store under the name. */
    method IndexAndRegister(name: string, collection: DataStore, indexFault: Option<Error>) returns (r: Result<DataStore>)
      requires Valid() && isConnected && name != "" && name !in collections
      requires collection !in collections.Values && collection.docs == map[] && collection.ttlIndexes == map[]
      modifies this`collections, collection`ttlIndexes
      ensures Valid()
      ensures indexFault.Some? ==> r == Err(indexFault.value) && collections == old(collections)
      ensures indexFault.None? ==> r == Ok(collection) && collections == old(collections)[name := collection]
      ensures AbstractState() == if indexFault.Some? then old(AbstractState())
                                 else old(AbstractState()).(registry := old(AbstractState()).registry[name := map[]])
    {
      var indexed := collection.EnsureIndex(TtlField, TtlGrace, indexFault);
      if indexed.Fail? {
        return Err(indexed.error);
      }
      assert forall seg :: seg in collections ==> collections[seg] != collection;
      collections := collections[name := collection];
      assert AbstractState().registry == old(AbstractState()).registry[name := map[]];
      return Ok(collection);
    }

    /** `get(key, callback)`, the engine reading the clock as `now`. */
    method Get(key: Key, now: int, f: Faults) returns (r: Result<Option<Envelope>>)
      requires Valid()
      modifies this`collections
      ensures Valid()
      ensures (r, AbstractState()) == GetSpec(old(AbstractState()), key, now, f)
      ensures db == old(db)
    {
      if !isConnectionStarted {
        return Err(NotStarted);
      }
      var c := GetCollection(key.segment, f);
      if c.Err? {
        return Err(c.error);
      }
      var found := c.value.FindOne(key.id, now, f.op);
      if found.Err? {
        return Err(found.error);
      }
      match found.value
      case None =>
        return Ok(None);
      case Some(record) =>
        if !Truthy(record.value) || record.stored.None? {
          return Err(BadRecord);
        }
        return Ok(Some(Envelope(record.value, record.stored.value, record.ttl)));
    }

    /** `set(key, value, ttl, callback)`: both `stored` and `expiresAt` are
        taken from the one clock reading `now`. */
    method Set(key: Key, value: Value, ttl: int, now: int, f: Faults) returns (o: Outcome)
      requires Valid()
      modifies this`collections, collections.Values`docs
      ensures Valid()
      ensures (o, AbstractState()) == SetSpec(old(AbstractState()), key, value, ttl, now, f)
      ensures db == old(db)
    {
      if !isConnectionStarted {
        return Fail(NotStarted);
      }
      var c := GetCollection(key.segment, f);
      if c.Err? {
        return Fail(c.error);
      }
      var collection := c.value;
      var expiresAt := now + ttl;
      var record := Record(key.id, value, Some(now), Some(ttl), Some(expiresAt));
      assert record == MakeRecord(key, value, ttl, now);
      o := Upsert(key.segment, collection, key.id, record, f.op);
    }

    /** The `update` step of the callback `set` hands to getCollection: upsert
        the record into the collection resolved for `seg`, and pass on the
        engine's error, if any, as it is. */
    method Upsert(seg: string, collection: DataStore, id: string, record: Record, fault: Option<Error>)
      returns (o: Outcome)
      requires Valid() && seg in collections && collections[seg] == collection
      modifies collection`docs
      ensures Valid()
      ensures fault.Some? ==> o == Fail(fault.value) && AbstractState() == old(AbstractState())
      ensures fault.None? ==> o == Pass && AbstractState() == old(AbstractState()).(registry :=
                old(AbstractState()).registry[seg := old(collection.docs)[id := record]])
    {
      o := collection.Update(id, record, fault);
      // no other segment shares the store, so no other segment's documents change
      forall other | other in collections && other != seg
        ensures collections[other].docs == old(collections[other].docs)
      {
        assert collections[other] != collection;
      }
      assert Registry(collections) == old(Registry(collections))[seg := collection.docs];
    }

    /** `drop(key, callback)`. */
    method Drop(key: Key, f: Faults) returns (o: Outcome)
      requires Valid()
      modifies this`collections, collections.Values`docs
      ensures Valid()
      ensures (o, AbstractState()) == DropSpec(old(AbstractState()), key, f)
      ensures db == old(db)
    {
      if !isConnectionStarted {
        return Fail(NotStarted);
      }
      var c := GetCollection(key.segment, f);
      if c.Err? {
        return Fail(c.error);
      }
      var collection := c.value;
      o := RemoveFrom(key.segment, collection, key.id, f.op);
    }

    /** The `remove` step of the callback `drop` hands to getCollection: remove
        the id from the collection resolved for `seg`, and pass on the
        engine's error, if any, as it is. */
    method RemoveFrom(seg: string, collection: DataStore, id: string, fault: Option<Error>) returns (o: Outcome)
      requires Valid() && seg in collections && collections[seg] == collection
      modifies collection`docs
      ensures Valid()
      ensures fault.Some? ==> o == Fail(fault.value) && AbstractState() == old(AbstractState())
      ensures fault.None? ==> o == Pass && AbstractState() == old(AbstractState()).(registry :=
                old(AbstractState()).registry[seg := old(collection.docs) - {id}])
    {
      o := collection.Remove(id, fault);
      // no other segment shares the store, so no other segment's documents change
      forall other | other in collections && other != seg
        ensures collections[other].docs == old(collections[other].docs)
      {
        assert collections[other] != collection;
      }
      assert Registry(collections) == old(Registry(collections))[seg := collection.docs];
    }
  }
}
