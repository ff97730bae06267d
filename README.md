# catbox-nedb connection, modelled in Dafny

This project models the `Connection` object of catbox-nedb (`lib/index.js`). It is a
catbox cache client that keeps cached items in an embedded nedb document store, one
store per cache segment. The model proves what the connection promises about:

- its lifecycle (`start`, `stop`, `isReady`);
- the lazy, cached opening of one collection per segment (`getCollection`);
- the keyed `get` / `set` / `drop` protocol over those collections.

Layout, leaves first:

- `values.dfy` (module `Values`): JavaScript values and their truthiness, `Error`,
  and the `Option` / `Result` / `Outcome` shapes that the callbacks deliver.
- `storage.dfy` (module `Storage`): the engine below the adapter.
  - `DataStore` models an nedb datastore: documents by `_id`, TTL indexes, find, upsert, remove.
  - `DummyDB` models the factory of `lib/db.js`, which opens one store per name.
  - Every engine failure is a parameter. An engine call that fails changes nothing.
- `cache_spec.dfy` (module `CacheSpec`): the connection as a state machine on values.
  - `State` holds the connection's fields, with each registered collection given by its
    documents. `Inv` is the invariant that every reachable state keeps.
  - There is one transition function per operation: `StartSpec`, `StopSpec`, `Resolve`,
    `GetSpec`, `SetSpec`, `DropSpec`.
  - Lemmas relate the operations to each other: set-then-get, drop-then-get, idempotence,
    the errors a stopped connection gives, and the invariant over any run of operations.
- `connection.dfy` (module `CatboxNedb`): the class `Connection` with the source's fields
  `db`, `isConnectionStarted`, `isConnected`, `collections` and `startPending`.
  - Each method updates the fields in place, as the source does.
  - Each method is proved against the transition function of the same operation.
  - `Valid()` adds the facts that concern objects: distinct segments never share a store,
    and every registered store has the `expiresAt` TTL index.
  - The module also holds `ValidateSegmentName`, the one method of the source that reads
    no state, and `IndexOf`, the `indexOf` call it uses.
- `findings.dfy` (module `Findings`): a defect in the registry lookup (see "## Findings").

Modelling choices:

- **Engine failures.** Each operation takes a `Faults` value. It says whether the engine
  reports an error for `open` (the store load), for `ensureIndex`, or for the
  find/update/remove call.
- **Clock.** The clock is an integer `now`, in milliseconds.
  - `set` reads the clock twice in the source: `expiresAt` at lib/index.js:211 and
    `stored` at lib/index.js:216. The model uses one reading for both, so
    `expiresAt == stored + ttl` exactly.
- **Expiry.** Expiry works as nedb's TTL index does. A document is never returned once its
  `expiresAt` date plus the index's grace (here 0 seconds) lies strictly before `now`. This
  is an assumption about the engine. It is stated in `Storage.Expired`.
- **Callbacks.** A callback given to `start` is an opaque number. `Start` returns the
  callbacks it invoked, in order. Each of them is invoked without an error.
- **The two flags.** `isConnectionStarted` and `isConnected` stay two fields, as in the
  source. `Inv` proves that they always hold the same value, and that the value is true
  exactly when a `db` exists.
- **`start` while a start is pending.** The branch at lib/index.js:51-53 queues the callback
  behind the start in flight, and the model keeps it. In a sequential run no state reaches
  it: `start` drains its queue before it returns (`CacheSpec.NothingPendingInSequentialRuns`). The branch is reachable only re-entrantly,
  and re-entrancy is not modelled.
- **What `lib/index.js` checks, and what it does not.**
  - `get` rejects a record whose `value` or `stored` is *falsy* (lib/index.js:181-185), not
    only one where the field is missing. So `set(key, false | 0 | "" | null, ttl)` succeeds,
    and a later `get` fails with 'Incorrect record structure' (`CacheSpec.SetFalsyThenGetFails`).
  - A key's `id` is never validated.
  - getCollection rejects only an empty segment name (lib/index.js:127-129). It does not reject
    a name that contains `\0`; only `validateSegmentName` does.
- **Callbacks that change state are methods.** Where a nested callback of the source
  updates a store or the registry, the model gives it a method of its own:
  - `Connection.IndexAndRegister` is the callback that getCollection hands to
    `db.collection`, once the load has succeeded (lib/index.js:145-152). It creates the TTL
    index and then registers the store.
  - `Connection.Upsert` is the `update` step of `set` (lib/index.js:221-228), and
    `Connection.RemoveFrom` the `remove` step of `drop` (lib/index.js:246-253).

## Model

| member | source | states |
|---|---|---|
| `CatboxNedb.IndexOf` | lib/index.js:113 | `indexOf` gives -1 exactly when the character is absent; otherwise it gives the first position holding it |
| `CatboxNedb.ValidateSegmentName` | lib/index.js:100-118 | 'Empty string' for the empty name; 'Includes null character' for a non-empty name containing `\0`; no error exactly for non-empty names without `\0` |
| `CatboxNedb.Connection.constructor` | lib/index.js:19-31 | a new connection has no `db`, both flags false, an empty registry, no pending queue, and satisfies the invariant |
| `CatboxNedb.Connection.Start` | lib/index.js:41-79 | the new fields and the invoked callbacks are those of `StartSpec`; a `db` is constructed only when none existed, and then it is a fresh one; the registry is untouched |
| `CatboxNedb.Connection.Stop` | lib/index.js:82-91 | with a `db`: `db` becomes null, the registry empty, both flags false; without one, nothing changes |
| `CatboxNedb.Connection.IsReady` | lib/index.js:94-97 | reports `isConnected`, which holds exactly when a `db` exists and the connection is started |
| `CatboxNedb.Connection.GetCollection` | lib/index.js:121-155 | the result and new state are those of `Resolve`; a cached name yields the very same store with the registry unchanged; a new name yields a fresh store, registered under that name alone; on error the registry is unchanged |
| `CatboxNedb.Connection.IndexAndRegister` | lib/index.js:145-152 | on an index error the error is passed on and nothing is registered; otherwise the loaded store is registered under the name, and the registry gains exactly one empty collection |
| `CatboxNedb.Connection.Get` | lib/index.js:158-196 | the result and new state are those of `GetSpec` |
| `CatboxNedb.Connection.Set` | lib/index.js:199-231 | the outcome and new state are those of `SetSpec`; only the store of the key's segment is written |
| `CatboxNedb.Connection.Upsert` | lib/index.js:221-228 | on an engine error the error is passed on and no documents change; otherwise the segment's documents are its previous ones with the record for the id replaced or inserted, and no other segment changes |
| `CatboxNedb.Connection.Drop` | lib/index.js:234-256 | the outcome and new state are those of `DropSpec`; only the store of the key's segment is written |
| `CatboxNedb.Connection.RemoveFrom` | lib/index.js:246-253 | on an engine error the error is passed on and no documents change; otherwise the segment's documents are its previous ones less the id, and no other segment changes |
| `CacheSpec.StartSpec` | lib/index.js:41-79 | the registry is untouched and the invariant kept; the callback is invoked at once or queued behind the start in flight; afterwards the connection is ready unless a start is in flight |
| `CacheSpec.StopSpec` | lib/index.js:82-91 | either everything is torn down (no `db`, flags false, empty registry) or nothing changes; the invariant is kept |
| `CacheSpec.Resolve` | lib/index.js:121-155 | the registry changes only after both `open` and `ensureIndex` succeed, and then only by one new empty collection under the requested name; the collection handed out is the one registered under the name; an error leaves the state unchanged |
| `CacheSpec.MakeRecord` | lib/index.js:211-219 | the document `set` writes carries the key's id, the value and the ttl, and its `expiresAt` lies exactly `ttl` milliseconds after its `stored` time |
| `CacheSpec.ToEnvelope` | lib/index.js:177-193 | no document gives a null result without error; a document whose `value` is falsy or that lacks `stored` gives 'Incorrect record structure', and only such a document fails; any other gives the envelope `{item: value, stored, ttl}` |
| `CacheSpec.GetSpec` | lib/index.js:158-196 | the only state change is that of resolving the segment; the invariant is kept; a hit's item is truthy |
| `CacheSpec.SetSpec` | lib/index.js:199-231 | only the registry may change, never the flags or the pending queue; other segments keep their documents; on success the segment holds its previous documents with the record for `id` replaced whole by `{_id, value, stored: now, ttl, expiresAt: now + ttl}`; on failure the state is the one getCollection left, so no documents change and a segment opened on the way stays empty |
| `CacheSpec.DropSpec` | lib/index.js:234-256 | only the registry may change, never the flags or the pending queue; other segments keep their documents; on success the segment holds its previous documents less `id`; on failure the state is the one getCollection left, so no documents change and a segment opened on the way stays empty |
| `CacheSpec.StartIsIdempotent` | lib/index.js:45-47 | a start from a stopped state makes the connection ready with a `db` and runs just its callback; a second start runs only its own callback and changes nothing |
| `CacheSpec.StopDisablesOperations` | lib/index.js:82-91 | after `stop` the connection is not ready with an empty registry, `get`/`set`/`drop` fail with 'Connection not started' without effect, and a second `stop` changes nothing |
| `CacheSpec.ResolveOutcomes` | lib/index.js:123-153 | getCollection's outcomes in source order: 'Connection not ready', then 'Empty string', then the cached store, then the open error, then the index error |
| `CacheSpec.ResolveIsCached` | lib/index.js:131-133 | once a name resolves, resolving it again gives the same collection and state whatever the engine would report |
| `CacheSpec.SetThenGet` | test/index.js:45-63 | after a successful `set` of a truthy value, a `get` no later than `now + ttl` returns the envelope `{item: value, stored: now, ttl}` and changes nothing |
| `CacheSpec.SetThenGetExpired` | test/index.js:163-184 | after a successful `set`, a `get` after `now + ttl` returns null without error |
| `CacheSpec.SetFalsyThenGetFails` | lib/index.js:181-185 | after a successful `set` of a falsy value, a `get` before expiry fails with 'Incorrect record structure' |
| `CacheSpec.NonPositiveTtlAccepted` | lib/index.js:199-231 | on a ready connection a `set` with ttl at most 0 succeeds, and a `get` one millisecond later misses |
| `CacheSpec.DropThenGet` | lib/index.js:246-253 | after a successful `drop`, `get` returns null without error whether or not the id existed |
| `CacheSpec.DropIsIdempotent` | test/index.js:779-795 | a second `drop` of the same key succeeds and leaves the state as the first left it |
| `CacheSpec.NotStartedRefusesAll` | lib/index.js:158-162 | a connection never started makes `get`, `set` and `drop` fail with 'Connection not started' and changes nothing (also lines 201-203, 236-238) |
| `CacheSpec.EngineErrorsPropagate` | lib/index.js:171-175 | once the collection resolves, an engine error from `findOne`, `update` or `remove` is the operation's error, unchanged (also lines 222-226, 247-251) |
| `CacheSpec.ResolveErrorsPropagate` | lib/index.js:164-168 | on a started connection, an error from getCollection is the error of `get`, `set` and `drop`, unchanged, and the state is left as it was (also lines 205-209, 240-244; test/index.js:701-726, 797-822) |
| `CacheSpec.SetAndDropSucceedWhenReady` | test/index.js:683-699 | on a started connection with a non-empty segment and no engine error, `set` succeeds for every value and ttl, and `drop` succeeds whether or not the id is present (also test/index.js:779-795) |
| `CacheSpec.SetAndDropOutcomes` | lib/index.js:199-256 | `set` and `drop` succeed exactly when the connection was started, getCollection succeeds for the segment, and `update` or `remove` reports no error; no other failure is possible |
| `CacheSpec.GetMissesAbsentId` | test/index.js:538-554 | on a started connection with no engine error, `get` of an id the segment does not hold, or of any id in a segment not yet opened, gives a null result without error; the only state change is opening the segment |
| `CacheSpec.StepKeepsInv` | lib/index.js:41-256 | every operation keeps the invariant |
| `CacheSpec.NothingPendingInSequentialRuns` | lib/index.js:45-78 | from a state with no start in flight, every run of operations ends with no start in flight, so the queueing branch of lines 51-53 is never reached sequentially |
| `CacheSpec.InitialSatisfiesInv` | lib/index.js:25-29 | the state of a new connection satisfies the invariant |
| `CacheSpec.RunKeepsInv` | lib/index.js:25-29 | every state reached by any run of operations keeps the flags and the `db` in step, never registers the empty name, and registers collections only while connected |
| `CacheSpec.RegistryGrowsWithoutStop` | lib/index.js:151 | along a run without `stop`, no registered segment is ever removed |
| `Storage.FindUnderCacheIndex` | lib/index.js:145 | under the one TTL index getCollection creates (`expiresAt`, zero grace), `findOne` yields a document exactly when one is stored under the `_id` and its `expiresAt` is absent or not yet past `now`, and then the stored one |
| `Storage.ExpiredUnderOneIndex` | lib/index.js:145 | under the single TTL index on `expiresAt`, a document is expired exactly when its `expiresAt` plus the grace lies before `now` |
| `Storage.DataStore.constructor` | lib/db.js:37 | a newly created store has no documents and no TTL index |
| `Storage.DataStore.EnsureIndex` | lib/index.js:145-149 | on success the TTL index for the field is recorded; on failure the error is returned and nothing changes |
| `Storage.DataStore.FindOne` | lib/index.js:170-175 | the live document with the `_id`, or the engine's error |
| `Storage.DataStore.Update` | lib/index.js:221-226 | an upsert replaces the document for the `_id` whole, or inserts it |
| `Storage.DataStore.Remove` | lib/index.js:246-251 | removes the `_id` if present, and succeeds either way |
| `Storage.DummyDB.Collection` | lib/db.js:24-47 | a fresh, empty store with no TTL index, or the load error |
| `Findings.PropertyRead` | lib/index.js:131 | a property read on the registry object finds an own entry exactly for registered names, and misses only for names that are neither registered nor inherited from Object.prototype |
| `Findings.ResolveAsWritten` | lib/index.js:123-133 | as written, every read that does not miss is handed out as a collection, before any engine call |
| `Findings.ConstructorSegmentServedFromCache` | lib/index.js:131-133 | on a ready, empty connection, as written, the segment `constructor` is served from the cache as an inherited built-in |
| `Findings.PrototypeNamesAreOrdinarySegments` | lib/index.js:131-153 | in the corrected lookup, an Object.prototype name opens and registers its own store like any other segment |
| `Findings.CacheHitsOnlyRegisteredNames` | lib/index.js:131-133 | in the corrected lookup, a name is served without an engine call only if it is registered |

## Left out

- Settings: the merge with `Hoek.applyToDefaults` (lib/index.js:33-39) and the `new` check (lib/index.js:21) are library calls. They are not modelled.
- `lib/db.js` file paths: `Path.join` builds the file name from `base`, `partition` and `ext`, and that is not modelled. A real file would be loaded with its earlier contents; in the model every store opens empty, as an in-memory store does.
- Engine expiry sweep: nedb also deletes expired documents physically when it reads them. The model never returns an expired document, but it keeps the document in `docs`.
- Asynchrony and re-entrancy: the model does not cover callbacks that call back into the connection while `start` drains its queue. Each storage callback is modelled as the operation's return value.
- Overlapping operations are not modelled either. Two first-access getCollection calls for the same segment that are in flight together each open a store of their own, and the later one overwrites `collections[name]` (lib/index.js:151). The registry facts of the model, such as distinct segments never sharing a store, hold for sequential runs only.
- `stop` while operations are in flight: its outcome is unspecified, and it is not modelled.
- Values are finite trees, so a value with a reference cycle cannot be built. nedb's serialisation error for such a value (test/index.js:93-108) shows up only as one more possible `Faults.op` error of `set`.
- Numbers are reals: NaN, -0 and floating-point rounding of `ttl` or dates are not modelled. Dates are integer milliseconds, and `getTime` is the identity.
- `CacheSpec.NonPositiveTtlAccepted`: JavaScript dates are limited to ±8.64e15 ms. A ttl that puts `now + ttl` outside that range makes `expiresAt` an Invalid Date at lib/index.js:212, and nedb never expires such a document. The model has no such limit, so "a ttl ≤ 0 misses one millisecond later" holds in the source only for ttl ≥ -(now + 8.64e15).
- Keys are records of two strings, and a missing field is the empty string. A `null` key, a non-string segment and the TypeError they raise are not modelled. The behaviour that catbox's `Client` and `Policy` add in the tests (test/index.js:148-161, 308-334) is not modelled either.
- `Storage.DummyDB.Close` has no effect, as in lib/db.js:50-51, so it carries no contract.
- `CacheSpec.Resolve`: it looks up own registry entries only, which is the corrected behaviour of lib/index.js:131 (see "## Findings"). `CacheSpec.GetSpec`, `CacheSpec.SetSpec`, `CacheSpec.DropSpec` and the methods `Connection.Get`, `Connection.Set` and `Connection.Drop` are built on it and inherit the correction.
- `CatboxNedb.Connection.GetCollection`: it looks up own registry entries only. This is the corrected behaviour of lib/index.js:131 (see "## Findings"). For the Object.prototype names, the source as written returns an inherited built-in and then throws.

## Findings

| source | as written | input that shows it | evidently intended | confidence | as-written member | corrected member |
|---|---|---|---|---|---|---|
| lib/index.js:131 | `if (this.collections[name])` on the object literal `{}` also sees inherited Object.prototype members | `getCollection('constructor')` on a started connection with nothing registered returns the built-in `Object` as the collection; a following `get` then throws `collection.findOne is not a function` | a segment counts as cached only when it has its own registry entry | high; not executed | `Findings.ConstructorSegmentServedFromCache` | `Findings.PrototypeNamesAreOrdinarySegments` |
