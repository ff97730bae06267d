/** The registry of lib/index.js is a plain object literal `{}`, and the cache
    test `this.collections[name]` (lib/index.js:131) is an ordinary property
    read. Such a read also sees the properties every object inherits from
    Object.prototype, all of them truthy, so a segment named `constructor`,
    `toString` and the like counts as cached although nothing was ever
    registered under it: getCollection hands out a built-in function or
    object instead of opening a store, and the `findOne`, `update` or `remove`
    call that follows throws. CacheSpec.Resolve, which the rest of the model
    uses, tests own entries only. */
module Findings {
  import opened Values
  import opened Storage
  import opened CacheSpec

  /** The properties a plain object inherits from Object.prototype. */
  const PrototypeProperties: set<string> := {
    "constructor", "hasOwnProperty", "isPrototypeOf", "propertyIsEnumerable",
    "toLocaleString", "toString", "valueOf", "__proto__",
    "__defineGetter__", "__defineSetter__", "__lookupGetter__", "__lookupSetter__"
  }

  /** What a property read on the registry object yields. */
  datatype Slot = Own(docs: Docs) | Inherited(property: string) | Missing

  /** `collections[name]` on an object literal, as JavaScript evaluates it:
      an own entry, else an inherited Object.prototype member, else undefined. */
  function PropertyRead(registry: map<string, Docs>, name: string): (r: Slot)
    ensures r.Own? <==> name in registry
    ensures r.Missing? <==> name !in registry && name !in PrototypeProperties
    ensures r.Own? ==> r.docs == registry[name]
    ensures r.Inherited? ==> r.property == name
  {
    if name in registry then Own(registry[name])
    else if name in PrototypeProperties then Inherited(name)
    else Missing
  }

  /** getCollection as written: every non-Missing read (each one truthy)
      is handed to the callback as the collection, before any engine call.
      None means the lookup missed and the engine would be asked to open. */
  function ResolveAsWritten(s: State, name: string): (r: Option<Result<Slot>>)
    ensures r.Some? && r.value.Ok? ==> s.connected && !r.value.value.Missing?
    // every read that does not miss is handed out, whether own or inherited
    ensures s.connected && name != "" && !PropertyRead(s.registry, name).Missing? ==>
              r == Some(Ok(PropertyRead(s.registry, name)))
    // the engine is asked to open a store exactly when the read misses
    ensures r.None? <==> s.connected && name != "" && PropertyRead(s.registry, name).Missing?
  {
    if !s.connected then Some(Err(NotReady))
    else if name == "" then Some(Err(EmptyString))
    else
      var slot := PropertyRead(s.registry, name);
      if !slot.Missing? then Some(Ok(slot)) else None
  }

  /** The discrepancy: on a ready connection with nothing registered, the
      segment `constructor` is served from the "cache" as a built-in, and no
      store is opened for it. */
  lemma ConstructorSegmentServedFromCache()
    ensures var s := State(true, true, true, map[], None);
            && Inv(s)
            && "constructor" !in s.registry
            && ResolveAsWritten(s, "constructor") == Some(Ok(Inherited("constructor")))
  {
  }

  /** The intended behaviour, as CacheSpec.Resolve has it: a lookup succeeds
      without an engine call only for a name a successful getCollection
      registered, so every Object.prototype name on a ready connection opens
      its own empty, indexed store like any other segment. */
  lemma PrototypeNamesAreOrdinarySegments(s: State, name: string, f: Faults)
    requires s.connected && name in PrototypeProperties && name !in s.registry
    ensures f.open.None? && f.index.None? ==>
              Resolve(s, name, f) == (Ok(map[]), s.(registry := s.registry[name := map[]]))
    ensures f.open.Some? ==> Resolve(s, name, f) == (Err(f.open.value), s)
  {
  }

  /** The corrected lookup serves a name from the cache only when the name
      is registered, whatever the faults. */
  lemma CacheHitsOnlyRegisteredNames(s: State, name: string, f: Faults)
    requires Resolve(s, name, f).0.Ok? && Resolve(s, name, f).1 == s
    ensures name in s.registry && Resolve(s, name, f).0.value == s.registry[name]
  {
  }
}
