/** The per-configuration table ACL manager: a write-through cache of project
    records over the store, the change broadcaster it announces to, the listener
    that reconciles it, and the registry of one manager per configuration. */
module TableACLManagers {
  import opened Wrappers
  import opened TableAcl
  import opened ResourceStores

  /** The identity of a configuration; only its equality matters. */
  datatype ConfigId = ConfigId(id: nat)

  /** The IllegalStateException `getInstance` throws when construction fails. */
  datatype InitError = IllegalState(config: ConfigId, cause: StoreError)

  /** A change announced to the other processes: `cacheKey` of `entity` changed. */
  datatype Event = EntityChange(entity: string, cacheKey: string)

  /** A listener registered for an entity. */
  datatype Registration = Registration(listener: TableACLSyncListener, entity: string)

  /** The broadcaster of one configuration, reduced to what is sent and who listens. */
  class Broadcaster {
    var outbox: seq<Event>
    var listeners: seq<Registration>

    constructor ()
      ensures outbox == [] && listeners == []
    {
      outbox, listeners := [], [];
    }

    method RegisterListener(listener: TableACLSyncListener, entity: string)
      modifies this
      ensures listeners == old(listeners) + [Registration(listener, entity)]
      ensures outbox == old(outbox)
    {
      listeners := listeners + [Registration(listener, entity)];
    }

    method Announce(entity: string, cacheKey: string)
      modifies this
      ensures outbox == old(outbox) + [EntityChange(entity, cacheKey)]
      ensures listeners == old(listeners)
    {
      outbox := outbox + [EntityChange(entity, cacheKey)];
    }
  }

  /** The case-insensitive record cache: entries are keyed by `keyOf(project)`. */
  class RecordCache {
    const entity: string
    const keyOf: string -> string
    const bus: Broadcaster
    var entries: map<string, TableACL>

    constructor (keyOf: string -> string, entity: string, bus: Broadcaster)
      ensures this.keyOf == keyOf && this.entity == entity && this.bus == bus
      ensures entries == map[]
    {
      this.keyOf, this.entity, this.bus := keyOf, entity, bus;
      entries := map[];
    }

    /** The cached record for `key`, `None` (Java's null) when there is none. */
    function Get(key: string): (r: Option<TableACL>)
      reads this
      ensures r.Some? <==> keyOf(key) in entries
      ensures r.Some? ==> r.value == entries[keyOf(key)]
    {
      if keyOf(key) in entries then Some(entries[keyOf(key)]) else None
    }

    /** Updates this process's view only: nothing is announced. */
    method PutLocal(key: string, value: TableACL)
      modifies this
      ensures entries == old(entries)[keyOf(key) := value]
      ensures bus.outbox == old(bus.outbox)
    {
      entries := entries[keyOf(key) := value];
    }

    /** Updates this process's view and announces the change to the others. */
    method Put(key: string, value: TableACL)
      modifies this, bus
      ensures entries == old(entries)[keyOf(key) := value]
      ensures bus.outbox == old(bus.outbox) + [EntityChange(entity, key)]
      ensures bus.listeners == old(bus.listeners)
    {
      entries := entries[keyOf(key) := value];
      bus.Announce(entity, key);
    }
  }

  class TableACLManager {
    const config: ConfigId
    const store: ResourceStore
    const bus: Broadcaster
    const logic: RecordLogic
    const tableACLMap: RecordCache

    /** The record cache announces on this manager's broadcaster, as entity "table_acl". */
    ghost predicate Valid() {
      tableACLMap.bus == bus && tableACLMap.entity == TABLE_ACL
    }

    /** The fields of `new TableACLManager(config)`, before the load. */
    constructor (config: ConfigId, store: ResourceStore, bus: Broadcaster,
                 keyOf: string -> string, logic: RecordLogic)
      ensures Valid()
      ensures this.config == config && this.store == store && this.bus == bus && this.logic == logic
      ensures fresh(tableACLMap) && tableACLMap.keyOf == keyOf && tableACLMap.entries == map[]
    {
      this.config, this.store, this.bus, this.logic := config, store, bus, logic;
      tableACLMap := new RecordCache(keyOf, TABLE_ACL, bus);
    }

    /** `new TableACLManager(config)`: loads every stored record into a fresh
        cache without announcing anything, then registers the sync listener.
        A failed load throws before the listener is registered. */
    static method Create(config: ConfigId, store: ResourceStore, bus: Broadcaster,
                         keyOf: string -> string, logic: RecordLogic)
      returns (r: Result<TableACLManager, StoreError>, ghost loaded: seq<string>)
      modifies bus
      ensures bus.outbox == old(bus.outbox)
      ensures r.Failure? ==> bus.listeners == old(bus.listeners)
      ensures r.Success? ==>
        && fresh(r.value) && fresh(r.value.tableACLMap) && r.value.Valid()
        && r.value.config == config && r.value.store == store && r.value.bus == bus
        && r.value.logic == logic && r.value.tableACLMap.keyOf == keyOf
        && (forall p :: p in loaded <==> Path(p) in store.resources)
        && r.value.tableACLMap.entries == Reloaded(map[], loaded, keyOf, store.resources)
        && |bus.listeners| == |old(bus.listeners)| + 1
        && bus.listeners[..|old(bus.listeners)|] == old(bus.listeners)
        && bus.listeners[|old(bus.listeners)|].listener.manager == r.value
        && bus.listeners[|old(bus.listeners)|].entity == TABLE_ACL
    {
      var m := new TableACLManager(config, store, bus, keyOf, logic);
      var res;
      res, loaded := m.LoadAllTableACL();
      if res.Fail? {
        return Failure(res.error), loaded;
      }
      var listener := new TableACLSyncListener(m);
      bus.RegisterListener(listener, TABLE_ACL);
      r := Success(m);
    }

    /** Reading through the cache and through the store agree on `project`. */
    ghost predicate Coherent(project: string)
      reads tableACLMap, store
    {
      GetTableACLByCache(project) == EffectiveACL(store.resources, project)
    }

    /** `getTableACLByCache(project)`: the cached record, or a new empty record
        when the cache has none. Reads neither the store nor the broadcaster. */
    function GetTableACLByCache(project: string): (r: TableACL)
      reads tableACLMap
      ensures tableACLMap.Get(project).None? ==> r == EMPTY
      ensures tableACLMap.Get(project).Some? ==> r == tableACLMap.Get(project).value
    {
      match tableACLMap.Get(project)
      case Some(acl) => acl
      case None => EMPTY
    }

    /** `loadAllTableACL()`: lists the store's ACL folder and reloads each listed
        project, with `putLocal`, in listing order. `loaded` is the projects in
        that order: exactly those with a record in the store. */
    method LoadAllTableACL() returns (res: Outcome<StoreError>, ghost loaded: seq<string>)
      requires Valid()
      modifies tableACLMap
      ensures bus.outbox == old(bus.outbox)
      ensures res.Pass? ==> forall p :: p in loaded <==> Path(p) in store.resources
      ensures res.Pass? ==>
        tableACLMap.entries == Reloaded(old(tableACLMap.entries), loaded, tableACLMap.keyOf, store.resources)
    {
      loaded := [];
      var listing := store.CollectResourceRecursively(ACL_FOLDER);
      if listing.Failure? {
        return Fail(listing.error), loaded;
      }
      var paths := listing.value;
      var prefixLen := |DIR_PREFIX|;
      for i := 0 to |paths|
        invariant |loaded| == i
        invariant forall j :: 0 <= j < i ==> IsAclPath(paths[j]) && loaded[j] == ProjectOf(paths[j])
        invariant tableACLMap.entries
                  == Reloaded(old(tableACLMap.entries), loaded, tableACLMap.keyOf, store.resources)
      {
        var path := paths[i];
        assert path in paths;
        var project := path[prefixLen..];
        var r := ReloadTableACL(project);
        if r.Fail? {
          return r, loaded;
        }
        ReloadedSnoc(old(tableACLMap.entries), loaded, tableACLMap.keyOf, store.resources, project);
        loaded := loaded + [project];
      }
      forall p | Path(p) in store.resources
        ensures p in loaded
      {
        ProjectOfPath(p);
        var j :| 0 <= j < |paths| && paths[j] == Path(p);
        assert loaded[j] == p;
      }
      forall p | p in loaded
        ensures Path(p) in store.resources
      {
        var j :| 0 <= j < |loaded| && loaded[j] == p;
        PathOfProject(paths[j]);
      }
      res := Pass;
    }

    /** `reloadTableACL(project)`: re-reads `project` from the store and caches
        it with `putLocal`, so that cache and store agree on it; nothing is
        announced. A failed read leaves the cache as it was. */
    method ReloadTableACL(project: string) returns (res: Outcome<StoreError>)
      modifies tableACLMap
      ensures bus.outbox == old(bus.outbox)
      ensures res.Pass? ==> tableACLMap.entries
                            == old(tableACLMap.entries)[tableACLMap.keyOf(project) := EffectiveACL(store.resources, project)]
      ensures res.Pass? ==> Coherent(project)
      ensures res.Fail? ==> tableACLMap.entries == old(tableACLMap.entries)
    {
      var acl := GetTableACL(project);
      if acl.Failure? {
        return Fail(acl.error);
      }
      tableACLMap.PutLocal(project, acl.value);
      res := Pass;
    }

    /** `getTableACL(project)`: reads exactly the path `"/table_acl/" + project`
        from the store (never the cache) and yields its record, or the default
        empty record when it is absent or its blacklist is null. */
    method GetTableACL(project: string) returns (r: Result<TableACL, StoreError>)
      ensures r.Success? ==> r.value == EffectiveACL(store.resources, project)
      ensures r.Failure? ==> r.error == IOException(Path(project))
    {
      var path := DIR_PREFIX + project;
      var stored := store.GetResource(path);
      if stored.Failure? {
        return Failure(stored.error);
      }
      if stored.value.None? || stored.value.value.userTableBlackList.None? {
        return Success(EMPTY);
      }
      r := Success(stored.value.value);
    }

    /** The write-through protocol every mutation keeps. On success the store
        holds `written` at the project's path, the cache maps the project to
        it, and exactly one change event for the project was announced; every
        other path and cache key is as it was. On failure nothing changed. */
    twostate predicate WroteThrough(project: string, written: TableACL, new res: Outcome<StoreError>)
      reads store, tableACLMap, bus
    {
      && bus.listeners == old(bus.listeners)
      && if res.Pass? then
           && store.resources == old(store.resources)[Path(project) := written]
           && tableACLMap.entries == old(tableACLMap.entries)[tableACLMap.keyOf(project) := written]
           && bus.outbox == old(bus.outbox) + [EntityChange(TABLE_ACL, project)]
         else
           && store.resources == old(store.resources)
           && tableACLMap.entries == old(tableACLMap.entries)
           && bus.outbox == old(bus.outbox)
    }

    /** Read the base record from the store, write the derived record to the
        store, and only then put it in the cache, announcing the change. */
    method WriteThrough(project: string, delta: TableACL -> TableACL) returns (res: Outcome<StoreError>)
      requires Valid()
      modifies store, tableACLMap, bus
      ensures WroteThrough(project, delta(old(EffectiveACL(store.resources, project))), res)
      ensures res.Pass? ==> GetTableACLByCache(project) == delta(old(EffectiveACL(store.resources, project)))
      ensures res.Pass? && delta(old(EffectiveACL(store.resources, project))).userTableBlackList.Some?
              ==> Coherent(project)
    {
      var path := Path(project);
      var base := GetTableACL(project);
      if base.Failure? {
        return Fail(base.error);
      }
      var tableACL := delta(base.value);
      res := store.PutResource(path, tableACL);
      if res.Fail? {
        return;
      }
      tableACLMap.Put(project, tableACL);
      ReadAfterWrite(old(store.resources), project, tableACL, project);
    }

    /** `addTableACL(project, username, table)`. */
    method AddTableACL(project: string, username: string, table: string) returns (res: Outcome<StoreError>)
      requires Valid()
      modifies store, tableACLMap, bus
      ensures WroteThrough(project, logic.add(old(EffectiveACL(store.resources, project)), username, table), res)
      ensures res.Pass? ==>
        GetTableACLByCache(project) == logic.add(old(EffectiveACL(store.resources, project)), username, table)
    {
      res := WriteThrough(project, acl => logic.add(acl, username, table));
    }

    /** `deleteTableACL(project, username, table)`. */
    method DeleteTableACL(project: string, username: string, table: string) returns (res: Outcome<StoreError>)
      requires Valid()
      modifies store, tableACLMap, bus
      ensures WroteThrough(project, logic.deleteTable(old(EffectiveACL(store.resources, project)), username, table), res)
      ensures res.Pass? ==>
        GetTableACLByCache(project) == logic.deleteTable(old(EffectiveACL(store.resources, project)), username, table)
    {
      res := WriteThrough(project, acl => logic.deleteTable(acl, username, table));
    }

    /** `deleteTableACL(project, username)`. */
    method DeleteUserTableACL(project: string, username: string) returns (res: Outcome<StoreError>)
      requires Valid()
      modifies store, tableACLMap, bus
      ensures WroteThrough(project, logic.deleteUser(old(EffectiveACL(store.resources, project)), username), res)
      ensures res.Pass? ==>
        GetTableACLByCache(project) == logic.deleteUser(old(EffectiveACL(store.resources, project)), username)
    {
      res := WriteThrough(project, acl => logic.deleteUser(acl, username));
    }

    /** `deleteTableACLByTbl(project, table)`. */
    method DeleteTableACLByTbl(project: string, table: string) returns (res: Outcome<StoreError>)
      requires Valid()
      modifies store, tableACLMap, bus
      ensures WroteThrough(project, logic.deleteByTbl(old(EffectiveACL(store.resources, project)), table), res)
      ensures res.Pass? ==>
        GetTableACLByCache(project) == logic.deleteByTbl(old(EffectiveACL(store.resources, project)), table)
    {
      res := WriteThrough(project, acl => logic.deleteByTbl(acl, table));
    }
  }

  /** The listener a manager registers for "table_acl" changes. */
  class TableACLSyncListener {
    const manager: TableACLManager

    constructor (manager: TableACLManager)
      ensures this.manager == manager
    {
      this.manager := manager;
    }

    /** `onClearAll`: empties the registry of managers; the manager's own
        record cache and the registered listeners are left as they are. */
    method OnClearAll(registry: ManagerRegistry)
      requires registry.Valid()
      modifies registry
      ensures registry.Valid() && registry.instances == map[]
      ensures manager.tableACLMap.entries == old(manager.tableACLMap.entries)
    {
      registry.ClearCache();
    }

    /** `onEntityChange(..., cacheKey)`: re-reads that one project from the
        store into the cache without announcing it again. */
    method OnEntityChange(cacheKey: string) returns (res: Outcome<StoreError>)
      modifies manager.tableACLMap
      ensures manager.bus.outbox == old(manager.bus.outbox)
      ensures res.Pass? ==> manager.tableACLMap.entries == old(manager.tableACLMap.entries)
                 [manager.tableACLMap.keyOf(cacheKey) := EffectiveACL(manager.store.resources, cacheKey)]
      ensures res.Pass? ==> manager.Coherent(cacheKey)
      ensures res.Fail? ==> manager.tableACLMap.entries == old(manager.tableACLMap.entries)
    {
      res := manager.ReloadTableACL(cacheKey);
    }
  }

  /** The static `CACHE` of managers, one per configuration. */
  class ManagerRegistry {
    var instances: map<ConfigId, TableACLManager>

    /** Each registered manager belongs to the configuration it is filed under. */
    ghost predicate Valid()
      reads this
    {
      forall c :: c in instances ==> instances[c].config == c && instances[c].Valid()
    }

    constructor ()
      ensures Valid() && instances == map[]
    {
      instances := map[];
    }

    /** `getInstance(config)`: the registered manager on a hit, constructing
        nothing; on a miss a freshly constructed and loaded manager, registered
        only once its construction has succeeded. A failed construction leaves
        the registry as it was and throws IllegalStateException. */
    method GetInstance(config: ConfigId, store: ResourceStore, bus: Broadcaster,
                       keyOf: string -> string, logic: RecordLogic)
      returns (r: Result<TableACLManager, InitError>, ghost loaded: seq<string>)
      requires Valid()
      modifies this, bus
      ensures Valid()
      ensures bus.outbox == old(bus.outbox)
      ensures config in old(instances) ==>
        r == Success(old(instances[config])) && instances == old(instances) && bus.listeners == old(bus.listeners)
      ensures config !in old(instances) && r.Success? ==>
        && instances == old(instances)[config := r.value]
        && fresh(r.value) && fresh(r.value.tableACLMap) && r.value.Valid()
        && r.value.config == config && r.value.store == store && r.value.bus == bus
        && r.value.logic == logic && r.value.tableACLMap.keyOf == keyOf
        && (forall p :: p in loaded <==> Path(p) in store.resources)
        && r.value.tableACLMap.entries == Reloaded(map[], loaded, keyOf, store.resources)
        && |bus.listeners| == |old(bus.listeners)| + 1
        && bus.listeners[..|old(bus.listeners)|] == old(bus.listeners)
        && bus.listeners[|old(bus.listeners)|].listener.manager == r.value
        && bus.listeners[|old(bus.listeners)|].entity == TABLE_ACL
      ensures r.Failure? ==>
        && config !in old(instances) && r.error.config == config
        && instances == old(instances) && bus.listeners == old(bus.listeners)
    {
      loaded := [];
      if config in instances {
        return Success(instances[config]), loaded;
      }
      var created;
      created, loaded := TableACLManager.Create(config, store, bus, keyOf, logic);
      if created.Failure? {
        return Failure(IllegalState(config, created.error)), loaded;
      }
      instances := instances[config := created.value];
      r := Success(created.value);
    }

    /** `clearCache()`: forgets every manager. */
    method ClearCache()
      modifies this
      ensures Valid() && instances == map[]
    {
      instances := map[];
    }

    /** `clearCache(config)`: forgets the manager of `config`, if any; a null
        configuration changes nothing. */
    method ClearCacheFor(config: Option<ConfigId>)
      requires Valid()
      modifies this
      ensures Valid()
      ensures config.None? ==> instances == old(instances)
      ensures config.Some? ==> config.value !in instances && instances == old(instances) - {config.value}
    {
      if config.Some? {
        instances := instances - {config.value};
      }
    }
  }
}
