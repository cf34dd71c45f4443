# Table ACL manager: a verified model

This project models Apache Kylin's `TableACLManager`. The manager keeps a cache
of per-project table access-control records, and each record lists which tables
each user is denied. The records live in Kylin's resource store. The model covers
four parts:

- **The registry.** A static map from configuration to manager. `getInstance`
  returns the registered manager on a hit. On a miss it constructs a manager,
  loads it and registers it. `clearCache` forgets managers.
- **Reads.** `getTableACLByCache` reads only the cache. It falls back to a new
  empty record. `getTableACL` reads only the store path `"/table_acl/" + project`.
  It falls back to the empty record when that path is absent or its blacklist is null.
- **The write-through mutations.** `addTableACL`, the two `deleteTableACL`
  overloads and `deleteTableACLByTbl` all take four steps. They read the base
  record from the store, not the cache. They apply their record operation and
  write the result to the store. Only then do they `put` it in the cache, which
  announces one change event.
- **Load and reconciliation.** Construction lists `/table_acl` and strips the
  11-character prefix `"/table_acl/"` from each path. It reloads each project
  with `putLocal`, which announces nothing, and then registers the sync
  listener. The listener re-reads one project on an entity change. On clear-all
  it empties the registry.

Files:

- `wrappers.dfy` (module `Wrappers`): `Option` for Java's null; `Result` and
  `Outcome` for calls that may throw.
- `table_acl.dfy` (module `TableAcl`): the record value, the path functions and
  the pure specification functions. `EffectiveACL` is what `getTableACL` returns.
  `Reloaded` is the cache after the load loop. The module also holds the lemmas
  about these functions.
- `resource_store.dfy` (module `ResourceStores`): the store, as a map from path to
  record. Any of its calls may throw `IOException`. The model makes that choice
  nondeterministically.
- `table_acl_manager.dfy` (module `TableACLManagers`): the broadcaster, the record
  cache, the manager, its sync listener and the registry. These are classes whose
  methods update their fields.

The cache and the store are "coherent" on a project when `getTableACLByCache`
and `getTableACL` return the same record for it (`TableACLManager.Coherent`).
These operations establish coherence:

- `reloadTableACL`, and so every listener update, does whenever its store read succeeds.
- A successful mutation does whenever the record it wrote has a non-null blacklist.
- After the load, every stored project has a cache entry equal to what
  `getTableACL` returns for it. This holds when no two stored projects share a cache key
  (`ReloadedEntry`). Key collisions are possible because the cache is
  case-insensitive and store paths are not. With a collision, the project listed
  last wins.

## Model

| member | source | states |
|---|---|---|
| `TableACLManagers.ManagerRegistry.constructor` | core-metadata/src/main/java/org/apache/kylin/metadata/acl/TableACLManager.java:45 | the static registry starts empty |
| `TableACLManagers.ManagerRegistry.GetInstance` | core-metadata/src/main/java/org/apache/kylin/metadata/acl/TableACLManager.java:47-69 | hit: returns the registered manager and changes nothing. Successful miss: registers a fresh manager under `config` and leaves other entries alone. The manager's cache is keyed through the given `keyOf`, holds `Reloaded` over exactly the stored projects, and uses the given record operations. One "table_acl" listener for it is appended after the earlier registrations. Failed construction: registry and listeners unchanged, `IllegalState` raised for `config` |
| `TableACLManagers.ManagerRegistry.ClearCache` | core-metadata/src/main/java/org/apache/kylin/metadata/acl/TableACLManager.java:71-73 | the registry is empty afterwards |
| `TableACLManagers.ManagerRegistry.ClearCacheFor` | core-metadata/src/main/java/org/apache/kylin/metadata/acl/TableACLManager.java:75-78 | a null argument changes nothing; otherwise exactly that configuration's entry is removed |
| `TableACLManagers.TableACLManager.constructor` | core-metadata/src/main/java/org/apache/kylin/metadata/acl/TableACLManager.java:86-89 | keeps the configuration; a fresh, empty cache keyed through the supplied `keyOf`, under entity "table_acl" on the manager's broadcaster |
| `TableACLManagers.TableACLManager.Create` | core-metadata/src/main/java/org/apache/kylin/metadata/acl/TableACLManager.java:86-92 | construction loads every stored project without announcing anything. Only after a successful load is one listener for "table_acl" registered that points back to the new manager. A failed load registers nothing |
| `TableACLManagers.TableACLSyncListener.constructor` | core-metadata/src/main/java/org/apache/kylin/metadata/acl/TableACLManager.java:91 | the listener points back to its manager |
| `TableACLManagers.TableACLSyncListener.OnClearAll` | core-metadata/src/main/java/org/apache/kylin/metadata/acl/TableACLManager.java:96-98 | empties the registry; the manager's record cache is unchanged |
| `TableACLManagers.TableACLSyncListener.OnEntityChange` | core-metadata/src/main/java/org/apache/kylin/metadata/acl/TableACLManager.java:101-103 | only the changed key's entry is re-read from the store. Cache and store then agree on it, and nothing is announced. A failed read leaves the cache unchanged |
| `TableACLManagers.TableACLManager.GetTableACLByCache` | core-metadata/src/main/java/org/apache/kylin/metadata/acl/TableACLManager.java:114-120 | the cached record when there is one, otherwise the empty record. It reads only the cache |
| `TableACLManagers.TableACLManager.LoadAllTableACL` | core-metadata/src/main/java/org/apache/kylin/metadata/acl/TableACLManager.java:122-131 | the projects loaded are exactly those with a record in the store. The cache becomes `Reloaded` over them, in listing order, and nothing is announced |
| `TableACLManagers.TableACLManager.ReloadTableACL` | core-metadata/src/main/java/org/apache/kylin/metadata/acl/TableACLManager.java:133-136 | only the project's cache key changes, to what `getTableACL` returns for it, so cache and store agree. No event is announced. A failed read changes nothing |
| `TableACLManagers.TableACLManager.GetTableACL` | core-metadata/src/main/java/org/apache/kylin/metadata/acl/TableACLManager.java:138-145 | on success, `EffectiveACL` of the store for the project. A failure is an I/O error on exactly `"/table_acl/" + project` |
| `TableACLManagers.TableACLManager.WriteThrough` | core-metadata/src/main/java/org/apache/kylin/metadata/acl/TableACLManager.java:147-152 | the shared mutation protocol. The base comes from the store. On success the new record is at the project's path and in the cache, exactly one change event is announced, and no other path or key changes. On failure nothing changes |
| `TableACLManagers.TableACLManager.AddTableACL` | core-metadata/src/main/java/org/apache/kylin/metadata/acl/TableACLManager.java:147-152 | `WroteThrough` of `add(base, user, table)`, where the base is what `getTableACL` returns; the cache then reads that record |
| `TableACLManagers.TableACLManager.DeleteTableACL` | core-metadata/src/main/java/org/apache/kylin/metadata/acl/TableACLManager.java:154-159 | `WroteThrough` of `delete(base, user, table)`, where the base is what `getTableACL` returns; the cache then reads that record |
| `TableACLManagers.TableACLManager.DeleteUserTableACL` | core-metadata/src/main/java/org/apache/kylin/metadata/acl/TableACLManager.java:161-166 | `WroteThrough` of `delete(base, user)`, where the base is what `getTableACL` returns; the cache then reads that record |
| `TableACLManagers.TableACLManager.DeleteTableACLByTbl` | core-metadata/src/main/java/org/apache/kylin/metadata/acl/TableACLManager.java:168-173 | `WroteThrough` of `deleteByTbl(base, table)`, where the base is what `getTableACL` returns; the cache then reads that record |
| `TableACLManagers.RecordCache.constructor` | core-metadata/src/main/java/org/apache/kylin/metadata/acl/TableACLManager.java:89 | the record cache starts empty |
| `TableACLManagers.RecordCache.Get` | core-metadata/src/main/java/org/apache/kylin/metadata/acl/TableACLManager.java:115 | a record exactly when the project's cache key has an entry, and then that entry |
| `TableACLManagers.RecordCache.PutLocal` | core-metadata/src/main/java/org/apache/kylin/metadata/acl/TableACLManager.java:135 | only the key's entry changes, and the outbox is unchanged (a local put never broadcasts) |
| `TableACLManagers.RecordCache.Put` | core-metadata/src/main/java/org/apache/kylin/metadata/acl/TableACLManager.java:151 | only the key's entry changes, and exactly one change event for that key is appended to the outbox |
| `TableACLManagers.Broadcaster.RegisterListener` | core-metadata/src/main/java/org/apache/kylin/metadata/acl/TableACLManager.java:91 | appends one registration and sends nothing |
| `TableACLManagers.Broadcaster.Announce` | core-metadata/src/main/java/org/apache/kylin/metadata/acl/TableACLManager.java:151 | appends exactly one change event |
| `ResourceStores.ResourceStore.GetResource` | core-metadata/src/main/java/org/apache/kylin/metadata/acl/TableACLManager.java:140 | a successful read returns the record at the path, or null exactly when the path is absent. A failure names the path |
| `ResourceStores.ResourceStore.PutResource` | core-metadata/src/main/java/org/apache/kylin/metadata/acl/TableACLManager.java:150 | success replaces only that path; failure leaves the store unchanged |
| `ResourceStores.ResourceStore.CollectResourceRecursively` | core-metadata/src/main/java/org/apache/kylin/metadata/acl/TableACLManager.java:124 | a successful listing holds exactly the stored paths under the folder |
| `TableAcl.Path` | core-metadata/src/main/java/org/apache/kylin/metadata/acl/TableACLManager.java:139 | the path of a project lies under the prefix, and what follows the prefix is the project |
| `TableAcl.ProjectOf` | core-metadata/src/main/java/org/apache/kylin/metadata/acl/TableACLManager.java:125-127 | the path is its first 11 characters followed by the project name |
| `TableAcl.ProjectOfPath` | core-metadata/src/main/java/org/apache/kylin/metadata/acl/TableACLManager.java:125-127 | stripping the prefix from `"/table_acl/" + p` gives back `p` |
| `TableAcl.PathOfProject` | core-metadata/src/main/java/org/apache/kylin/metadata/acl/TableACLManager.java:125-127 | every path under the prefix is the path of the project stripped from it |
| `TableAcl.PathInjective` | core-metadata/src/main/java/org/apache/kylin/metadata/acl/TableACLManager.java:139 | two projects share a path only if they are the same project |
| `TableAcl.EffectiveACL` | core-metadata/src/main/java/org/apache/kylin/metadata/acl/TableACLManager.java:138-145 | never has a null blacklist. It is the empty record when the path is absent, and otherwise the empty record or exactly the stored record |
| `TableAcl.ReadAfterWrite` | core-metadata/src/main/java/org/apache/kylin/metadata/acl/TableACLManager.java:138-150 | after a write at a project's path, that project reads back the written record, or the empty record when its blacklist is null. Every other project reads what it did before |
| `TableAcl.Reloaded` | core-metadata/src/main/java/org/apache/kylin/metadata/acl/TableACLManager.java:126-129 | the keys after the load are the old keys plus the cache key of every loaded project |
| `TableAcl.ReloadedEntry` | core-metadata/src/main/java/org/apache/kylin/metadata/acl/TableACLManager.java:126-135 | a loaded project that shares its cache key with no other loaded project is cached with what `getTableACL` returns for it |
| `TableAcl.ReloadedUntouched` | core-metadata/src/main/java/org/apache/kylin/metadata/acl/TableACLManager.java:126-135 | a key that no loaded project maps to keeps its old entry, or stays absent |
| `TableAcl.ReloadedSnoc` | core-metadata/src/main/java/org/apache/kylin/metadata/acl/TableACLManager.java:126-135 | reloading one more project is one more `putLocal` of what `getTableACL` returns for it |

## Left out

- Concurrency: the `synchronized` block, `ConcurrentHashMap` and races between
  mutations. `getInstance` is modelled as one sequential check-then-construct. The
  second lookup inside the lock therefore always agrees with the first and is not
  written out. Lost updates between concurrent mutations are not modelled.
- The `TableACL` record operations (`add`, `delete(user, table)`, `delete(user)`,
  `deleteByTbl`) and the record's JSON encoding: that code is not part of this
  model. The operations are function values in `RecordLogic`, so properties that
  depend on them (such as delete idempotence) are not stated.
- The case folding of `CaseInsensitiveStringCache`: that class is not part of this
  model. The cache keys entries through a function `keyOf` supplied at
  construction.
- Store internals: persistence, the serializer and the `System.currentTimeMillis()`
  timestamp passed to `putResource` (dropped). Which calls fail is a
  nondeterministic choice. The order of the listing is left open.
- `Broadcaster` delivery, ordering and the event kind (create/update/drop). The
  model records announced events in an outbox and registrations in a list.
  Listener callbacks are invoked directly.
- `ResourceStore.getStore(config)` and `Broadcaster.getInstance(config)` are
  calls into code that is not part of this model. `getInstance` takes the store
  and broadcaster of the configuration as parameters. It also takes the key
  folding and record operations as parameters.
- Object identity and aliasing of records. Records are values, so `new TableACL()`
  and the cached record returned by `getTableACLByCache` cannot be told apart from
  copies.
- Logging, `getConfig` and `getStore`, and the warning when more than one
  singleton exists.
- `TableAcl.ProjectOf`: its precondition rules out the
  StringIndexOutOfBoundsException that `substring` throws for a path shorter
  than the 11-character prefix. That exception is unchecked, so in Java it would
  escape `getInstance` without being wrapped in IllegalStateException. The model
  never meets it only because the store's listing is taken to return paths under
  `"/table_acl/"` alone (`ResourceStore.CollectResourceRecursively`).
- `TableACLManagers.TableACLManager.LoadAllTableACL`: after a failed read part-way
  through the listing, the model says nothing about the cache of the half-built
  manager. That manager is discarded by `getInstance`.
