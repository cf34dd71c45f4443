/** Table access-control records, the store paths that hold them, and the pure
    functions that say what the manager reads from the store and what its cache
    holds after a load. */
module TableAcl {
  import opened Wrappers

  /** A per-project record: for each user, the tables that user is denied.
      `None` is a stored record whose blacklist field is null. */
  datatype TableACL = TableACL(userTableBlackList: Option<map<string, set<string>>>)

  /** The record `new TableACL()` yields: a present, empty blacklist. */
  const EMPTY: TableACL := TableACL(Some(map[]))

  /** The record operations of `TableACL` (add a table to a user's blacklist,
      remove one table from a user, remove a user, remove a table from every
      user). Their code is not part of this model, so they are kept as values. */
  datatype RecordLogic = RecordLogic(
    add: (TableACL, string, string) -> TableACL,
    deleteTable: (TableACL, string, string) -> TableACL,
    deleteUser: (TableACL, string) -> TableACL,
    deleteByTbl: (TableACL, string) -> TableACL)

  /** The store folder listed at startup. */
  const ACL_FOLDER: string := "/table_acl"

  /** The prefix of every record's path; eleven characters long. */
  const DIR_PREFIX: string := "/table_acl/"

  /** The entity name of the record cache and of its change events. */
  const TABLE_ACL: string := "table_acl"

  /** The paths the startup load turns back into project names. */
  predicate IsAclPath(path: string) {
    DIR_PREFIX <= path
  }

  /** The store path of a project's record. */
  function Path(project: string): (path: string)
    ensures IsAclPath(path) && path[|DIR_PREFIX|..] == project
  {
    DIR_PREFIX + project
  }


  /** `path.substring(prefixLen, path.length())`: the project named by a path.
      Java throws for a path shorter than the prefix, hence the precondition. */
  function ProjectOf(path: string): (project: string)
    requires |DIR_PREFIX| <= |path|
    ensures path == path[..|DIR_PREFIX|] + project
  {
    path[|DIR_PREFIX|..]
  }

  /** Stripping the prefix from a project's path gives the project back. */
  lemma ProjectOfPath(project: string)
    ensures IsAclPath(Path(project))
    ensures ProjectOf(Path(project)) == project
  {
  }

  /** Every listed path is the path of the project read from it. */
  lemma PathOfProject(path: string)
    requires IsAclPath(path)
    ensures Path(ProjectOf(path)) == path
  {
  }

  /** Distinct projects live at distinct paths. */
  lemma PathInjective(p: string, q: string)
    ensures Path(p) == Path(q) <==> p == q
  {
    if Path(p) == Path(q) {
      ProjectOfPath(p);
      ProjectOfPath(q);
    }
  }

  /** The record `getTableACL(project)` returns when its store read succeeds:
      the default empty record when nothing is stored at the project's path or
      the stored blacklist is null, and otherwise the stored record. */
  function EffectiveACL(resources: map<string, TableACL>, project: string): (r: TableACL)
    ensures r.userTableBlackList.Some?
    ensures r == EMPTY || (Path(project) in resources && r == resources[Path(project)])
    ensures Path(project) !in resources ==> r == EMPTY
  {
    var path := Path(project);
    if path !in resources || resources[path].userTableBlackList.None? then EMPTY
    else resources[path]
  }

  /** Writing a record at a project's path changes what that project reads
      (to the record, or to the default when its blacklist is null) and what
      no other project reads. */
  lemma ReadAfterWrite(resources: map<string, TableACL>, project: string, written: TableACL, other: string)
    ensures EffectiveACL(resources[Path(project) := written], project)
            == if written.userTableBlackList.Some? then written else EMPTY
    ensures other != project ==>
            EffectiveACL(resources[Path(project) := written], other) == EffectiveACL(resources, other)
  {
    PathInjective(project, other);
  }

  /** The cache `entries` after `putLocal(p, getTableACL(p))` for each `p` of
      `projects` in order, the cache keying each project through `keyOf`. */
  function Reloaded(entries: map<string, TableACL>, projects: seq<string>,
                    keyOf: string -> string, resources: map<string, TableACL>): (r: map<string, TableACL>)
    ensures r.Keys == entries.Keys + set p | p in projects :: keyOf(p)
    decreases |projects|
  {
    if projects == [] then entries
    else
      var n := |projects| - 1;
      assert projects == projects[..n] + [projects[n]];
      Reloaded(entries, projects[..n], keyOf, resources)[keyOf(projects[n]) := EffectiveACL(resources, projects[n])]
  }

  /** A loaded project that shares its cache key with no other loaded project
      ends up cached with exactly what the store holds for it. */
  lemma {:induction false} ReloadedEntry(entries: map<string, TableACL>, projects: seq<string>,
                                          keyOf: string -> string, resources: map<string, TableACL>,
                                          project: string)
    requires project in projects
    requires forall q :: q in projects && keyOf(q) == keyOf(project) ==> q == project
    ensures keyOf(project) in Reloaded(entries, projects, keyOf, resources)
    ensures Reloaded(entries, projects, keyOf, resources)[keyOf(project)] == EffectiveACL(resources, project)
  {
    var n := |projects| - 1;
    if projects[n] != project {
      var i :| 0 <= i < |projects| && projects[i] == project;
      assert projects[..n][i] == project;
      ReloadedEntry(entries, projects[..n], keyOf, resources, project);
    }
  }

  /** A cache key that no loaded project maps to keeps its earlier entry. */
  lemma {:induction false} ReloadedUntouched(entries: map<string, TableACL>, projects: seq<string>,
                                              keyOf: string -> string, resources: map<string, TableACL>,
                                              key: string)
    requires forall q :: q in projects ==> keyOf(q) != key
    ensures key in Reloaded(entries, projects, keyOf, resources) <==> key in entries
    ensures key in entries ==> Reloaded(entries, projects, keyOf, resources)[key] == entries[key]
  {
    if projects != [] {
      var n := |projects| - 1;
      assert projects[n] in projects;
      ReloadedUntouched(entries, projects[..n], keyOf, resources, key);
    }
  }

  /** One more `putLocal(p, getTableACL(p))` extends the reload by `p`. */
  lemma ReloadedSnoc(entries: map<string, TableACL>, projects: seq<string>,
                     keyOf: string -> string, resources: map<string, TableACL>, project: string)
    ensures Reloaded(entries, projects + [project], keyOf, resources)
            == Reloaded(entries, projects, keyOf, resources)[keyOf(project) := EffectiveACL(resources, project)]
  {
  }
}
