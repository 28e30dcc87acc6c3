/**
 * `RepositoryMixin`'s registry: the `available` and `excluded` repository tables, the priority
 * `order`, the validated `_enabled_repos`, the connection cache keyed by `(repoid, systemroot)`,
 * the in-memory (temporary) repositories and the once-per-id warning set.
 *
 * A database connection is an abstract `Handle`; opening a repository's database file, and
 * `validateDatabase` on it, are answered by an `Env` of file-system facts.
 */
module Registry {
  import opened Wrappers
  import opened Text
  import opened Seqs
  import opened RepoLines
  import opened RepoConf

  /** `etpConst['clientdbid']`: the id under which the installed-packages repository is opened. */
  const ClientDbId: string := "client"

  /** An open database connection; `serial` tells connections apart. */
  datatype Handle = Handle(serial: nat)

  /** `(repoid, etpConst['systemroot'])`. */
  type CacheKey = (string, string)

  function Key(id: string, root: string): CacheKey {
    (id, root)
  }

  /** One entry of `SystemSettings['repositories']['available']`. */
  datatype RepoMeta = RepoMeta(
    description: string,
    packages: seq<string>,
    dbpath: Option<string>,
    pkgpath: Option<string>,
    smartpackage: Option<bool>,
    temporary: bool,
    dbrevision: Option<string>)

  /** What `add_repository` receives: the entry fields plus the dynamic-repository extras. */
  datatype RepoData = RepoData(
    entry: EntryData,
    packages: seq<string>,
    dbpath: Option<string>,
    pkgpath: Option<string>,
    smartpackage: Option<bool>,
    temporary: bool)

  /**
   * The file system as the registry sees it: which repositories' database files exist, which
   * databases fail `listConfigProtectEntries`/`validateDatabase`, and whether the repositories
   * configuration file and the order file can be written.
   */
  datatype Env = Env(downloaded: set<string>, corrupted: set<string>, confWritable: bool)

  datatype RepoError = BadRepositoryId | NotDownloaded

  /** A dynamic repository (a package file, or a temporary in-memory one) is never saved to the file. */
  predicate IsDynamic(data: RepoData) {
    EndsWith(data.entry.repoid, PackagesExtension) || data.temporary
  }

  /** The table entry `add_repository` creates; a saved repository only gets its description. */
  function MetaOf(data: RepoData): RepoMeta {
    if IsDynamic(data) then
      RepoMeta(data.entry.description, data.packages, data.dbpath, data.pkgpath, data.smartpackage,
        data.temporary, None)
    else RepoMeta(data.entry.description, [], None, None, None, false, None)
  }

  /** `load_repository_database` finds the database: a known id, in memory or downloaded. */
  predicate Loadable(id: string, available: map<string, RepoMeta>, env: Env) {
    id in available && (available[id].temporary || id in env.downloaded)
  }

  /**
   * Whether `validate_repositories` keeps `id`: it opens (the installed repository, a cached
   * connection, or a loadable database) and the database validates.
   */
  function Accepted(cached: set<CacheKey>, root: string, available: map<string, RepoMeta>, env: Env): string -> bool {
    id => (id == ClientDbId || Key(id, root) in cached || Loadable(id, available, env)) && id !in env.corrupted
  }

  /** `get_repository_revision` on the revision file's contents (`None`: absent or unreadable). */
  function RevisionOf(file: Option<string>): int {
    if file.None? then -1
    else match ParseInt(FirstLine(file.value))
      case Some(v) => v
      case None => -1
  }

  /** `update_repository_revision`'s `dbrevision`: `"0"` for the -1 sentinel, else `str(r)`. */
  function DbRevision(r: int): string {
    if r == -1 then "0" else IntToString(r)
  }

  /** `shift_repository`'s new order: remove the id, then insert it at `toidx`. */
  function ShiftOrder(order: seq<string>, id: string, toidx: int): seq<string> {
    Insert(RemoveFirst(order, id), toidx, id)
  }

  /**
   * The registry's handles are consistent: every handle was issued before `nextSerial`; the
   * installed repository and the in-memory ones are open; no two in-memory keys share a handle;
   * a cached connection that is not in memory is neither the installed repository nor an
   * in-memory one; a temporary repository has its in-memory instance.
   */
  ghost predicate Registered(installed: Handle, closed: set<Handle>, memory: map<CacheKey, Handle>,
                             cache: map<CacheKey, Handle>, available: map<string, RepoMeta>, root: string,
                             nextSerial: nat) {
    installed.serial < nextSerial && installed !in closed &&
    (forall h | h in closed :: h.serial < nextSerial) &&
    (forall k | k in memory :: memory[k].serial < nextSerial && memory[k] !in closed && memory[k] != installed) &&
    (forall k1, k2 | k1 in memory && k2 in memory && k1 != k2 :: memory[k1] != memory[k2]) &&
    (forall k | k in cache :: cache[k].serial < nextSerial) &&
    (forall k | k in cache && k !in memory :: cache[k] != installed && cache[k] !in memory.Values) &&
    (forall id | id in available && available[id].temporary :: Key(id, root) in memory)
  }

  /** Closing the cached connections that are not in memory, then emptying the cache, keeps the registry consistent. */
  lemma CloseKeepsRegistered(installed: Handle, closed: set<Handle>, memory: map<CacheKey, Handle>,
                             cache: map<CacheKey, Handle>, available: map<string, RepoMeta>, root: string,
                             nextSerial: nat, closing: set<Handle>)
    requires Registered(installed, closed, memory, cache, available, root, nextSerial)
    requires closing == ClosedOf(cache, memory, {})
    ensures Registered(installed, closed + closing, memory, map[], available, root, nextSerial)
    ensures closing == set k | k in cache && k !in memory :: cache[k]
  {
    forall h | h in closing ensures h.serial < nextSerial && h != installed && h !in memory.Values {
      var k :| k in cache && k !in memory && cache[k] == h;
    }
  }

  /** The connections `close_all_repositories` has closed once the keys still to visit are `todo`. */
  function ClosedOf(cache: map<CacheKey, Handle>, memory: map<CacheKey, Handle>, todo: set<CacheKey>): set<Handle> {
    set k | k in cache && k !in todo && k !in memory :: cache[k]
  }

  lemma ClosedOfStep(cache: map<CacheKey, Handle>, memory: map<CacheKey, Handle>, todo: set<CacheKey>, k: CacheKey)
    requires k in todo && k in cache
    ensures ClosedOf(cache, memory, todo - {k}) ==
      ClosedOf(cache, memory, todo) + (if k !in memory then {cache[k]} else {})
  {
  }

  /** The loop of `close_all_repositories`: `closeDB` on every cached connection that is not in memory. */
  method CloseConnections(cache: map<CacheKey, Handle>, memory: map<CacheKey, Handle>) returns (closing: set<Handle>)
    ensures closing == ClosedOf(cache, memory, {})
  {
    var keys := cache.Keys;
    closing := {};
    while keys != {}
      invariant keys <= cache.Keys
      invariant closing == ClosedOf(cache, memory, keys)
      decreases keys
    {
      var k :| k in keys;
      ClosedOfStep(cache, memory, keys, k);
      if k !in memory {
        closing := closing + {cache[k]};
      }
      keys := keys - {k};
    }
  }

  class RepositoryClient {
    var available: map<string, RepoMeta>
    var excluded: map<string, RepoMeta>
    var order: seq<string>
    var enabledRepos: seq<string>
    var repodbCache: map<CacheKey, Handle>
    var memoryDbInstances: map<CacheKey, Handle>
    var repoErrorMessages: set<string>
    /** The ids the "bad repository id" / "not downloaded yet" warning has been printed for. */
    var warnings: seq<string>
    /** Where `warnings` stood when `repoErrorMessages` was last cleared. */
    ghost var warningsStart: nat
    var closed: set<Handle>
    var nextSerial: nat
    const installed: Handle
    const systemRoot: string
    const conf: RepositoriesConf

    ghost predicate Valid()
      reads this
    {
      Registered(installed, closed, memoryDbInstances, repodbCache, available, systemRoot, nextSerial) &&
      WarnedOnce()
    }

    /** Since the set was last cleared, each id has been warned about at most once, and is in the set. */
    ghost predicate WarnedOnce()
      reads this
    {
      warningsStart <= |warnings| &&
      (forall i | warningsStart <= i < |warnings| :: warnings[i] in repoErrorMessages) &&
      (forall i, j | warningsStart <= i < j < |warnings| :: warnings[i] != warnings[j])
    }

    constructor (root: string, installedHandle: Handle, configuration: RepositoriesConf,
      avail: map<string, RepoMeta>, excl: map<string, RepoMeta>, initialOrder: seq<string>)
      requires forall id | id in avail :: !avail[id].temporary
      ensures Valid()
      ensures available == avail && excluded == excl && order == initialOrder
      ensures enabledRepos == [] && repodbCache == map[] && memoryDbInstances == map[]
      ensures systemRoot == root && installed == installedHandle && conf == configuration
    {
      systemRoot := root;
      installed := installedHandle;
      conf := configuration;
      available := avail;
      excluded := excl;
      order := initialOrder;
      enabledRepos := [];
      repodbCache := map[];
      memoryDbInstances := map[];
      repoErrorMessages := {};
      warnings := [];
      warningsStart := 0;
      closed := {};
      nextSerial := installedHandle.serial + 1;
    }

    /**
     * `is_repository_connection_cached`: the id has a connection under its cache key, which is
     * then a handle the registry issued.
     */
    function IsRepositoryConnectionCached(id: string): (cached: bool)
      reads this
      ensures cached <==> Key(id, systemRoot) in repodbCache
      ensures cached && Valid() ==> repodbCache[Key(id, systemRoot)].serial < nextSerial
    {
      Key(id, systemRoot) in repodbCache
    }

    /** `get_repository_settings`: the available entry, else the excluded one, else `KeyError`. */
    function GetRepositorySettings(id: string): (r: Option<RepoMeta>)
      reads this
      ensures r.Some? <==> id in available || id in excluded
      ensures id in available ==> r == Some(available[id])
      ensures id !in available && id in excluded ==> r == Some(excluded[id])
    {
      if id in available then Some(available[id])
      else if id in excluded then Some(excluded[id])
      else None
    }

    /** `get_repository_revision`: `None` stands for the `KeyError` of an unknown id. */
    function GetRepositoryRevision(id: string, revisionFile: Option<string>): (r: Option<int>)
      reads this
      ensures r.Some? <==> id in available
      ensures r.Some? && revisionFile.None? ==> r.value == -1
      ensures r.Some? && revisionFile.Some? && ParseInt(FirstLine(revisionFile.value)).None? ==> r.value == -1
      ensures r.Some? && revisionFile.Some? && ParseInt(FirstLine(revisionFile.value)).Some? ==>
                r.value == ParseInt(FirstLine(revisionFile.value)).value
    {
      if id in available then Some(RevisionOf(revisionFile)) else None
    }

    /** Emits the rate-limited warning for `id` and records it. */
    method WarnOnce(id: string)
      requires Valid()
      modifies this
      ensures Valid()
      ensures repoErrorMessages == old(repoErrorMessages) + {id}
      ensures warnings == old(warnings) + (if id in old(repoErrorMessages) then [] else [id])
      ensures available == old(available) && excluded == old(excluded) && order == old(order)
      ensures enabledRepos == old(enabledRepos) && repodbCache == old(repodbCache)
      ensures memoryDbInstances == old(memoryDbInstances) && closed == old(closed)
      ensures nextSerial == old(nextSerial) && warningsStart == old(warningsStart)
    {
      if id !in repoErrorMessages {
        warnings := warnings + [id];
        repoErrorMessages := repoErrorMessages + {id};
      }
    }

    /**
     * `load_repository_database`: an unknown id or a missing database file raises
     * `RepositoryError` (warning once per id); a temporary repository gives its in-memory
     * instance; otherwise a new connection to the database file.
     */
    method LoadRepositoryDatabase(id: string, env: Env) returns (r: Result<Handle, RepoError>)
      requires Valid()
      modifies this
      ensures Valid()
      ensures r.Ok? <==> Loadable(id, available, env)
      ensures id !in available ==> r == Err(BadRepositoryId)
      ensures r.Ok? && available[id].temporary ==> r.value == memoryDbInstances[Key(id, systemRoot)]
      ensures r.Ok? && !available[id].temporary ==>
        r.value == Handle(old(nextSerial)) && nextSerial == old(nextSerial) + 1
      ensures r.Err? || available[id].temporary ==> nextSerial == old(nextSerial)
      ensures repoErrorMessages == old(repoErrorMessages) + (if r.Err? then {id} else {})
      ensures warnings == old(warnings) + (if r.Err? && id !in old(repoErrorMessages) then [id] else [])
      ensures available == old(available) && excluded == old(excluded) && order == old(order)
      ensures enabledRepos == old(enabledRepos) && repodbCache == old(repodbCache)
      ensures memoryDbInstances == old(memoryDbInstances) && closed == old(closed)
      ensures warningsStart == old(warningsStart)
    {
      if id !in available {
        WarnOnce(id);
        return Err(BadRepositoryId);
      }
      if available[id].temporary {
        return Ok(memoryDbInstances[Key(id, systemRoot)]);
      }
      if id !in env.downloaded {
        WarnOnce(id);
        return Err(NotDownloaded);
      }
      r := Ok(Handle(nextSerial));
      nextSerial := nextSerial + 1;
    }

    /**
     * `open_repository`: the installed repository for the client id; otherwise the cached
     * connection, or a freshly loaded one that is then cached under its key.
     */
    method OpenRepository(id: string, env: Env) returns (r: Result<Handle, RepoError>)
      requires Valid()
      modifies this
      ensures Valid()
      ensures r.Ok? <==>
        id == ClientDbId || Key(id, systemRoot) in old(repodbCache) || Loadable(id, available, env)
      ensures id == ClientDbId ==> r == Ok(installed) && repodbCache == old(repodbCache)
      ensures id != ClientDbId && Key(id, systemRoot) in old(repodbCache) ==>
        r == Ok(old(repodbCache)[Key(id, systemRoot)]) && repodbCache == old(repodbCache)
      ensures id != ClientDbId && Key(id, systemRoot) !in old(repodbCache) ==>
        repodbCache == if r.Ok? then old(repodbCache)[Key(id, systemRoot) := r.value] else old(repodbCache)
      ensures r.Ok? && id != ClientDbId ==> IsRepositoryConnectionCached(id)
      ensures available == old(available) && excluded == old(excluded) && order == old(order)
      ensures enabledRepos == old(enabledRepos)
      ensures memoryDbInstances == old(memoryDbInstances) && closed == old(closed)
      ensures warningsStart == old(warningsStart)
    {
      if id == ClientDbId {
        return Ok(installed);
      }
      var key := Key(id, systemRoot);
      if key !in repodbCache {
        r := LoadRepositoryDatabase(id, env);
        if r.Ok? {
          repodbCache := repodbCache[key := r.value];
        }
        return;
      }
      r := Ok(repodbCache[key]);
    }

    /**
     * `close_all_repositories`: every cached connection except the in-memory ones is closed,
     * then the cache is emptied; in-memory repositories stay open.
     */
    method CloseAllRepositories()
      requires Valid()
      modifies this
      ensures Valid()
      ensures repodbCache == map[]
      ensures closed == old(closed) +
        set k | k in old(repodbCache) && k !in memoryDbInstances :: old(repodbCache)[k]
      ensures forall k | k in memoryDbInstances :: memoryDbInstances[k] !in closed
      ensures available == old(available) && excluded == old(excluded) && order == old(order)
      ensures enabledRepos == old(enabledRepos) && memoryDbInstances == old(memoryDbInstances)
      ensures repoErrorMessages == old(repoErrorMessages) && warnings == old(warnings)
      ensures nextSerial == old(nextSerial) && warningsStart == old(warningsStart)
    {
      var closing := CloseConnections(repodbCache, memoryDbInstances);
      CloseKeepsRegistered(installed, closed, memoryDbInstances, repodbCache, available, systemRoot, nextSerial, closing);
      closed := closed + closing;
      repodbCache := map[];
    }

    /** One round of `validate_repositories`' loop: open `id`, and keep it if it opened and validated. */
    method ValidateOne(id: string, env: Env, ghost before: set<CacheKey>)
      requires Valid()
      requires before <= repodbCache.Keys
      requires forall x {:trigger Key(x, systemRoot)} :: Key(x, systemRoot) in repodbCache ==>
        Key(x, systemRoot) in before || Loadable(x, available, env)
      modifies this
      ensures Valid()
      ensures before <= repodbCache.Keys
      ensures forall x {:trigger Key(x, systemRoot)} :: Key(x, systemRoot) in repodbCache ==>
        Key(x, systemRoot) in before || Loadable(x, available, env)
      ensures enabledRepos ==
        old(enabledRepos) + if Accepted(before, systemRoot, available, env)(id) then [id] else []
      ensures available == old(available) && excluded == old(excluded) && order == old(order)
      ensures memoryDbInstances == old(memoryDbInstances) && closed == old(closed)
      ensures warningsStart == old(warningsStart)
    {
      var r := OpenRepository(id, env);
      assert r.Ok? <==> id == ClientDbId || Key(id, systemRoot) in before || Loadable(id, available, env);
      if r.Ok? && id !in env.corrupted {
        enabledRepos := enabledRepos + [id];
      }
    }

    /** The loop of `validate_repositories`, from an empty `_enabled_repos`. */
    method CollectEnabledRepositories(env: Env)
      requires Valid()
      modifies this
      ensures Valid()
      ensures enabledRepos == Filter(order, Accepted(old(repodbCache).Keys, systemRoot, available, env))
      ensures available == old(available) && excluded == old(excluded) && order == old(order)
      ensures memoryDbInstances == old(memoryDbInstances) && closed == old(closed)
      ensures warningsStart == old(warningsStart)
    {
      enabledRepos := [];
      ghost var before := repodbCache.Keys;
      ghost var accepted := Accepted(before, systemRoot, available, env);
      var i := 0;
      while i < |order|
        invariant i <= |order|
        invariant Valid()
        invariant enabledRepos == Filter(order[..i], accepted)
        invariant forall id {:trigger Key(id, systemRoot)} :: Key(id, systemRoot) in repodbCache ==>
          Key(id, systemRoot) in before || Loadable(id, available, env)
        invariant before <= repodbCache.Keys
        invariant available == old(available) && excluded == old(excluded) && order == old(order)
        invariant memoryDbInstances == old(memoryDbInstances) && closed == old(closed)
        invariant warningsStart == old(warningsStart)
      {
        FilterPrefixStep(order, i, accepted);
        ValidateOne(order[i], env, before);
        i := i + 1;
      }
      assert order[..i] == order;
    }

    /** `self._repo_error_messages_cache.clear()`: warnings may be printed again from here on. */
    method ClearErrorMessages()
      requires Valid()
      modifies this
      ensures Valid()
      ensures repoErrorMessages == {} && warningsStart == |warnings|
      ensures available == old(available) && excluded == old(excluded) && order == old(order)
      ensures enabledRepos == old(enabledRepos) && repodbCache == old(repodbCache)
      ensures memoryDbInstances == old(memoryDbInstances) && closed == old(closed)
      ensures nextSerial == old(nextSerial) && warnings == old(warnings)
    {
      repoErrorMessages := {};
      warningsStart := |warnings|;
    }

    /**
     * `validate_repositories`: clears the warning set, then keeps, in priority order, every
     * repository that opens and validates; finally closes the cached connections.
     */
    method ValidateRepositories(env: Env)
      requires Valid()
      modifies this
      ensures Valid()
      ensures enabledRepos == Filter(order, Accepted(old(repodbCache).Keys, systemRoot, available, env))
      ensures repodbCache == map[]
      ensures available == old(available) && excluded == old(excluded) && order == old(order)
      ensures memoryDbInstances == old(memoryDbInstances) && old(closed) <= closed
      ensures warningsStart == old(|warnings|)
    {
      ClearErrorMessages();
      CollectEnabledRepositories(env);
      CloseAllRepositories();
    }
  
    /** `update_repository_revision`; `false` stands for the `KeyError` of an unknown id. */
    method UpdateRepositoryRevision(id: string, revisionFile: Option<string>) returns (found: bool)
      requires Valid()
      modifies this
      ensures Valid()
      ensures found == (id in old(available))
      ensures available == if found then
          old(available)[id := old(available)[id].(dbrevision := Some(DbRevision(RevisionOf(revisionFile))))]
        else old(available)
      ensures order == old(order) && enabledRepos == old(enabledRepos) && repodbCache == old(repodbCache)
      ensures memoryDbInstances == old(memoryDbInstances)
    {
      found := id in available;
      if found {
        var r := RevisionOf(revisionFile);
        available := available[id := available[id].(dbrevision := Some(DbRevision(r)))];
      }
    }

    /** `avail_data[repoid] = ...` for a table entry that keeps the registry valid. */
    method SetAvailable(id: string, meta: RepoMeta)
      requires Valid()
      requires meta.temporary ==> Key(id, systemRoot) in memoryDbInstances
      modifies this
      ensures Valid()
      ensures available == old(available)[id := meta]
      ensures excluded == old(excluded) && order == old(order) && enabledRepos == old(enabledRepos)
      ensures repodbCache == old(repodbCache) && memoryDbInstances == old(memoryDbInstances)
    {
      available := available[id := meta];
    }

    /** `del` of the id from both tables and `_enabled_repos.remove(id)`. */
    method ForgetRepository(id: string)
      requires Valid()
      modifies this
      ensures Valid()
      ensures available == old(available) - {id} && excluded == old(excluded) - {id}
      ensures enabledRepos == RemoveFirst(old(enabledRepos), id)
      ensures order == old(order) && repodbCache == old(repodbCache)
      ensures memoryDbInstances == old(memoryDbInstances) && closed == old(closed)
    {
      available := available - {id};
      excluded := excluded - {id};
      if id in enabledRepos {
        enabledRepos := RemoveFirst(enabledRepos, id);
      }
    }

    /** `open_temp_repository` plus `_memory_db_instances[repo_key] = dbc`: a new in-memory database. */
    method RegisterMemoryInstance(id: string) returns (h: Handle)
      requires Valid()
      modifies this
      ensures Valid()
      ensures h == Handle(old(nextSerial)) && h !in old(repodbCache).Values && h !in old(memoryDbInstances).Values
      ensures memoryDbInstances == old(memoryDbInstances)[Key(id, systemRoot) := h]
      ensures available == old(available) && excluded == old(excluded) && order == old(order)
      ensures enabledRepos == old(enabledRepos) && repodbCache == old(repodbCache)
    {
      h := Handle(nextSerial);
      assert h !in repodbCache.Values;
      assert h !in memoryDbInstances.Values;
      nextSerial := nextSerial + 1;
      memoryDbInstances := memoryDbInstances[Key(id, systemRoot) := h];
    }

    /**
     * `add_repository`: the id gets a table entry; a dynamic repository goes to the top of the
     * priority order, any other is appended to the configuration file (the connections are
     * closed first); then the repositories are validated again.
     */
    method AddRepository(data: RepoData, env: Env)
      requires Valid()
      requires data.temporary ==> Key(data.entry.repoid, systemRoot) in memoryDbInstances
      modifies this, conf
      ensures Valid()
      ensures available == old(available)[data.entry.repoid := MetaOf(data)]
      ensures excluded == old(excluded) && memoryDbInstances == old(memoryDbInstances)
      ensures IsDynamic(data) ==> order == [data.entry.repoid] + old(order) && conf.lines == old(conf.lines)
      ensures !IsDynamic(data) ==> order == old(order)
      ensures !IsDynamic(data) ==>
        conf.lines == AfterSave(old(conf.lines), data.entry.repoid, Add(FormatEntry(data.entry)), env.confWritable)
      ensures enabledRepos ==
        Filter(order, Accepted(if IsDynamic(data) then old(repodbCache).Keys else {}, systemRoot, available, env))
    {
      var id := data.entry.repoid;
      SetAvailable(id, MetaOf(data));
      if IsDynamic(data) {
        order := Insert(order, 0, id);
        assert order == [id] + old(order);
        ValidateRepositories(env);
      } else {
        var status := conf.SaveRepositorySettings(id, Add(FormatEntry(data.entry)), env.confWritable);
        CloseAllRepositories();
        assert repodbCache.Keys == {};
        ValidateRepositories(env);
      }
    }

    /** Pops the in-memory instance of `id`, if any, and closes it. */
    method DropMemoryInstance(id: string)
      requires Valid() && repodbCache == map[]
      requires id !in available
      modifies this
      ensures Valid()
      ensures memoryDbInstances == old(memoryDbInstances) - {Key(id, systemRoot)}
      ensures Key(id, systemRoot) in old(memoryDbInstances) ==> old(memoryDbInstances)[Key(id, systemRoot)] in closed
      ensures available == old(available) && excluded == old(excluded) && order == old(order)
      ensures enabledRepos == old(enabledRepos) && repodbCache == old(repodbCache)
    {
      var key := Key(id, systemRoot);
      if key in memoryDbInstances {
        var h := memoryDbInstances[key];
        memoryDbInstances := memoryDbInstances - {key};
        closed := closed + {h};
      }
    }

    /**
     * `remove_repository`: the id leaves both tables and `_enabled_repos`; when it was known it
     * also leaves the order and the configuration file (removed, or disabled when asked); its
     * in-memory instance is popped and closed; then the repositories are validated again.
     */
    method RemoveRepository(id: string, disable: bool, env: Env)
      requires Valid()
      modifies this, conf
      ensures Valid()
      ensures available == old(available) - {id} && excluded == old(excluded) - {id}
      ensures GetRepositorySettings(id).None?
      ensures order == if id in old(available) || id in old(excluded) then RemoveFirst(old(order), id) else old(order)
      ensures conf.lines == AfterSave(old(conf.lines), id, if disable then Disable else Remove,
        (id in old(available) || id in old(excluded)) && env.confWritable)
      ensures memoryDbInstances == old(memoryDbInstances) - {Key(id, systemRoot)}
      ensures Key(id, systemRoot) in old(memoryDbInstances) ==> old(memoryDbInstances)[Key(id, systemRoot)] in closed
      ensures enabledRepos == Filter(order, Accepted({}, systemRoot, available, env))
      ensures id != ClientDbId ==> id !in enabledRepos
    {
      Unregister(id, if disable then Disable else Remove, env.confWritable);
      DropMemoryInstance(id);
      CloseAllRepositories();
      assert repodbCache.Keys == {};
      ValidateRepositories(env);
      FilterMembers(order, Accepted({}, systemRoot, available, env));
    }

    /**
     * The first half of `remove_repository`: the id leaves both tables and `_enabled_repos`, the
     * connections are closed, and a known id leaves the order and the configuration file.
     */
    method Unregister(id: string, op: SaveOp, writable: bool)
      requires Valid()
      modifies this, conf
      ensures Valid()
      ensures available == old(available) - {id} && excluded == old(excluded) - {id}
      ensures order == if id in old(available) || id in old(excluded) then RemoveFirst(old(order), id) else old(order)
      ensures conf.lines == AfterSave(old(conf.lines), id, op, (id in old(available) || id in old(excluded)) && writable)
      ensures memoryDbInstances == old(memoryDbInstances) && repodbCache == map[]
      ensures old(closed) <= closed
    {
      var done := id in available || id in excluded;
      ForgetRepository(id);
      CloseAllRepositories();
      if done {
        UnlistRepository(id, op, writable);
      }
    }

    /** The id leaves the priority order (`order.remove`, when present) and the file is saved. */
    method UnlistRepository(id: string, op: SaveOp, writable: bool)
      requires Valid()
      modifies this, conf
      ensures Valid()
      ensures order == RemoveFirst(old(order), id)
      ensures conf.lines == AfterSave(old(conf.lines), id, op, writable)
      ensures available == old(available) && excluded == old(excluded) && enabledRepos == old(enabledRepos)
      ensures repodbCache == old(repodbCache) && memoryDbInstances == old(memoryDbInstances)
      ensures closed == old(closed)
    {
      if id in order {
        order := RemoveFirst(order, id);
      }
      var status := conf.SaveRepositorySettings(id, op, writable);
    }

    /**
     * `disable_repository`: a known id leaves `available` and the order and is disabled in the
     * configuration file. `order.remove` raises `ValueError` when the id is known but not in
     * the order; the source catches only `IndexError`, so the call stops there.
     */
    method DisableRepository(id: string, env: Env) returns (err: Option<PyError>)
      requires Valid()
      modifies this, conf
      ensures Valid()
      ensures available == old(available) - {id} && excluded == old(excluded)
      ensures err.Some? <==> id in old(available) && id !in old(order)
      ensures err.Some? ==> err == Some(ValueError) && order == old(order)
      ensures err.Some? ==> conf.lines == old(conf.lines) && enabledRepos == old(enabledRepos)
      ensures err.None? ==> order == (if id in old(available) then RemoveFirst(old(order), id) else old(order))
      ensures err.None? ==> conf.lines == AfterSave(old(conf.lines), id, Disable, id in old(available) && env.confWritable)
      ensures err.None? ==> enabledRepos == Filter(order, Accepted({}, systemRoot, available, env))
    {
      var done := id in available;
      available := available - {id};
      if done {
        if id !in order {
          return Some(ValueError);
        }
        order := RemoveFirst(order, id);
        var status := conf.SaveRepositorySettings(id, Disable, env.confWritable);
      }
      CloseAllRepositories();
      assert repodbCache.Keys == {};
      ValidateRepositories(env);
      err := None;
    }

    /** `enable_repository`: the id's entry is enabled in the configuration file, then validation. */
    method EnableRepository(id: string, env: Env)
      requires Valid()
      modifies this, conf
      ensures Valid()
      ensures available == old(available) && excluded == old(excluded) && order == old(order)
      ensures conf.lines == AfterSave(old(conf.lines), id, Enable, env.confWritable)
      ensures enabledRepos == Filter(order, Accepted({}, systemRoot, available, env))
    {
      var status := conf.SaveRepositorySettings(id, Enable, env.confWritable);
      CloseAllRepositories();
      assert repodbCache.Keys == {};
      ValidateRepositories(env);
    }

    /**
     * `shift_repository`: moves the id to `toidx` in the order and rewrites the configuration
     * file in the new order. `order.remove` raises `ValueError` for an id not in the order, and
     * a failed write propagates (the order is already changed by then).
     */
    method ShiftRepository(id: string, toidx: int, env: Env) returns (err: Option<PyError>)
      requires Valid()
      modifies this, conf
      ensures Valid()
      ensures id !in old(order) ==> err == Some(ValueError) && order == old(order) && conf.lines == old(conf.lines)
      ensures id in old(order) ==> order == ShiftOrder(old(order), id, toidx)
      ensures id in old(order) ==> conf.lines == AfterOrderedWrite(old(conf.lines), order, env.confWritable)
      ensures id in old(order) && !env.confWritable ==> err == Some(WriteError)
      ensures id in old(order) && env.confWritable ==>
        err.None? && enabledRepos == Filter(order, Accepted({}, systemRoot, available, env))
      ensures available == old(available) && excluded == old(excluded)
    {
      if id !in order {
        return Some(ValueError);
      }
      order := ShiftOrder(order, id, toidx);
      var ok := conf.WriteOrderedRepositoriesEntries(order, env.confWritable);
      if !ok {
        return Some(WriteError);
      }
      CloseAllRepositories();
      assert repodbCache.Keys == {};
      ValidateRepositories(env);
      err := None;
    }

    /**
     * `_init_generic_temp_repository`: a new in-memory database is registered under the id's
     * key and added as a temporary repository (at the top of the priority order), whose `dbpath`
     * is the new database's file name `dbFile`.
     */
    method InitGenericTempRepository(id: string, description: string, mirrors: seq<string>, dbFile: string, env: Env)
      returns (h: Handle)
      requires Valid()
      modifies this, conf
      ensures Valid()
      ensures h == Handle(old(nextSerial)) && h !in old(repodbCache).Values && h !in old(memoryDbInstances).Values
      ensures memoryDbInstances == old(memoryDbInstances)[Key(id, systemRoot) := h]
      ensures id in available && available[id].temporary && available[id].packages == mirrors
      ensures id in available && available[id].description == description && available[id].dbpath == Some(dbFile)
      ensures order == [id] + old(order) && conf.lines == old(conf.lines)
      ensures id !in env.corrupted ==> id in enabledRepos
    {
      h := RegisterMemoryInstance(id);
      var data := RepoData(EntryData(id, description, [], "", "", 0, 0), mirrors, Some(dbFile), None, None, true);
      AddRepository(data, env);
    }
  }

  /** An exception the source lets escape: `list.remove` of a missing item, or a failed write. */
  datatype PyError = ValueError | WriteError

  /**
   * `shift_repository` keeps the order a permutation, puts the id at the requested (clamped)
   * index, and leaves every other repository in its previous relative order.
   */
  lemma ShiftRepositoryOrder(order: seq<string>, id: string, toidx: int)
    requires id in order
    ensures multiset(ShiftOrder(order, id, toidx)) == multiset(order)
    ensures ShiftOrder(order, id, toidx)[ClampIndex(toidx, |order| - 1)] == id
    ensures Filter(ShiftOrder(order, id, toidx), NotEqual(id)) == Filter(order, NotEqual(id))
  {
    ShiftIsPermutation(order, id, toidx);
    RemoveFirstKeepsOthers(order, id);
    InsertKeepsOthers(RemoveFirst(order, id), toidx, id);
  }

  lemma ShiftIsPermutation(order: seq<string>, id: string, toidx: int)
    requires id in order
    ensures multiset(ShiftOrder(order, id, toidx)) == multiset(order)
  {
    var rest := RemoveFirst(order, id);
    var j := ClampIndex(toidx, |rest|);
    calc {
      multiset(ShiftOrder(order, id, toidx));
      multiset(rest[..j] + [id] + rest[j..]);
      multiset(rest[..j]) + multiset{id} + multiset(rest[j..]);
      { assert rest == rest[..j] + rest[j..]; }
      multiset(rest) + multiset{id};
      multiset(order);
    }
  }

  /**
   * A revision file holding `str(r)` reads back as `r`, so `dbrevision` becomes `str(r)` —
   * except for `r == -1`, which is indistinguishable from a missing file and becomes `"0"`.
   */
  lemma RevisionRoundTrip(r: int)
    ensures RevisionOf(Some(IntToString(r) + "\n")) == r
    ensures DbRevision(RevisionOf(Some(IntToString(r) + "\n"))) == if r == -1 then "0" else IntToString(r)
    ensures DbRevision(RevisionOf(None)) == "0"
  {
    var w := IntToString(r);
    IntToStringIsLine(r);
    SplitPrefixed(w, "", '\n');
    assert w + "\n" == w + ['\n'] + "";
    ParseIntToString(r);
  }
}
