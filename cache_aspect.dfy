/**
 * CacheAspect: the advice around every method annotated with @Cache. The
 * annotated method itself is the loader, a function of its argument list;
 * the advice decides from the first argument and the return type whether a
 * call is one-to-one, one-to-list or a batch, reads the configured tier,
 * calls the loader for what is missing and writes the results back to Redis,
 * with placeholders for what the loader did not find.
 */
module Aspect {
  import opened Common
  import opened LocalStore
  import opened Repository
  import opened RedisService
  import opened LocalService

  /** The loader: the annotated method's own body, which may throw. */
  type Loader = seq<Obj> -> Result<Obj>

  /**
   * One advised call: what the caller gets, the argument lists the loader was
   * called with, and the two tiers after the call.
   */
  datatype Outcome = Outcome(result: Result<Obj>, calls: seq<seq<Obj>>, local: map<string, Obj>, store: map<string, Stored>)

  /** A batch handler's effect: what the caller gets, the loader calls, and Redis after the call. */
  datatype Handled = Handled(result: Result<Obj>, calls: seq<seq<Obj>>, store: map<string, Stored>)

  // ---------------------------------------------------------------- tiers

  /** `cacheService.getObjectFromCache(key, clazz)` of the configured tier. */
  function TierObject(lib: Lib, usingLocal: bool, local: map<string, Obj>, store: map<string, Stored>, faults: Faults, key: string, clazz: Cls): Read {
    if usingLocal then LocalObject(lib, local, store, faults, key, clazz)
    else Read(RemoteObject(lib, store, faults, key, clazz), local)
  }

  /** `cacheService.getObjectListFromCache(key, clazz)` of the configured tier. */
  function TierList(lib: Lib, usingLocal: bool, local: map<string, Obj>, store: map<string, Stored>, faults: Faults, key: string, clazz: Cls): Read {
    if usingLocal then LocalList(lib, local, store, faults, key, clazz)
    else Read(RemoteList(lib, store, faults, key, clazz), local)
  }

  /**
   * The batch getters of the configured tier. Only the two-tier service
   * removes null ids from the list it is given.
   */
  function TierBatch(lib: Lib, usingLocal: bool, local: map<string, Obj>, store: map<string, Stored>, faults: Faults, prefix: string, ids: seq<Obj>, clazz: Cls, asList: bool): BatchRead {
    if usingLocal then LocalBatch(lib, local, store, faults, prefix, ids, clazz, asList)
    else BatchRead(ids, RemoteBatch(lib, store, faults, prefix, ids, clazz, asList), local)
  }

  // ---------------------------------------------------------------- single-key modes

  /**
   * `buildEmptyObject(clazz)`: the JSON of what the class's static
   * `emptyObject()` returns, or "{}" when it has none or it gives null.
   */
  function BuildEmptyObject(lib: Lib, clazz: Cls): (r: Obj)
    ensures r.Str? && !r.Null?
    ensures lib.emptyObject(clazz).Null? ==> r == Str(EMPTY_OBJECT)
  {
    var empty := lib.emptyObject(clazz);
    if empty.Null? then Str(EMPTY_OBJECT) else Str(lib.toJson(empty))
  }

  /** `redisRepository.set(key, ttl, v)` unless `ttl` is DISABLE_MISS_VALUE. */
  function WriteBack(lib: Lib, store: map<string, Stored>, faults: Faults, key: string, ttl: int, v: Obj): map<string, Stored> {
    if ttl != DISABLE_MISS_VALUE then store + SetWrites(lib, faults, key, ttl, v) else store
  }

  /** `doHandleOne2OneCache`. */
  function One2One(lib: Lib, usingLocal: bool, local: map<string, Obj>, store: map<string, Stored>, faults: Faults,
                   key: string, expire: int, missExpire: int, returnType: Cls, args: seq<Obj>, loader: Loader): Outcome {
    var cached := TierObject(lib, usingLocal, local, store, faults, key, returnType);
    if !cached.value.Null? then Outcome(Success(cached.value), [], cached.local, store)
    else match loader(args)
      case Failure(e) => Outcome(Failure(e), [args], cached.local, store)
      case Success(p) =>
        var v := if p.Null? then BuildEmptyObject(lib, returnType) else p;
        var ttl := if p.Null? then missExpire else expire;
        Outcome(Success(v), [args], cached.local, WriteBack(lib, store, faults, key, ttl, v))
  }

  /** `doHandleOne2ListCache`. */
  function One2List(lib: Lib, usingLocal: bool, local: map<string, Obj>, store: map<string, Stored>, faults: Faults,
                    key: string, expire: int, missExpire: int, clazz: Cls, args: seq<Obj>, loader: Loader): Outcome {
    var cached := TierList(lib, usingLocal, local, store, faults, key, clazz);
    if !IsEmptyList(cached.value) then Outcome(Success(cached.value), [], cached.local, store)
    else match loader(args)
      case Failure(e) => Outcome(Failure(e), [args], cached.local, store)
      case Success(p) =>
        if !p.Items? then Outcome(Success(p), [args], cached.local, store)
        else
          var v := if p.elems == [] then Items([]) else p;
          var ttl := if p.elems == [] then missExpire else expire;
          Outcome(Success(v), [args], cached.local, WriteBack(lib, store, faults, key, ttl, v))
  }

  // ---------------------------------------------------------------- batch mode

  /** The test of both miss filters: the id is no key of `m`. */
  function Absent(m: map<Obj, Obj>): Obj -> bool {
    (id: Obj) => id !in m
  }

  /** `cacheMissList`: the input ids the cache did not answer, in input order. */
  function CacheMissList(inputList: seq<Obj>, cached: map<Obj, Obj>): seq<Obj> {
    Filter(inputList, Absent(cached))
  }

  /** `params`: the miss list in place of the first argument, the other arguments unchanged. */
  function LoaderArgs(miss: seq<Obj>, args: seq<Obj>): (params: seq<Obj>)
    requires |args| >= 1
    ensures |params| == |args| && params[0] == Items(miss) && params[1..] == args[1..]
  {
    [Items(miss)] + args[1..]
  }

  /** `dbMissingList`: the misses the loader did not return, in input order. */
  function DbMissingList(miss: seq<Obj>, loaded: map<Obj, Obj>): seq<Obj> {
    Filter(miss, Absent(loaded))
  }

  /**
   * `keyValues`, built by `result.forEach`: the key of every loaded id, with
   * the value of one loaded id that has that key. When two loaded ids share a
   * key, which one wins depends on the HashMap's iteration order.
   */
  ghost predicate IsKeyValues(lib: Lib, prefix: string, loaded: map<Obj, Obj>, kv: map<string, Obj>) {
    (forall k :: k in loaded ==> Key(lib, prefix, k) in kv)
    && (forall s :: s in kv ==> exists k :: k in loaded && Key(lib, prefix, k) == s && kv[s] == loaded[k])
  }

  /**
   * `emptyMissData`: a placeholder under the key of every id the loader did
   * not find (the corrected form; see `PlaceholderEntriesAsWritten`).
   */
  function PlaceholderEntries(lib: Lib, prefix: string, dbMiss: seq<Obj>, empty: Obj): map<string, Obj> {
    map s | s in KeySet(lib, prefix, dbMiss) :: empty
  }

  /**
   * `Collectors.toMap(key -> String.format(prefix, key), key -> empty)` as
   * written: it throws on the second id whose key it has already seen.
   */
  function PlaceholderEntriesAsWritten(lib: Lib, prefix: string, dbMiss: seq<Obj>, empty: Obj): Result<map<string, Obj>>
    decreases |dbMiss|
  {
    if dbMiss == [] then Success(map[])
    else match PlaceholderEntriesAsWritten(lib, prefix, dbMiss[..|dbMiss| - 1], empty)
      case Failure(e) => Failure(e)
      case Success(m) =>
        var key := Key(lib, prefix, dbMiss[|dbMiss| - 1]);
        if key in m then Failure(DuplicateKey(key)) else Success(m[key := empty])
  }

  /** The map the loader returned, if it returned one and it was called. */
  function LoadedMap(inputList: seq<Obj>, cached: map<Obj, Obj>, args: seq<Obj>, loader: Loader): map<Obj, Obj>
    requires |args| >= 1
  {
    var miss := CacheMissList(inputList, cached);
    if |miss| == 0 then map[]
    else match loader(LoaderArgs(miss, args))
      case Success(Table(m)) => m
      case _ => map[]
  }

  /**
   * `doHandleListCache` with the tier's answer `cached` and the id list after
   * the tier read; `kv` is the `keyValues` the loop built.
   */
  function ListCache(lib: Lib, store: map<string, Stored>, faults: Faults, inputList: seq<Obj>, cached: map<Obj, Obj>,
                     args: seq<Obj>, loader: Loader, prefix: string, expire: int, missExpire: int, empty: Obj,
                     kv: map<string, Obj>): Handled
    requires |args| >= 1
  {
    var miss := CacheMissList(inputList, cached);
    if |miss| == 0 then Handled(Success(Table(cached)), [], store)
    else
      var params := LoaderArgs(miss, args);
      match loader(params)
      case Failure(e) => Handled(Failure(e), [params], store)
      case Success(res) =>
        if !res.Null? && !res.Table? then Handled(Failure(ClassCast), [params], store)
        else
          var loaded := if res.Null? then map[] else res.entries;
          var w := LoadedWritesAsWritten(lib, store, faults, miss, loaded, prefix, expire, missExpire, empty, kv);
          Handled(if w.failure.Some? then Failure(w.failure.value) else Success(Table(cached + loaded)), [params], w.store)
  }

  /** Redis after the loaded values are written under `expire` (line 244), before any placeholder. */
  function LoadedStore(lib: Lib, store: map<string, Stored>, faults: Faults, loaded: map<Obj, Obj>, expire: int,
                       kv: map<string, Obj>): map<string, Stored> {
    if loaded == map[] then store else store + BatchWrites(lib, faults, kv, expire)
  }

  /**
   * Redis after the loader answered `loaded` for the misses `miss`, as the
   * write-back evidently intends: the loaded values under `expire`, then one
   * placeholder per key of the rest under `missExpire`.
   */
  function LoadedWrites(lib: Lib, store: map<string, Stored>, faults: Faults, miss: seq<Obj>, loaded: map<Obj, Obj>,
                        prefix: string, expire: int, missExpire: int, empty: Obj, kv: map<string, Obj>): map<string, Stored> {
    var stored := LoadedStore(lib, store, faults, loaded, expire, kv);
    var dbMiss := DbMissingList(miss, loaded);
    if |dbMiss| == 0 || missExpire == DISABLE_MISS_VALUE then stored
    else stored + BatchWrites(lib, faults, PlaceholderEntries(lib, prefix, dbMiss, empty), missExpire)
  }

  /** The write-back's exception, if any, and Redis after it. */
  datatype Written = Written(failure: Option<Error>, store: map<string, Stored>)

  /**
   * The write-back as written: the placeholders go through `toMap`, which
   * throws on a repeated key after the loaded values have been written.
   */
  function LoadedWritesAsWritten(lib: Lib, store: map<string, Stored>, faults: Faults, miss: seq<Obj>, loaded: map<Obj, Obj>,
                                 prefix: string, expire: int, missExpire: int, empty: Obj, kv: map<string, Obj>): Written {
    var stored := LoadedStore(lib, store, faults, loaded, expire, kv);
    var dbMiss := DbMissingList(miss, loaded);
    if |dbMiss| == 0 || missExpire == DISABLE_MISS_VALUE then Written(None, stored)
    else match PlaceholderEntriesAsWritten(lib, prefix, dbMiss, empty)
      case Failure(e) => Written(Some(e), stored)
      case Success(p) => Written(None, stored + BatchWrites(lib, faults, p, missExpire))
  }

  // ---------------------------------------------------------------- doAround

  /**
   * The guard of line 97 as written: its `arg instanceof Map` tests the first
   * argument, which is a List on this path, instead of the second.
   */
  predicate BatchParamCheckAsWritten(args: seq<Obj>) {
    |args| == 2 && (args[1].Items? || args[0].Table?)
  }

  /** The guard as its comment describes it: a second argument that is a List or a Map is refused (see `AroundIntended`). */
  predicate BatchParamCheck(args: seq<Obj>) {
    |args| == 2 && (args[1].Items? || args[1].Table?)
  }

  /** The key template of a batch: a second argument that is not blank is appended after a colon. */
  function BatchPrefix(lib: Lib, prefix: string, args: seq<Obj>): string {
    if |args| == 2 && !IsBlank(ToStr(lib, args[1])) then prefix + ":" + ToStr(lib, args[1]) else prefix
  }

  /** The placeholder of a batch: a new empty list for list values, `buildEmptyObject` otherwise. */
  function BatchEmpty(lib: Lib, policy: Policy): Obj {
    if policy.hasMoreValue then Items([]) else BuildEmptyObject(lib, policy.clazz)
  }

  /** Whether `doAround` takes the batch path and gets past its guards. */
  predicate IsBatch(returnType: Cls, args: seq<Obj>) {
    |args| >= 1 && args[0].Items? && |args| <= 2 && !BatchParamCheckAsWritten(args) && returnType == MapType
  }

  /** The tier read of a batch call. */
  function BatchTier(lib: Lib, policy: Policy, args: seq<Obj>, faults: Faults, local: map<string, Obj>, store: map<string, Stored>): BatchRead
    requires |args| >= 1 && args[0].Items?
  {
    TierBatch(lib, policy.usingLocalCache, local, store, faults, BatchPrefix(lib, policy.prefix, args), args[0].elems,
              policy.clazz, policy.hasMoreValue)
  }

  /** The map the loader returned in a batch call (empty for any other call). */
  function AroundLoaded(lib: Lib, policy: Policy, returnType: Cls, args: seq<Obj>, loader: Loader, faults: Faults,
                        local: map<string, Obj>, store: map<string, Stored>): map<Obj, Obj> {
    if !IsBatch(returnType, args) then map[]
    else
      var t := BatchTier(lib, policy, args, faults, local, store);
      LoadedMap(t.ids, t.value, args, loader)
  }

  /** `doAround`; `kv` is the `keyValues` of a batch call. */
  function Around(lib: Lib, policy: Policy, returnType: Cls, args: seq<Obj>, loader: Loader, faults: Faults,
                  local: map<string, Obj>, store: map<string, Stored>, kv: map<string, Obj>): Outcome {
    if |args| == 0 then Outcome(Failure(NoArgument), [], local, store)
    else if args[0].Null? then Outcome(Success(Null), [], local, store)
    else if args[0].Items? then
      if |args| > 2 then Outcome(Failure(IllegalArgument("do not support args > 2")), [], local, store)
      else if BatchParamCheckAsWritten(args) then Outcome(Failure(IllegalArgument("do not support the args")), [], local, store)
      else if returnType != MapType then Outcome(Failure(IllegalArgument("param error")), [], local, store)
      else
        var t := BatchTier(lib, policy, args, faults, local, store);
        var h := ListCache(lib, store, faults, t.ids, t.value, args, loader, BatchPrefix(lib, policy.prefix, args),
                           policy.expire, policy.missExpire, BatchEmpty(lib, policy), kv);
        Outcome(h.result, h.calls, t.local, h.store)
    else
      var key := lib.format(policy.prefix, args);
      if returnType == ListType then
        One2List(lib, policy.usingLocalCache, local, store, faults, key, policy.expire, policy.missExpire, policy.clazz, args, loader)
      else
        One2One(lib, policy.usingLocalCache, local, store, faults, key, policy.expire, policy.missExpire, returnType, args, loader)
  }

  /**
   * `doAround` with the guard of line 97 as its comment intends: a batch whose
   * second argument is a Map is refused too; every other call is as written.
   */
  function AroundIntended(lib: Lib, policy: Policy, returnType: Cls, args: seq<Obj>, loader: Loader, faults: Faults,
                          local: map<string, Obj>, store: map<string, Stored>, kv: map<string, Obj>): Outcome {
    if |args| >= 1 && args[0].Items? && |args| <= 2 && BatchParamCheck(args)
    then Outcome(Failure(IllegalArgument("do not support the args")), [], local, store)
    else Around(lib, policy, returnType, args, loader, faults, local, store, kv)
  }

  // ---------------------------------------------------------------- the advice object

  /** The `Map<Object, ?>` a batch read returns, which `doHandleListCache` extends in place. */
  class ResultMap {
    var entries: map<Obj, Obj>

    constructor (entries: map<Obj, Obj>)
      ensures this.entries == entries
    {
      this.entries := entries;
    }

    method PutAll(m: map<Obj, Obj>)
      modifies this
      ensures entries == old(entries) + m
    {
      entries := entries + m;
    }
  }

  class CacheAspect {
    const repo: RedisRepository
    const redisService: RedisCacheService
    const localService: LocalCacheService

    /** Both tiers read the Redis the advice writes. */
    predicate Valid() {
      redisService.repo == repo && localService.redis.repo == repo
    }

    constructor (repo: RedisRepository, redisService: RedisCacheService, localService: LocalCacheService)
      requires redisService.repo == repo && localService.redis.repo == repo
      ensures this.repo == repo && this.redisService == redisService && this.localService == localService
      ensures Valid()
    {
      this.repo := repo;
      this.redisService := redisService;
      this.localService := localService;
    }

    method DoAround(policy: Policy, returnType: Cls, args: seq<Obj>, loader: Loader, faults: Faults)
      returns (r: Result<Obj>, calls: seq<seq<Obj>>, ghost keyValues: map<string, Obj>)
      requires Valid()
      modifies repo, localService.cache
      ensures Outcome(r, calls, localService.cache.entries, repo.store)
           == Around(repo.lib, policy, returnType, args, loader, faults, old(localService.cache.entries), old(repo.store), keyValues)
      ensures IsKeyValues(repo.lib, BatchPrefix(repo.lib, policy.prefix, args),
                          AroundLoaded(repo.lib, policy, returnType, args, loader, faults, old(localService.cache.entries), old(repo.store)),
                          keyValues)
    {
      keyValues := map[];
      if |args| == 0 {
        return Failure(NoArgument), [], keyValues;
      }
      var arg := args[0];
      if arg.Null? {
        return Success(Null), [], keyValues;
      }
      if arg.Items? {
        if |args| > 2 {
          return Failure(IllegalArgument("do not support args > 2")), [], keyValues;
        }
        if BatchParamCheckAsWritten(args) {
          return Failure(IllegalArgument("do not support the args")), [], keyValues;
        }
        if returnType != MapType {
          return Failure(IllegalArgument("param error")), [], keyValues;
        }
        r, calls, keyValues := DoBatch(policy, args, loader, faults);
        return;
      }
      var key := repo.lib.format(policy.prefix, args);
      if returnType == ListType {
        r, calls := DoHandleOne2ListCache(key, policy.clazz, policy.expire, policy.usingLocalCache, policy.missExpire, args, loader, faults);
      } else {
        r, calls := DoHandleOne2OneCache(key, policy.expire, returnType, policy.usingLocalCache, policy.missExpire, args, loader, faults);
      }
    }

    /** The batch branch of `doAround` after its guards: the tier read, then `doHandleListCache`. */
    method DoBatch(policy: Policy, args: seq<Obj>, loader: Loader, faults: Faults)
      returns (r: Result<Obj>, calls: seq<seq<Obj>>, ghost keyValues: map<string, Obj>)
      requires Valid() && IsBatch(MapType, args)
      modifies repo, localService.cache
      ensures Outcome(r, calls, localService.cache.entries, repo.store)
           == Around(repo.lib, policy, MapType, args, loader, faults, old(localService.cache.entries), old(repo.store), keyValues)
      ensures IsKeyValues(repo.lib, BatchPrefix(repo.lib, policy.prefix, args),
                          AroundLoaded(repo.lib, policy, MapType, args, loader, faults, old(localService.cache.entries), old(repo.store)),
                          keyValues)
    {
      var lib := repo.lib;
      var prefix := BatchPrefix(lib, policy.prefix, args);
      var inputList := new IdList(args[0].elems);
      var found: map<Obj, Obj>;
      if policy.usingLocalCache {
        if policy.hasMoreValue {
          found := localService.GetObjectListBatch(inputList, policy.clazz, prefix, faults);
        } else {
          found := localService.GetObjectBatch(inputList, policy.clazz, prefix, faults);
        }
      } else {
        if policy.hasMoreValue {
          found := redisService.GetObjectListBatch(inputList.items, policy.clazz, prefix, faults);
        } else {
          found := redisService.GetObjectBatch(inputList.items, policy.clazz, prefix, faults);
        }
      }
      var objectFromCache := new ResultMap(found);
      var failure;
      failure, calls, keyValues := DoHandleListCache(inputList.items, objectFromCache, args, loader, prefix,
                                                     policy.expire, policy.missExpire, BatchEmpty(lib, policy), faults);
      r := if failure.Some? then Failure(failure.value) else Success(Table(objectFromCache.entries));
    }

    method DoHandleOne2OneCache(key: string, expire: int, returnType: Cls, usingLocal: bool, missExpire: int,
                                args: seq<Obj>, loader: Loader, faults: Faults)
      returns (r: Result<Obj>, calls: seq<seq<Obj>>)
      requires Valid()
      modifies repo, localService.cache
      ensures Outcome(r, calls, localService.cache.entries, repo.store)
           == One2One(repo.lib, usingLocal, old(localService.cache.entries), old(repo.store), faults, key, expire, missExpire, returnType, args, loader)
    {
      var cached;
      if usingLocal {
        cached := localService.GetObject(key, returnType, faults);
      } else {
        cached := redisService.GetObject(key, returnType, faults);
      }
      if !cached.Null? {
        return Success(cached), [];
      }
      calls := [args];
      var proceeded := loader(args);
      if proceeded.Failure? {
        return proceeded, calls;
      }
      var proceed := proceeded.value;
      var ttl := expire;
      if proceed.Null? {
        proceed := BuildEmptyObject(repo.lib, returnType);
        ttl := missExpire;
      }
      if ttl != DISABLE_MISS_VALUE {
        repo.Set(key, ttl, proceed, faults);
      }
      r := Success(proceed);
    }

    method DoHandleOne2ListCache(key: string, clazz: Cls, expire: int, usingLocal: bool, missExpire: int,
                                 args: seq<Obj>, loader: Loader, faults: Faults)
      returns (r: Result<Obj>, calls: seq<seq<Obj>>)
      requires Valid()
      modifies repo, localService.cache
      ensures Outcome(r, calls, localService.cache.entries, repo.store)
           == One2List(repo.lib, usingLocal, old(localService.cache.entries), old(repo.store), faults, key, expire, missExpire, clazz, args, loader)
    {
      var cached;
      if usingLocal {
        cached := localService.GetObjectList(key, clazz, faults);
      } else {
        cached := redisService.GetObjectList(key, clazz, faults);
      }
      if !IsEmptyList(cached) {
        return Success(cached), [];
      }
      calls := [args];
      var proceeded := loader(args);
      if proceeded.Failure? {
        return proceeded, calls;
      }
      var proceed := proceeded.value;
      if proceed.Items? {
        var ttl := expire;
        if proceed.elems == [] {
          proceed := Items([]);
          ttl := missExpire;
        }
        if ttl != DISABLE_MISS_VALUE {
          repo.Set(key, ttl, proceed, faults);
        }
      }
      r := Success(proceed);
    }

    /**
     * `doHandleListCache`: `found` is the tier's answer, which gains what the
     * loader returned; a failure is the exception the caller sees.
     */
    method DoHandleListCache(inputList: seq<Obj>, found: ResultMap, args: seq<Obj>, loader: Loader, prefix: string,
                             expire: int, missExpire: int, empty: Obj, faults: Faults)
      returns (failure: Option<Error>, calls: seq<seq<Obj>>, ghost keyValues: map<string, Obj>)
      requires |args| >= 1
      modifies repo, found
      ensures var h := ListCache(repo.lib, old(repo.store), faults, inputList, old(found.entries), args, loader, prefix,
                                 expire, missExpire, empty, keyValues);
        h.result == (if failure.Some? then Failure(failure.value) else Success(Table(found.entries)))
        && h.calls == calls && h.store == repo.store
      ensures IsKeyValues(repo.lib, prefix, LoadedMap(inputList, old(found.entries), args, loader), keyValues)
    {
      var lib := repo.lib;
      keyValues := map[];
      var cacheMissList := CacheMissList(inputList, found.entries);
      if |cacheMissList| == 0 {
        return None, [], keyValues;
      }
      var params := LoaderArgs(cacheMissList, args);
      calls := [params];
      var proceeded := loader(params);
      if proceeded.Failure? {
        return Some(proceeded.error), calls, keyValues;
      }
      var res := proceeded.value;
      if !res.Null? && !res.Table? {
        return Some(ClassCast), calls, keyValues;
      }
      var result := if res.Null? then map[] else res.entries;
      failure, keyValues := Write(cacheMissList, result, found, prefix, expire, missExpire, empty, faults);
    }

    /** The part of `doHandleListCache` after the loader returned `result` for the misses. */
    method Write(cacheMissList: seq<Obj>, result: map<Obj, Obj>, found: ResultMap, prefix: string,
                 expire: int, missExpire: int, empty: Obj, faults: Faults)
      returns (failure: Option<Error>, ghost keyValues: map<string, Obj>)
      modifies repo, found
      ensures Written(failure, repo.store)
           == LoadedWritesAsWritten(repo.lib, old(repo.store), faults, cacheMissList, result, prefix, expire, missExpire, empty, keyValues)
      ensures found.entries == old(found.entries) + result
      ensures IsKeyValues(repo.lib, prefix, result, keyValues)
    {
      var lib := repo.lib;
      failure := None;
      keyValues := map[];
      var dbMissingList;
      if result == map[] {
        dbMissingList := cacheMissList;
        FilterAllOrNone(cacheMissList, Absent(result));
        assert found.entries + result == found.entries;
      } else {
        dbMissingList := DbMissingList(cacheMissList, result);
        var kv := KeyValues(result, prefix);
        keyValues := kv;
        repo.BatchSet(kv, expire, faults);
        found.PutAll(result);
      }
      if |dbMissingList| == 0 {
        return;
      }
      if missExpire != DISABLE_MISS_VALUE {
        var emptyMissData := PlaceholderEntriesAsWritten(lib, prefix, dbMissingList, empty);
        if emptyMissData.Failure? {
          return Some(emptyMissData.error), keyValues;
        }
        repo.BatchSet(emptyMissData.value, missExpire, faults);
      }
    }

    /** `result.forEach((k, v) -> keyValues.put(String.format(prefix, k), v))`. */
    method KeyValues(result: map<Obj, Obj>, prefix: string) returns (kv: map<string, Obj>)
      ensures IsKeyValues(repo.lib, prefix, result, kv)
    {
      kv := map[];
      var pending := result.Keys;
      while pending != {}
        invariant pending <= result.Keys
        invariant forall k :: k in result && k !in pending ==> Key(repo.lib, prefix, k) in kv
        invariant forall s :: s in kv ==> exists k :: k in result && Key(repo.lib, prefix, k) == s && kv[s] == result[k]
        decreases pending
      {
        var k :| k in pending;
        kv := kv[Key(repo.lib, prefix, k) := result[k]];
        pending := pending - {k};
      }
    }
  }
}
