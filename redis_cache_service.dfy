/**
 * RedisCacheServiceImpl: the Redis tier of the cache service. It turns the
 * strings RedisRepository returns into objects of the caller's class, and
 * the ids of a batch into keys through the key template.
 */
module RedisService {
  import opened Common
  import opened Repository

  /** `redisRepository.get(key)`: a failed read gives null. */
  function ReadText(store: map<string, Stored>, faults: Faults, key: string): Option<string> {
    if faults.readsFail then None else Lookup(store, key)
  }

  /** `getObjectFromCache(key, clazz)`: null for a blank key or nothing stored, else the parsed text. */
  function RemoteObject(lib: Lib, store: map<string, Stored>, faults: Faults, key: string, clazz: Cls): Obj {
    if IsBlank(key) then Null
    else match ReadText(store, faults, key)
      case None => Null
      case Some(t) => lib.parseObject(t, clazz)
  }

  /** `getObjectListFromCache(key, clazz)`: an empty list for a blank key or nothing stored, else the parsed array. */
  function RemoteList(lib: Lib, store: map<string, Stored>, faults: Faults, key: string, clazz: Cls): Obj {
    if IsBlank(key) then Items([])
    else match ReadText(store, faults, key)
      case None => Items([])
      case Some(t) => ListObj(lib.parseArray(t, clazz))
  }

  /**
   * The text a batch read keeps for one key: `multiGet` skips blank keys and
   * gives nothing on a failed read, and `getRedisData` skips null and "".
   */
  function BatchText(store: map<string, Stored>, faults: Faults, key: string): Option<string> {
    if faults.readsFail || IsBlank(key) then None
    else match Lookup(store, key)
      case None => None
      case Some(t) => if t == "" then None else Some(t)
  }

  /** `getRedisData(ids, prefix)`: each id that is not null, with the text stored under its key. */
  function RedisData(lib: Lib, store: map<string, Stored>, faults: Faults, prefix: string, ids: seq<Obj>): map<Obj, string> {
    map id | id in ids && !id.Null? && BatchText(store, faults, Key(lib, prefix, id)).Some?
      :: BatchText(store, faults, Key(lib, prefix, id)).value
  }

  /** One stored text as an object (`parseObject`) or, for list values, as a list (`parseArray`). */
  function Decode(lib: Lib, text: string, clazz: Cls, asList: bool): Obj {
    if asList then ListObj(lib.parseArray(text, clazz)) else lib.parseObject(text, clazz)
  }

  /**
   * The answer of `multiGet` for `key`, after `getRedisData`'s emptiness
   * check, is what `BatchText` says.
   */
  predicate Gives(cacheData: map<string, Option<string>>, store: map<string, Stored>, faults: Faults, key: string) {
    var value := if key in cacheData then cacheData[key] else None;
    (IsEmptyText(value) <==> BatchText(store, faults, key).None?)
    && (!IsEmptyText(value) ==> value.value == BatchText(store, faults, key).value)
  }

  /** The two batch getters: `getRedisData` with each text decoded; an empty id list gives an empty map. */
  function RemoteBatch(lib: Lib, store: map<string, Stored>, faults: Faults, prefix: string, ids: seq<Obj>, clazz: Cls, asList: bool): map<Obj, Obj> {
    if |ids| == 0 then map[]
    else
      var data := RedisData(lib, store, faults, prefix, ids);
      map id | id in data :: Decode(lib, data[id], clazz, asList)
  }

  class RedisCacheService {
    const repo: RedisRepository

    constructor (repo: RedisRepository)
      ensures this.repo == repo
    {
      this.repo := repo;
    }

    method GetObject(key: string, clazz: Cls, faults: Faults) returns (v: Obj)
      ensures v == RemoteObject(repo.lib, repo.store, faults, key, clazz)
      ensures IsBlank(key) || faults.readsFail || key !in repo.store ==> v.Null?
      ensures !IsBlank(key) && !faults.readsFail && key in repo.store ==> v == repo.lib.parseObject(repo.store[key].value, clazz)
    {
      if IsBlank(key) {
        return Null;
      }
      var result := repo.Get(key, faults);
      v := if result.None? then Null else repo.lib.parseObject(result.value, clazz);
    }

    method GetObjectList(key: string, clazz: Cls, faults: Faults) returns (v: Obj)
      ensures v == RemoteList(repo.lib, repo.store, faults, key, clazz)
      ensures IsBlank(key) || faults.readsFail || key !in repo.store ==> v == Items([])
      ensures !IsBlank(key) && !faults.readsFail && key in repo.store ==> v == ListObj(repo.lib.parseArray(repo.store[key].value, clazz))
    {
      if IsBlank(key) {
        return Items([]);
      }
      var result := repo.Get(key, faults);
      v := if result.None? then Items([]) else ListObj(repo.lib.parseArray(result.value, clazz));
    }

    /** Reads the keys of all ids that are not null in one round trip and keeps the non-empty texts. */
    method GetRedisData(ids: seq<Obj>, prefix: string, faults: Faults) returns (r: map<Obj, string>)
      ensures r == RedisData(repo.lib, repo.store, faults, prefix, ids)
    {
      var lib := repo.lib;
      var nn := NonNull(ids);
      var keys := seq(|nn|, i requires 0 <= i < |nn| => Some(Key(lib, prefix, nn[i])));
      var cacheData := repo.MultiGet(keys, faults);
      forall id | id in nn
        ensures Gives(cacheData, repo.store, faults, Key(lib, prefix, id))
      {
        var i :| 0 <= i < |nn| && nn[i] == id;
        assert keys[i] == Some(Key(lib, prefix, id));
      }
      r := Collect(nn, cacheData, prefix, faults);
      assert forall id :: id in nn <==> id in ids && !id.Null?;
    }

    /** The loop of `getRedisData`: each id whose key has a non-empty text in `cacheData`, with that text. */
    method Collect(nn: seq<Obj>, cacheData: map<string, Option<string>>, prefix: string, faults: Faults) returns (r: map<Obj, string>)
      requires forall id :: id in nn ==> Gives(cacheData, repo.store, faults, Key(repo.lib, prefix, id))
      ensures forall id :: id in r <==> id in nn && BatchText(repo.store, faults, Key(repo.lib, prefix, id)).Some?
      ensures forall id :: id in r ==> r[id] == BatchText(repo.store, faults, Key(repo.lib, prefix, id)).value
    {
      var lib := repo.lib;
      r := map[];
      var i := 0;
      while i < |nn|
        invariant 0 <= i <= |nn|
        invariant forall id :: id in r <==> id in nn[..i] && BatchText(repo.store, faults, Key(lib, prefix, id)).Some?
        invariant forall id :: id in r ==> r[id] == BatchText(repo.store, faults, Key(lib, prefix, id)).value
      {
        var id := nn[i];
        var key := Key(lib, prefix, id);
        var value := if key in cacheData then cacheData[key] else None;
        assert nn[..i + 1] == nn[..i] + [id];
        i := i + 1;
        if IsEmptyText(value) {
          continue;
        }
        r := r[id := value.value];
      }
      assert nn[..i] == nn;
    }

    method GetObjectBatch(ids: seq<Obj>, clazz: Cls, prefix: string, faults: Faults) returns (r: map<Obj, Obj>)
      ensures r == RemoteBatch(repo.lib, repo.store, faults, prefix, ids, clazz, false)
    {
      if |ids| == 0 {
        return map[];
      }
      var cacheData := GetRedisData(ids, prefix, faults);
      r := map id | id in cacheData :: repo.lib.parseObject(cacheData[id], clazz);
    }

    method GetObjectListBatch(ids: seq<Obj>, clazz: Cls, prefix: string, faults: Faults) returns (r: map<Obj, Obj>)
      ensures r == RemoteBatch(repo.lib, repo.store, faults, prefix, ids, clazz, true)
    {
      if |ids| == 0 {
        return map[];
      }
      var cacheData := GetRedisData(ids, prefix, faults);
      r := map id | id in cacheData :: ListObj(repo.lib.parseArray(cacheData[id], clazz));
    }
  }

  /**
   * A batch answers exactly the ids that are not null and whose key holds a
   * non-empty text, and nothing at all when the read fails.
   */
  lemma RemoteBatchKeys(lib: Lib, store: map<string, Stored>, faults: Faults, prefix: string, ids: seq<Obj>, clazz: Cls, asList: bool)
    ensures forall id :: id in RemoteBatch(lib, store, faults, prefix, ids, clazz, asList) <==>
      id in ids && !id.Null? && !faults.readsFail && !IsBlank(Key(lib, prefix, id))
      && Key(lib, prefix, id) in store && store[Key(lib, prefix, id)].value != ""
    ensures faults.readsFail ==> RemoteBatch(lib, store, faults, prefix, ids, clazz, asList) == map[]
  {
  }

  /** Every value a batch answers is what the single-key getter would answer for that id's key. */
  lemma RemoteBatchAgreesWithSingleReads(lib: Lib, store: map<string, Stored>, faults: Faults, prefix: string, ids: seq<Obj>, clazz: Cls)
    ensures forall id :: id in RemoteBatch(lib, store, faults, prefix, ids, clazz, false) ==>
      RemoteBatch(lib, store, faults, prefix, ids, clazz, false)[id] == RemoteObject(lib, store, faults, Key(lib, prefix, id), clazz)
    ensures forall id :: id in RemoteBatch(lib, store, faults, prefix, ids, clazz, true) ==>
      RemoteBatch(lib, store, faults, prefix, ids, clazz, true)[id] == RemoteList(lib, store, faults, Key(lib, prefix, id), clazz)
  {
  }
}
