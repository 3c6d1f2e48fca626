/**
 * LocalCacheServiceImpl: the two-tier cache service. The in-process cache is
 * read first, Redis (through the Redis cache service) next, and whatever
 * Redis answers is copied into the in-process cache.
 */
module LocalService {
  import opened Common
  import opened LocalStore
  import opened Repository
  import opened RedisService

  /** `ids.stream().map(p -> String.format(prefix, p))`: the key of each id, in order. */
  function KeyList(lib: Lib, prefix: string, ids: seq<Obj>): (keys: seq<string>)
    ensures |keys| == |ids| && forall i :: 0 <= i < |ids| ==> keys[i] == Key(lib, prefix, ids[i])
    ensures forall id :: id in ids ==> Key(lib, prefix, id) in keys
  {
    var keys := seq(|ids|, i requires 0 <= i < |ids| => Key(lib, prefix, ids[i]));
    assert forall id :: id in ids ==> Key(lib, prefix, id) in keys by {
      forall id | id in ids
        ensures Key(lib, prefix, id) in keys
      {
        var i :| 0 <= i < |ids| && ids[i] == id;
        assert keys[i] == Key(lib, prefix, id);
      }
    }
    keys
  }

  /** The answer of a single-key read and the local entries after it. */
  datatype Read = Read(value: Obj, local: map<string, Obj>)

  /** `getObjectFromCache(key, clazz)` of the two-tier service. */
  function LocalObject(lib: Lib, local: map<string, Obj>, store: map<string, Stored>, faults: Faults, key: string, clazz: Cls): Read {
    if IsBlank(key) then Read(Null, local)
    else if !Present(local, key).Null? then Read(Present(local, key), local)
    else
      var v := RemoteObject(lib, store, faults, key, clazz);
      if v.Null? then Read(Null, local) else Read(v, local[key := v])
  }

  /** `getObjectListFromCache(key, clazz)` of the two-tier service. */
  function LocalList(lib: Lib, local: map<string, Obj>, store: map<string, Stored>, faults: Faults, key: string, clazz: Cls): Read {
    if IsBlank(key) then Read(Items([]), local)
    else if !Present(local, key).Null? then Read(Present(local, key), local)
    else
      var v := RemoteList(lib, store, faults, key, clazz);
      if IsEmptyList(v) then Read(Items([]), local) else Read(v, local[key := v])
  }

  /** Whether the local cache holds an entry for the key of `id`. */
  predicate LocalHit(lib: Lib, local: map<string, Obj>, prefix: string, id: Obj) {
    !Present(local, Key(lib, prefix, id)).Null?
  }

  /** The `results` of the first loop: each id that hits locally, with its local entry. */
  function LocalHits(lib: Lib, local: map<string, Obj>, prefix: string, ids: seq<Obj>): map<Obj, Obj> {
    map id | id in ids && LocalHit(lib, local, prefix, id) :: Present(local, Key(lib, prefix, id))
  }

  /** The test that sends an id to `missIds`. */
  function LocalMiss(lib: Lib, local: map<string, Obj>, prefix: string): Obj -> bool {
    (id: Obj) => !LocalHit(lib, local, prefix, id)
  }

  /** The `missIds` of the first loop, in input order. */
  function LocalMissIds(lib: Lib, local: map<string, Obj>, prefix: string, ids: seq<Obj>): seq<Obj> {
    Filter(ids, LocalMiss(lib, local, prefix))
  }

  /** What a Redis batch read gives for `key` after the null check of the second loop. */
  function RemoteValue(lib: Lib, store: map<string, Stored>, faults: Faults, key: string, clazz: Cls, asList: bool): Option<Obj> {
    match BatchText(store, faults, key)
    case None => None
    case Some(t) =>
      var v := Decode(lib, t, clazz, asList);
      if v.Null? then None else Some(v)
  }

  /** The ids of `missIds` Redis answered, with their values: what the second loop adds to `results`. */
  function Fetched(lib: Lib, store: map<string, Stored>, faults: Faults, prefix: string, clazz: Cls, asList: bool, miss: seq<Obj>): map<Obj, Obj> {
    map k | k in miss && RemoteValue(lib, store, faults, Key(lib, prefix, k), clazz, asList).Some?
      :: RemoteValue(lib, store, faults, Key(lib, prefix, k), clazz, asList).value
  }

  /** The keys of the ids of a list. */
  function KeySet(lib: Lib, prefix: string, ids: seq<Obj>): set<string> {
    set k | k in ids :: Key(lib, prefix, k)
  }

  lemma KeySetStep(lib: Lib, prefix: string, ids: seq<Obj>, k: Obj)
    ensures KeySet(lib, prefix, ids + [k]) == KeySet(lib, prefix, ids) + {Key(lib, prefix, k)}
  {
  }

  /** `needCacheObjects`: the key of each answered id, with the value Redis gave. */
  function Refill(lib: Lib, store: map<string, Stored>, faults: Faults, prefix: string, clazz: Cls, asList: bool, miss: seq<Obj>): map<string, Obj> {
    map s | s in KeySet(lib, prefix, miss) && RemoteValue(lib, store, faults, s, clazz, asList).Some?
      :: RemoteValue(lib, store, faults, s, clazz, asList).value
  }

  /** The caller's id list after the call, the answer, and the local entries after the call. */
  datatype BatchRead = BatchRead(ids: seq<Obj>, value: map<Obj, Obj>, local: map<string, Obj>)

  /** The two batch getters of the two-tier service (`asList` selects the list getter). */
  function LocalBatch(lib: Lib, local: map<string, Obj>, store: map<string, Stored>, faults: Faults, prefix: string, ids: seq<Obj>, clazz: Cls, asList: bool): BatchRead {
    if |ids| == 0 then BatchRead(ids, map[], local)
    else TwoTier(lib, local, store, faults, prefix, NonNull(ids), clazz, asList)
  }

  /** A batch read of ids that are not null: local hits, then Redis for the misses, if any. */
  function TwoTier(lib: Lib, local: map<string, Obj>, store: map<string, Stored>, faults: Faults, prefix: string, nn: seq<Obj>, clazz: Cls, asList: bool): BatchRead {
    var hits := LocalHits(lib, local, prefix, nn);
    var miss := LocalMissIds(lib, local, prefix, nn);
    if |miss| == 0 then BatchRead(nn, hits, local)
    else BatchRead(nn, hits + Fetched(lib, store, faults, prefix, clazz, asList, miss),
                   local + Refill(lib, store, faults, prefix, clazz, asList, miss))
  }

  /** `answer.get(k)` is not null exactly when `rv` holds a value, and then it is that value. */
  predicate Answers(answer: map<Obj, Obj>, k: Obj, rv: Option<Obj>) {
    (k in answer && !answer[k].Null? <==> rv.Some?) && (rv.Some? ==> answer[k] == rv.value)
  }

  /** For a missed id, a batch read of Redis answers exactly `RemoteValue` of its key. */
  lemma RemoteBatchValue(lib: Lib, store: map<string, Stored>, faults: Faults, prefix: string, miss: seq<Obj>, clazz: Cls, asList: bool, k: Obj)
    requires |miss| > 0 && k in miss && !k.Null?
    ensures Answers(RemoteBatch(lib, store, faults, prefix, miss, clazz, asList), k,
                    RemoteValue(lib, store, faults, Key(lib, prefix, k), clazz, asList))
  {
  }

  /** One more id handled by the first loop. */
  lemma PartitionStep(lib: Lib, local: map<string, Obj>, prefix: string, nn: seq<Obj>, i: nat)
    requires i < |nn|
    ensures LocalHits(lib, local, prefix, nn[..i + 1])
      == if LocalHit(lib, local, prefix, nn[i]) then LocalHits(lib, local, prefix, nn[..i])[nn[i] := Present(local, Key(lib, prefix, nn[i]))]
         else LocalHits(lib, local, prefix, nn[..i])
    ensures LocalMissIds(lib, local, prefix, nn[..i + 1])
      == LocalMissIds(lib, local, prefix, nn[..i]) + if LocalHit(lib, local, prefix, nn[i]) then [] else [nn[i]]
  {
    assert nn[..i + 1] == nn[..i] + [nn[i]];
    FilterStep(nn, i, LocalMiss(lib, local, prefix));
  }

  /** One more id handled by the second loop, as seen in `needCacheObjects`. */
  lemma RefillStep(lib: Lib, store: map<string, Stored>, faults: Faults, prefix: string, clazz: Cls, asList: bool, miss: seq<Obj>, k: Obj)
    ensures var rv := RemoteValue(lib, store, faults, Key(lib, prefix, k), clazz, asList);
      Refill(lib, store, faults, prefix, clazz, asList, miss + [k])
      == if rv.Some? then Refill(lib, store, faults, prefix, clazz, asList, miss)[Key(lib, prefix, k) := rv.value]
         else Refill(lib, store, faults, prefix, clazz, asList, miss)
  {
    KeySetStep(lib, prefix, miss, k);
  }

  /** One more id handled by the second loop, as seen in `results`. */
  lemma FetchedStep(lib: Lib, store: map<string, Stored>, faults: Faults, prefix: string, clazz: Cls, asList: bool, miss: seq<Obj>, k: Obj)
    ensures var rv := RemoteValue(lib, store, faults, Key(lib, prefix, k), clazz, asList);
      Fetched(lib, store, faults, prefix, clazz, asList, miss + [k])
      == if rv.Some? then Fetched(lib, store, faults, prefix, clazz, asList, miss)[k := rv.value]
         else Fetched(lib, store, faults, prefix, clazz, asList, miss)
  {
  }

  /** One more id handled by the second loop, in both of the maps it fills. */
  lemma MergeStep(lib: Lib, store: map<string, Stored>, faults: Faults, prefix: string, clazz: Cls, asList: bool, miss: seq<Obj>, j: nat)
    requires j < |miss|
    ensures var rv := RemoteValue(lib, store, faults, Key(lib, prefix, miss[j]), clazz, asList);
      Refill(lib, store, faults, prefix, clazz, asList, miss[..j + 1])
      == (if rv.Some? then Refill(lib, store, faults, prefix, clazz, asList, miss[..j])[Key(lib, prefix, miss[j]) := rv.value]
          else Refill(lib, store, faults, prefix, clazz, asList, miss[..j]))
    ensures var rv := RemoteValue(lib, store, faults, Key(lib, prefix, miss[j]), clazz, asList);
      Fetched(lib, store, faults, prefix, clazz, asList, miss[..j + 1])
      == (if rv.Some? then Fetched(lib, store, faults, prefix, clazz, asList, miss[..j])[miss[j] := rv.value]
          else Fetched(lib, store, faults, prefix, clazz, asList, miss[..j]))
  {
    assert miss[..j + 1] == miss[..j] + [miss[j]];
    RefillStep(lib, store, faults, prefix, clazz, asList, miss[..j], miss[j]);
    FetchedStep(lib, store, faults, prefix, clazz, asList, miss[..j], miss[j]);
  }

  class LocalCacheService {
    const redis: RedisCacheService
    const cache: LocalCache

    constructor (redis: RedisCacheService, cache: LocalCache)
      ensures this.redis == redis && this.cache == cache
    {
      this.redis := redis;
      this.cache := cache;
    }

    method GetObject(key: string, clazz: Cls, faults: Faults) returns (v: Obj)
      modifies cache
      ensures Read(v, cache.entries) == LocalObject(redis.repo.lib, old(cache.entries), redis.repo.store, faults, key, clazz)
    {
      if IsBlank(key) {
        return Null;
      }
      var value := cache.GetIfPresent(key);
      if !value.Null? {
        return value;
      }
      v := redis.GetObject(key, clazz, faults);
      if v.Null? {
        return Null;
      }
      cache.Put(key, v);
    }

    method GetObjectList(key: string, clazz: Cls, faults: Faults) returns (v: Obj)
      modifies cache
      ensures Read(v, cache.entries) == LocalList(redis.repo.lib, old(cache.entries), redis.repo.store, faults, key, clazz)
    {
      if IsBlank(key) {
        return Items([]);
      }
      var value := cache.GetIfPresent(key);
      if !value.Null? {
        return value;
      }
      v := redis.GetObjectList(key, clazz, faults);
      if IsEmptyList(v) {
        return Items([]);
      }
      cache.Put(key, v);
    }

    method GetObjectBatch(ids: IdList, clazz: Cls, prefix: string, faults: Faults) returns (r: map<Obj, Obj>)
      modifies ids, cache
      ensures BatchRead(ids.items, r, cache.entries)
           == LocalBatch(redis.repo.lib, old(cache.entries), redis.repo.store, faults, prefix, old(ids.items), clazz, false)
    {
      r := Batch(ids, clazz, prefix, faults, false);
    }

    method GetObjectListBatch(ids: IdList, clazz: Cls, prefix: string, faults: Faults) returns (r: map<Obj, Obj>)
      modifies ids, cache
      ensures BatchRead(ids.items, r, cache.entries)
           == LocalBatch(redis.repo.lib, old(cache.entries), redis.repo.store, faults, prefix, old(ids.items), clazz, true)
    {
      r := Batch(ids, clazz, prefix, faults, true);
    }

    /** The common body of the two batch getters, which differ only in the Redis getter they call. */
    method Batch(ids: IdList, clazz: Cls, prefix: string, faults: Faults, asList: bool) returns (r: map<Obj, Obj>)
      modifies ids, cache
      ensures BatchRead(ids.items, r, cache.entries)
           == LocalBatch(redis.repo.lib, old(cache.entries), redis.repo.store, faults, prefix, old(ids.items), clazz, asList)
    {
      if |ids.items| == 0 {
        return map[];
      }
      ids.RemoveNulls();
      r := Lookup(ids.items, clazz, prefix, faults, asList);
    }

    /** Everything after `removeIf`: the two loops, the Redis read between them and the local write-back. */
    method Lookup(nn: seq<Obj>, clazz: Cls, prefix: string, faults: Faults, asList: bool) returns (r: map<Obj, Obj>)
      requires forall id :: id in nn ==> !id.Null?
      modifies cache
      ensures BatchRead(nn, r, cache.entries) == TwoTier(redis.repo.lib, old(cache.entries), redis.repo.store, faults, prefix, nn, clazz, asList)
    {
      var lib := redis.repo.lib;
      var keys := KeyList(lib, prefix, nn);
      var allPresent := cache.GetAllPresent(keys);
      var local := cache.entries;
      var missIds;
      r, missIds := Partition(nn, allPresent, prefix, local);
      if |missIds| == 0 {
        return;
      }
      r := Refresh(missIds, r, clazz, prefix, faults, asList);
    }

    /** The misses of the first loop: Redis is asked, and its answers join `results` and the local cache. */
    method Refresh(missIds: seq<Obj>, hits: map<Obj, Obj>, clazz: Cls, prefix: string, faults: Faults, asList: bool) returns (r: map<Obj, Obj>)
      requires |missIds| > 0 && forall k :: k in missIds ==> !k.Null?
      modifies cache
      ensures r == hits + Fetched(redis.repo.lib, redis.repo.store, faults, prefix, clazz, asList, missIds)
      ensures cache.entries == old(cache.entries) + Refill(redis.repo.lib, redis.repo.store, faults, prefix, clazz, asList, missIds)
    {
      var fromRedis := AskRedis(missIds, clazz, prefix, faults, asList);
      var needCacheObjects;
      r, needCacheObjects := Merge(missIds, fromRedis, hits, clazz, prefix, faults, asList);
      if |needCacheObjects| != 0 {
        cache.PutAll(needCacheObjects);
      } else {
        UnionEmpty(cache.entries, needCacheObjects);
      }
    }

    /** The Redis batch getter of the right kind; for each missed id it answers `RemoteValue` of its key. */
    method AskRedis(missIds: seq<Obj>, clazz: Cls, prefix: string, faults: Faults, asList: bool) returns (fromRedis: map<Obj, Obj>)
      requires |missIds| > 0 && forall k :: k in missIds ==> !k.Null?
      ensures forall k :: k in missIds ==>
        Answers(fromRedis, k, RemoteValue(redis.repo.lib, redis.repo.store, faults, Key(redis.repo.lib, prefix, k), clazz, asList))
    {
      if asList {
        fromRedis := redis.GetObjectListBatch(missIds, clazz, prefix, faults);
      } else {
        fromRedis := redis.GetObjectBatch(missIds, clazz, prefix, faults);
      }
      forall k | k in missIds
        ensures Answers(fromRedis, k, RemoteValue(redis.repo.lib, redis.repo.store, faults, Key(redis.repo.lib, prefix, k), clazz, asList))
      {
        RemoteBatchValue(redis.repo.lib, redis.repo.store, faults, prefix, missIds, clazz, asList, k);
      }
    }

    /**
     * The first loop: an id whose key the local cache holds goes to `results`
     * with that entry, every other id goes to `missIds`.
     */
    method Partition(nn: seq<Obj>, allPresent: map<string, Obj>, prefix: string, ghost local: map<string, Obj>)
      returns (results: map<Obj, Obj>, missIds: seq<Obj>)
      requires forall id :: id in nn ==> Present(allPresent, Key(redis.repo.lib, prefix, id)) == Present(local, Key(redis.repo.lib, prefix, id))
      ensures results == LocalHits(redis.repo.lib, local, prefix, nn)
      ensures missIds == LocalMissIds(redis.repo.lib, local, prefix, nn)
    {
      var lib := redis.repo.lib;
      results := map[];
      missIds := [];
      var i := 0;
      while i < |nn|
        invariant 0 <= i <= |nn|
        invariant results == LocalHits(lib, local, prefix, nn[..i])
        invariant missIds == LocalMissIds(lib, local, prefix, nn[..i])
      {
        var id := nn[i];
        var key := Key(lib, prefix, id);
        var v := if key in allPresent then allPresent[key] else Null;
        PartitionStep(lib, local, prefix, nn, i);
        if !v.Null? {
          results := results[id := v];
        } else {
          missIds := missIds + [id];
        }
        i := i + 1;
      }
      assert nn[..i] == nn;
    }

    /**
     * The second loop: each missed id Redis answered with a value that is not
     * null joins `results`, and its key and value join `needCacheObjects`.
     */
    method Merge(missIds: seq<Obj>, fromRedis: map<Obj, Obj>, hits: map<Obj, Obj>, clazz: Cls, prefix: string, faults: Faults, asList: bool)
      returns (results: map<Obj, Obj>, needCacheObjects: map<string, Obj>)
      requires forall k :: k in missIds ==> Answers(fromRedis, k, RemoteValue(redis.repo.lib, redis.repo.store, faults, Key(redis.repo.lib, prefix, k), clazz, asList))
      ensures results == hits + Fetched(redis.repo.lib, redis.repo.store, faults, prefix, clazz, asList, missIds)
      ensures needCacheObjects == Refill(redis.repo.lib, redis.repo.store, faults, prefix, clazz, asList, missIds)
      ensures forall s :: s in needCacheObjects ==> !needCacheObjects[s].Null?
    {
      var lib := redis.repo.lib;
      results := hits;
      needCacheObjects := map[];
      var j := 0;
      while j < |missIds|
        invariant 0 <= j <= |missIds|
        invariant needCacheObjects == Refill(lib, redis.repo.store, faults, prefix, clazz, asList, missIds[..j])
        invariant forall s :: s in needCacheObjects ==> !needCacheObjects[s].Null?
        invariant results == hits + Fetched(lib, redis.repo.store, faults, prefix, clazz, asList, missIds[..j])
      {
        var k := missIds[j];
        var v := if k in fromRedis then fromRedis[k] else Null;
        ghost var rv := RemoteValue(lib, redis.repo.store, faults, Key(lib, prefix, k), clazz, asList);
        MergeStep(lib, redis.repo.store, faults, prefix, clazz, asList, missIds, j);
        ghost var fetched := Fetched(lib, redis.repo.store, faults, prefix, clazz, asList, missIds[..j]);
        j := j + 1;
        if v.Null? {
          continue;
        }
        needCacheObjects := needCacheObjects[Key(lib, prefix, k) := v];
        UpdateUnion(hits, fetched, k, v);
        results := results[k := v];
      }
      assert missIds[..j] == missIds;
    }
  }

  // ---------------------------------------------------------------- properties of the two tiers

  /** With no local entry for the key, the two-tier service answers what Redis answers. */
  lemma LocalObjectAgreesWithRedis(lib: Lib, local: map<string, Obj>, store: map<string, Stored>, faults: Faults, key: string, clazz: Cls)
    requires Present(local, key).Null?
    ensures LocalObject(lib, local, store, faults, key, clazz).value == RemoteObject(lib, store, faults, key, clazz)
    ensures LocalList(lib, local, store, faults, key, clazz).value == RemoteList(lib, store, faults, key, clazz)
            || (IsEmptyList(RemoteList(lib, store, faults, key, clazz))
                && LocalList(lib, local, store, faults, key, clazz).value == Items([]))
  {
  }

  /**
   * A read changes the local entry of its own key only, and there it stores
   * the answer; once answered, the key is served locally whatever Redis holds.
   */
  lemma LocalObjectCachesAnswer(lib: Lib, local: map<string, Obj>, store: map<string, Stored>, faults: Faults, key: string, clazz: Cls,
                                store2: map<string, Stored>, faults2: Faults)
    ensures var r := LocalObject(lib, local, store, faults, key, clazz);
      (forall k :: k != key ==> Present(r.local, k) == Present(local, k))
      && (!r.value.Null? ==> (Present(r.local, key) == r.value
                             && LocalObject(lib, r.local, store2, faults2, key, clazz) == Read(r.value, r.local)))
      && (r.value.Null? ==> r.local == local)
  {
  }

  /** The same for the list getter: a non-empty answer is kept and served locally. */
  lemma LocalListCachesAnswer(lib: Lib, local: map<string, Obj>, store: map<string, Stored>, faults: Faults, key: string, clazz: Cls,
                              store2: map<string, Stored>, faults2: Faults)
    ensures var r := LocalList(lib, local, store, faults, key, clazz);
      (forall k :: k != key ==> Present(r.local, k) == Present(local, k))
      && (Present(r.local, key) == Present(local, key) || Present(r.local, key) == r.value)
      && (!IsEmptyList(r.value) && !IsBlank(key) ==> LocalList(lib, r.local, store2, faults2, key, clazz) == Read(r.value, r.local))
  {
    var r := LocalList(lib, local, store, faults, key, clazz);
    if !IsEmptyList(r.value) && !IsBlank(key) && Present(local, key).Null? {
      assert r.local == local[key := r.value];
    }
  }

  /** Every id of a batch is a local hit or a miss, never both. */
  lemma PartitionIsExact(lib: Lib, local: map<string, Obj>, prefix: string, nn: seq<Obj>)
    ensures forall id :: id in nn ==> (id in LocalHits(lib, local, prefix, nn) <==> id !in LocalMissIds(lib, local, prefix, nn))
    ensures forall id :: id in LocalHits(lib, local, prefix, nn) || id in LocalMissIds(lib, local, prefix, nn) ==> id in nn
  {
  }

  /**
   * What a batch answers for one id: its local entry if the local cache has
   * one, otherwise the value Redis holds under its key.
   */
  function Answer(lib: Lib, local: map<string, Obj>, store: map<string, Stored>, faults: Faults, prefix: string, id: Obj, clazz: Cls, asList: bool): Option<Obj> {
    if LocalHit(lib, local, prefix, id) then Some(Present(local, Key(lib, prefix, id)))
    else RemoteValue(lib, store, faults, Key(lib, prefix, id), clazz, asList)
  }

  /** The batch of ids that are not null answers each id exactly as `Answer` does. */
  lemma TwoTierAnswers(lib: Lib, local: map<string, Obj>, store: map<string, Stored>, faults: Faults, prefix: string,
                       nn: seq<Obj>, clazz: Cls, asList: bool)
    ensures var b := TwoTier(lib, local, store, faults, prefix, nn, clazz, asList);
      forall id :: (id in b.value <==> id in nn && Answer(lib, local, store, faults, prefix, id, clazz, asList).Some?)
        && (id in b.value ==> b.value[id] == Answer(lib, local, store, faults, prefix, id, clazz, asList).value)
  {
    var hits := LocalHits(lib, local, prefix, nn);
    var miss := LocalMissIds(lib, local, prefix, nn);
    var fetched := Fetched(lib, store, faults, prefix, clazz, asList, miss);
    var b := TwoTier(lib, local, store, faults, prefix, nn, clazz, asList);
    assert b.value == if |miss| == 0 then hits else hits + fetched;
    forall id
      ensures (id in b.value <==> id in nn && Answer(lib, local, store, faults, prefix, id, clazz, asList).Some?)
        && (id in b.value ==> b.value[id] == Answer(lib, local, store, faults, prefix, id, clazz, asList).value)
    {
      if LocalHit(lib, local, prefix, id) {
        assert id !in fetched;
      } else if id in nn {
        assert id in miss && id !in hits;
      } else {
        assert id !in hits && id !in fetched;
      }
    }
  }

  /**
   * A batch answers only ids of the list that are not null, each as `Answer`
   * does, and every answered value is not null.
   */
  lemma LocalBatchAnswers(lib: Lib, local: map<string, Obj>, store: map<string, Stored>, faults: Faults, prefix: string,
                          ids: seq<Obj>, clazz: Cls, asList: bool)
    ensures var b := LocalBatch(lib, local, store, faults, prefix, ids, clazz, asList);
      forall id :: (id in b.value <==> id in ids && !id.Null? && Answer(lib, local, store, faults, prefix, id, clazz, asList).Some?)
        && (id in b.value ==> b.value[id] == Answer(lib, local, store, faults, prefix, id, clazz, asList).value && !b.value[id].Null?)
  {
    if |ids| != 0 {
      TwoTierAnswers(lib, local, store, faults, prefix, NonNull(ids), clazz, asList);
    }
  }

  /** After a batch of ids that are not null, the local cache holds every answer under its id's key. */
  lemma TwoTierRefillsLocal(lib: Lib, local: map<string, Obj>, store: map<string, Stored>, faults: Faults, prefix: string,
                            nn: seq<Obj>, clazz: Cls, asList: bool)
    ensures var b := TwoTier(lib, local, store, faults, prefix, nn, clazz, asList);
      forall id :: id in b.value ==> Present(b.local, Key(lib, prefix, id)) == b.value[id]
  {
    var b := TwoTier(lib, local, store, faults, prefix, nn, clazz, asList);
    var miss := LocalMissIds(lib, local, prefix, nn);
    if |miss| != 0 {
      var hits := LocalHits(lib, local, prefix, nn);
      var fetched := Fetched(lib, store, faults, prefix, clazz, asList, miss);
      var refill := Refill(lib, store, faults, prefix, clazz, asList, miss);
      assert b.value == hits + fetched && b.local == local + refill;
      forall id | id in b.value
        ensures Present(b.local, Key(lib, prefix, id)) == b.value[id]
      {
        var key := Key(lib, prefix, id);
        if id in fetched {
          assert key in KeySet(lib, prefix, miss);
          assert b.value[id] == fetched[id] == refill[key] == Present(b.local, key);
        } else {
          assert forall m :: m in miss ==> Key(lib, prefix, m) != key;
          assert key !in refill;
          assert b.value[id] == hits[id] == Present(local, key) == Present(b.local, key);
        }
      }
    }
  }

  /** A batch of ids that are not null changes no local entry but those of the ids' keys. */
  lemma TwoTierKeepsOtherKeys(lib: Lib, local: map<string, Obj>, store: map<string, Stored>, faults: Faults, prefix: string,
                              nn: seq<Obj>, clazz: Cls, asList: bool)
    ensures var b := TwoTier(lib, local, store, faults, prefix, nn, clazz, asList);
      forall s :: s !in KeySet(lib, prefix, nn) ==> Present(b.local, s) == Present(local, s)
  {
    var miss := LocalMissIds(lib, local, prefix, nn);
    if |miss| != 0 {
      var refill := Refill(lib, store, faults, prefix, clazz, asList, miss);
      assert refill.Keys <= KeySet(lib, prefix, nn);
    }
  }

  /**
   * After a batch, the local cache holds every answered id under its key with
   * the answered value, and entries of keys of no listed id are unchanged.
   */
  lemma LocalBatchRefillsLocal(lib: Lib, local: map<string, Obj>, store: map<string, Stored>, faults: Faults, prefix: string,
                               ids: seq<Obj>, clazz: Cls, asList: bool)
    ensures var b := LocalBatch(lib, local, store, faults, prefix, ids, clazz, asList);
      forall id :: id in b.value ==> Present(b.local, Key(lib, prefix, id)) == b.value[id]
    ensures var b := LocalBatch(lib, local, store, faults, prefix, ids, clazz, asList);
      forall s :: s !in KeySet(lib, prefix, ids) ==> Present(b.local, s) == Present(local, s)
  {
    if |ids| != 0 {
      TwoTierRefillsLocal(lib, local, store, faults, prefix, NonNull(ids), clazz, asList);
      TwoTierKeepsOtherKeys(lib, local, store, faults, prefix, NonNull(ids), clazz, asList);
    }
  }

  /** When every id hits locally, Redis is not read and the local cache is unchanged. */
  lemma LocalBatchAllHitsSkipRedis(lib: Lib, local: map<string, Obj>, store: map<string, Stored>, faults: Faults, prefix: string,
                                   ids: seq<Obj>, clazz: Cls, asList: bool, store2: map<string, Stored>, faults2: Faults)
    requires forall id :: id in ids && !id.Null? ==> LocalHit(lib, local, prefix, id)
    ensures LocalBatch(lib, local, store, faults, prefix, ids, clazz, asList) == LocalBatch(lib, local, store2, faults2, prefix, ids, clazz, asList)
    ensures LocalBatch(lib, local, store, faults, prefix, ids, clazz, asList).local == local
  {
    if |ids| != 0 {
      var nn := NonNull(ids);
      FilterAllOrNone(nn, LocalMiss(lib, local, prefix));
      assert LocalMissIds(lib, local, prefix, nn) == [];
      var hits := LocalHits(lib, local, prefix, nn);
      assert TwoTier(lib, local, store, faults, prefix, nn, clazz, asList) == BatchRead(nn, hits, local);
      assert TwoTier(lib, local, store2, faults2, prefix, nn, clazz, asList) == BatchRead(nn, hits, local);
    }
  }

  /** A second batch of the same ids is answered from the local cache for every id the first one answered. */
  lemma LocalBatchWarmReread(lib: Lib, local: map<string, Obj>, store: map<string, Stored>, faults: Faults, prefix: string,
                             ids: seq<Obj>, clazz: Cls, asList: bool, store2: map<string, Stored>, faults2: Faults)
    ensures var b := LocalBatch(lib, local, store, faults, prefix, ids, clazz, asList);
      var b2 := LocalBatch(lib, b.local, store2, faults2, prefix, ids, clazz, asList);
      forall id :: id in b.value ==> id in b2.value && b2.value[id] == b.value[id]
  {
    var b := LocalBatch(lib, local, store, faults, prefix, ids, clazz, asList);
    LocalBatchRefillsLocal(lib, local, store, faults, prefix, ids, clazz, asList);
    LocalBatchAnswers(lib, local, store, faults, prefix, ids, clazz, asList);
    LocalBatchAnswers(lib, b.local, store2, faults2, prefix, ids, clazz, asList);
  }
}
