/**
 * What the advice promises: when the loader is called and when not, what is
 * written to Redis and why, and what each batch answers. Also the two places
 * where the advice as written departs from what it evidently intends.
 */
module AspectProperties {
  import opened Common
  import opened LocalStore
  import opened Repository
  import opened RedisService
  import opened LocalService
  import opened Aspect

  // ---------------------------------------------------------------- the guard of the batch path

  /** As written, the guard lets a Map second argument through; the corrected guard refuses it. */
  lemma BatchParamCheckAsWrittenAdmitsMap(ids: seq<Obj>, m: map<Obj, Obj>)
    ensures !BatchParamCheckAsWritten([Items(ids), Table(m)])
    ensures BatchParamCheck([Items(ids), Table(m)])
  {
  }

  /** On the batch path the two guards differ exactly for a Map second argument. */
  lemma BatchParamChecksDiffer(args: seq<Obj>)
    requires |args| >= 1 && args[0].Items?
    ensures BatchParamCheckAsWritten(args) != BatchParamCheck(args) <==> |args| == 2 && args[1].Table?
  {
  }

  /**
   * As written, a batch whose second argument is a Map gets past the guard:
   * the tier is read and, if anything missed, the loader gets the Map as its
   * second argument.
   */
  lemma AroundAdmitsMapParam(lib: Lib, policy: Policy, ids: seq<Obj>, m: map<Obj, Obj>, loader: Loader,
                             faults: Faults, local: map<string, Obj>, store: map<string, Stored>, kv: map<string, Obj>)
    ensures var args := [Items(ids), Table(m)];
      var t := BatchTier(lib, policy, args, faults, local, store);
      var miss := CacheMissList(t.ids, t.value);
      var o := Around(lib, policy, MapType, args, loader, faults, local, store, kv);
      IsBatch(MapType, args)
      && o.calls == (if |miss| == 0 then [] else [[Items(miss), Table(m)]])
      && o.local == t.local
  {
    var args := [Items(ids), Table(m)];
    var t := BatchTier(lib, policy, args, faults, local, store);
    var miss := CacheMissList(t.ids, t.value);
    assert args[1..] == [Table(m)];
    assert LoaderArgs(miss, args) == [Items(miss), Table(m)];
    ListCacheCalls(lib, store, faults, t.ids, t.value, args, loader, BatchPrefix(lib, policy.prefix, args),
                   policy.expire, policy.missExpire, BatchEmpty(lib, policy), kv);
  }

  /** With the guard as intended, a batch whose second argument is a Map is refused before any tier or the loader is touched. */
  lemma AroundRefusesMapParam(lib: Lib, policy: Policy, returnType: Cls, ids: seq<Obj>, m: map<Obj, Obj>, loader: Loader,
                              faults: Faults, local: map<string, Obj>, store: map<string, Stored>, kv: map<string, Obj>)
    ensures AroundIntended(lib, policy, returnType, [Items(ids), Table(m)], loader, faults, local, store, kv)
         == Outcome(Failure(IllegalArgument("do not support the args")), [], local, store)
  {
  }

  /** The intended advice differs from the advice as written on exactly the batches with a Map second argument. */
  lemma AroundIntendedDiffersOnlyOnMapParam(lib: Lib, policy: Policy, returnType: Cls, args: seq<Obj>, loader: Loader,
                                            faults: Faults, local: map<string, Obj>, store: map<string, Stored>, kv: map<string, Obj>)
    ensures AroundIntended(lib, policy, returnType, args, loader, faults, local, store, kv)
         != Around(lib, policy, returnType, args, loader, faults, local, store, kv)
        <==> |args| == 2 && args[0].Items? && args[1].Table?
  {
    if |args| == 2 && args[0].Items? && args[1].Table? && returnType == MapType {
      var t := BatchTier(lib, policy, args, faults, local, store);
      var miss := CacheMissList(t.ids, t.value);
      ListCacheCalls(lib, store, faults, t.ids, t.value, args, loader, BatchPrefix(lib, policy.prefix, args),
                     policy.expire, policy.missExpire, BatchEmpty(lib, policy), kv);
      if |miss| == 0 {
        assert Around(lib, policy, returnType, args, loader, faults, local, store, kv).result.Success?;
      } else {
        assert Around(lib, policy, returnType, args, loader, faults, local, store, kv).calls != [];
      }
    }
  }

  /** Every refusal of the batch path comes before any tier or the loader is touched. */
  lemma AroundGuardsTouchNothing(lib: Lib, policy: Policy, returnType: Cls, args: seq<Obj>, loader: Loader,
                                 faults: Faults, local: map<string, Obj>, store: map<string, Stored>, kv: map<string, Obj>)
    requires |args| >= 1 && args[0].Items? && (|args| > 2 || BatchParamCheckAsWritten(args) || returnType != MapType)
    ensures var o := Around(lib, policy, returnType, args, loader, faults, local, store, kv);
      o.result.Failure? && o.result.error.IllegalArgument? && o.calls == [] && o.local == local && o.store == store
  {
  }

  /**
   * A batch fails by the loader's own exception or a result that is no Map,
   * and then writes nothing; or by `toMap` meeting one key twice among the ids
   * the loader did not find, and then the loaded values are already written
   * and no placeholder is.
   */
  lemma ListCacheErrors(lib: Lib, store: map<string, Stored>, faults: Faults, inputList: seq<Obj>, cached: map<Obj, Obj>,
                        args: seq<Obj>, loader: Loader, prefix: string, expire: int, missExpire: int, empty: Obj, kv: map<string, Obj>)
    requires |args| >= 1
    ensures var h := ListCache(lib, store, faults, inputList, cached, args, loader, prefix, expire, missExpire, empty, kv);
      var miss := CacheMissList(inputList, cached);
      var loaded := LoadedMap(inputList, cached, args, loader);
      h.result.Failure? ==>
        (h.store == store
         && (h.result.error == ClassCast || loader(LoaderArgs(miss, args)) == Failure(h.result.error)))
        || (loader(LoaderArgs(miss, args)).Success? && h.result.error.DuplicateKey?
            && missExpire != DISABLE_MISS_VALUE && !DistinctKeys(lib, prefix, DbMissingList(miss, loaded))
            && h.store == LoadedStore(lib, store, faults, loaded, expire, kv))
  {
    var miss := CacheMissList(inputList, cached);
    if |miss| > 0 {
      var params := LoaderArgs(miss, args);
      var r := loader(params);
      if r.Success? && (r.value.Null? || r.value.Table?) {
        var loaded := LoadedMap(inputList, cached, args, loader);
        assert loaded == if r.value.Null? then map[] else r.value.entries;
        LoadedWritesAsWrittenAgree(lib, store, faults, miss, loaded, prefix, expire, missExpire, empty, kv);
      }
    }
  }

  /** The loader is called once exactly when some id missed; with no miss the batch answers the tier's entries. */
  lemma ListCacheCalls(lib: Lib, store: map<string, Stored>, faults: Faults, inputList: seq<Obj>, cached: map<Obj, Obj>,
                       args: seq<Obj>, loader: Loader, prefix: string, expire: int, missExpire: int, empty: Obj, kv: map<string, Obj>)
    requires |args| >= 1
    ensures var h := ListCache(lib, store, faults, inputList, cached, args, loader, prefix, expire, missExpire, empty, kv);
      var miss := CacheMissList(inputList, cached);
      h.calls == (if |miss| == 0 then [] else [LoaderArgs(miss, args)])
      && (|miss| == 0 ==> h.result == Success(Table(cached)))
  {
  }

  /**
   * As written, the write-back fails, with a repeated key, exactly when
   * negative caching is on and two ids the loader did not find share a key;
   * then only the loaded values are written. Otherwise it is the intended
   * write-back, `LoadedWrites`.
   */
  lemma LoadedWritesAsWrittenAgree(lib: Lib, store: map<string, Stored>, faults: Faults, miss: seq<Obj>, loaded: map<Obj, Obj>,
                                   prefix: string, expire: int, missExpire: int, empty: Obj, kv: map<string, Obj>)
    ensures var w := LoadedWritesAsWritten(lib, store, faults, miss, loaded, prefix, expire, missExpire, empty, kv);
      (w.failure.Some? <==> missExpire != DISABLE_MISS_VALUE && !DistinctKeys(lib, prefix, DbMissingList(miss, loaded)))
      && (w.failure.Some? ==> w.failure.value.DuplicateKey? && w.store == LoadedStore(lib, store, faults, loaded, expire, kv))
      && (w.failure.None? ==> w.store == LoadedWrites(lib, store, faults, miss, loaded, prefix, expire, missExpire, empty, kv))
  {
    var dbMiss := DbMissingList(miss, loaded);
    PlaceholdersAsWrittenNeedDistinctKeys(lib, prefix, dbMiss, empty);
    if |dbMiss| == 0 {
      assert dbMiss == [];
    }
  }

  /** A null first argument answers null and touches nothing. */
  lemma AroundNullArgument(lib: Lib, policy: Policy, returnType: Cls, args: seq<Obj>, loader: Loader,
                           faults: Faults, local: map<string, Obj>, store: map<string, Stored>, kv: map<string, Obj>)
    requires |args| >= 1 && args[0].Null?
    ensures Around(lib, policy, returnType, args, loader, faults, local, store, kv) == Outcome(Success(Null), [], local, store)
  {
  }

  /**
   * A null id reaches the loader on the Redis tier, which keeps the caller's
   * list as it is, but not on the two-tier service, which removes it.
   */
  lemma NullIdsReachLoaderOnRedisTierOnly(lib: Lib, policy: Policy, loader: Loader, faults: Faults,
                                          local: map<string, Obj>, store: map<string, Stored>, kv: map<string, Obj>)
    ensures Around(lib, policy.(usingLocalCache := false), MapType, [Items([Null])], loader, faults, local, store, kv).calls
         == [[Items([Null])]]
    ensures var o := Around(lib, policy.(usingLocalCache := true), MapType, [Items([Null])], loader, faults, local, store, kv);
      o.calls == [] && o.result == Success(Table(map[]))
  {
    var args := [Items([Null])];
    var prefix := BatchPrefix(lib, policy.prefix, args);
    assert RedisData(lib, store, faults, prefix, [Null]) == map[];
    var redisTier := BatchTier(lib, policy.(usingLocalCache := false), args, faults, local, store);
    assert redisTier.value == map[] && redisTier.ids == [Null];
    assert CacheMissList([Null], map[]) == [Null] by {
      assert [Null][..0] == [];
    }
    assert LoaderArgs([Null], args) == args by {
      assert args[1..] == [];
    }
    assert NonNull([Null]) == [] by {
      assert [Null][..0] == [];
    }
    assert LocalHits(lib, local, prefix, []) == map[];
  }

  // ---------------------------------------------------------------- placeholders of a batch

  /** No two ids of the list have the same key. */
  predicate DistinctKeys(lib: Lib, prefix: string, ids: seq<Obj>) {
    forall i, j :: 0 <= i < j < |ids| ==> Key(lib, prefix, ids[i]) != Key(lib, prefix, ids[j])
  }

  /** Every id the loader did not find gets the placeholder under its key, and no other key is written. */
  lemma PlaceholderEntriesCover(lib: Lib, prefix: string, dbMiss: seq<Obj>, empty: Obj)
    ensures var p := PlaceholderEntries(lib, prefix, dbMiss, empty);
      (forall id :: id in dbMiss ==> Key(lib, prefix, id) in p && p[Key(lib, prefix, id)] == empty)
      && (forall s :: s in p ==> exists id :: id in dbMiss && Key(lib, prefix, id) == s)
  {
  }

  /** One more id keeps the keys distinct exactly when its key is new. */
  lemma DistinctKeysSnoc(lib: Lib, prefix: string, init: seq<Obj>, last: Obj)
    ensures DistinctKeys(lib, prefix, init + [last])
        <==> DistinctKeys(lib, prefix, init) && Key(lib, prefix, last) !in KeySet(lib, prefix, init)
  {
    var xs := init + [last];
    var key := Key(lib, prefix, last);
    assert forall i :: 0 <= i < |init| ==> xs[i] == init[i];
    if key in KeySet(lib, prefix, init) {
      var k :| k in init && Key(lib, prefix, k) == key;
      var i :| 0 <= i < |init| && init[i] == k;
      assert xs[i] == k && xs[|init|] == last;
    }
  }

  /** One more id adds one placeholder entry. */
  lemma PlaceholderEntriesSnoc(lib: Lib, prefix: string, init: seq<Obj>, last: Obj, empty: Obj)
    ensures PlaceholderEntries(lib, prefix, init + [last], empty)
         == PlaceholderEntries(lib, prefix, init, empty)[Key(lib, prefix, last) := empty]
  {
    KeySetStep(lib, prefix, init, last);
  }

  /**
   * `toMap` as written succeeds exactly when the missing ids have distinct
   * keys, and then it builds the corrected map.
   */
  lemma {:induction false} PlaceholdersAsWrittenNeedDistinctKeys(lib: Lib, prefix: string, dbMiss: seq<Obj>, empty: Obj)
    ensures PlaceholderEntriesAsWritten(lib, prefix, dbMiss, empty).Success? <==> DistinctKeys(lib, prefix, dbMiss)
    ensures PlaceholderEntriesAsWritten(lib, prefix, dbMiss, empty).Success? ==>
      PlaceholderEntriesAsWritten(lib, prefix, dbMiss, empty).value == PlaceholderEntries(lib, prefix, dbMiss, empty)
    ensures PlaceholderEntriesAsWritten(lib, prefix, dbMiss, empty).Failure? ==>
      PlaceholderEntriesAsWritten(lib, prefix, dbMiss, empty).error.DuplicateKey?
    decreases |dbMiss|
  {
    if dbMiss != [] {
      var init := dbMiss[..|dbMiss| - 1];
      var last := dbMiss[|dbMiss| - 1];
      assert dbMiss == init + [last];
      PlaceholdersAsWrittenNeedDistinctKeys(lib, prefix, init, empty);
      DistinctKeysSnoc(lib, prefix, init, last);
      PlaceholderEntriesSnoc(lib, prefix, init, last, empty);
    }
  }

  /** As written, an id listed twice that the loader does not find makes the whole batch fail. */
  lemma PlaceholdersAsWrittenFailOnRepeatedId(lib: Lib, prefix: string, id: Obj, empty: Obj)
    ensures PlaceholderEntriesAsWritten(lib, prefix, [id, id], empty) == Failure(DuplicateKey(Key(lib, prefix, id)))
  {
    assert [id, id][..1] == [id];
    assert [id][..0] == [];
    assert PlaceholderEntriesAsWritten(lib, prefix, [], empty) == Success(map[]);
    assert PlaceholderEntriesAsWritten(lib, prefix, [id], empty) == Success(map[Key(lib, prefix, id) := empty]);
  }

  /**
   * As written, a batch that lists a missing id twice throws after the loader
   * ran, when the loader does not find it and negative caching is on.
   */
  lemma RepeatedMissThrowsAfterLoading(lib: Lib, store: map<string, Stored>, faults: Faults, id: Obj, args: seq<Obj>,
                                       loader: Loader, prefix: string, expire: int, missExpire: int, empty: Obj, kv: map<string, Obj>)
    requires |args| >= 1 && missExpire != DISABLE_MISS_VALUE
    requires loader(LoaderArgs([id, id], args)) == Success(Table(map[]))
    ensures ListCache(lib, store, faults, [id, id], map[], args, loader, prefix, expire, missExpire, empty, kv)
         == Handled(Failure(DuplicateKey(Key(lib, prefix, id))), [LoaderArgs([id, id], args)], store)
  {
    assert [id, id][..1] == [id];
    assert [id][..0] == [];
    assert CacheMissList([id, id], map[]) == [id, id];
    assert DbMissingList([id, id], map[]) == [id, id];
    PlaceholdersAsWrittenFailOnRepeatedId(lib, prefix, id, empty);
  }

  /**
   * With the intended write-back, an id listed twice that the loader does not
   * find gets one placeholder.
   */
  lemma RepeatedMissGetsOnePlaceholder(lib: Lib, store: map<string, Stored>, faults: Faults, id: Obj,
                                       prefix: string, expire: int, missExpire: int, empty: Obj, kv: map<string, Obj>)
    requires missExpire != DISABLE_MISS_VALUE
    ensures LoadedWrites(lib, store, faults, [id, id], map[], prefix, expire, missExpire, empty, kv)
         == store + BatchWrites(lib, faults, map[Key(lib, prefix, id) := empty], missExpire)
  {
    assert [id, id][..1] == [id];
    assert [id][..0] == [];
    assert DbMissingList([id, id], map[]) == [id, id];
    assert PlaceholderEntries(lib, prefix, [id, id], empty) == map[Key(lib, prefix, id) := empty];
  }

  // ---------------------------------------------------------------- one-to-one

  /** A value in the tier is returned as it is: the loader is not called and nothing is written. */
  lemma One2OneHitSkipsLoader(lib: Lib, usingLocal: bool, local: map<string, Obj>, store: map<string, Stored>, faults: Faults,
                              key: string, expire: int, missExpire: int, returnType: Cls, args: seq<Obj>, loader: Loader)
    requires !TierObject(lib, usingLocal, local, store, faults, key, returnType).value.Null?
    ensures var o := One2One(lib, usingLocal, local, store, faults, key, expire, missExpire, returnType, args, loader);
      o.calls == [] && o.store == store
      && o.result == Success(TierObject(lib, usingLocal, local, store, faults, key, returnType).value)
  {
  }

  /**
   * On a miss the loader is called once with the caller's arguments; its
   * exception reaches the caller and nothing is written; otherwise the
   * caller never sees null, because null becomes the placeholder.
   */
  lemma One2OneMissCallsLoaderOnce(lib: Lib, usingLocal: bool, local: map<string, Obj>, store: map<string, Stored>, faults: Faults,
                                   key: string, expire: int, missExpire: int, returnType: Cls, args: seq<Obj>, loader: Loader)
    requires TierObject(lib, usingLocal, local, store, faults, key, returnType).value.Null?
    ensures var o := One2One(lib, usingLocal, local, store, faults, key, expire, missExpire, returnType, args, loader);
      o.calls == [args]
      && (loader(args).Failure? ==> o.result == loader(args) && o.store == store)
      && (loader(args).Success? ==> o.result.Success? && !o.result.value.Null?)
      && (loader(args).Success? && !loader(args).value.Null? ==> o.result == loader(args))
      && (loader(args) == Success(Null) ==> o.result == Success(BuildEmptyObject(lib, returnType)))
  {
  }

  /** The expiry a handler writes with: `missExpire` for what the loader did not find. */
  function WriteTtl(missing: bool, expire: int, missExpire: int): int {
    if missing then missExpire else expire
  }

  /**
   * After a miss, Redis holds exactly the returned value under the key, with
   * `expire` for a found value and `missExpire` for the placeholder, or is
   * unchanged when that write does not land (negative caching disabled, a
   * lost write, or an expiry Redis refuses).
   */
  lemma One2OneWritesWhatItReturns(lib: Lib, usingLocal: bool, local: map<string, Obj>, store: map<string, Stored>, faults: Faults,
                                   key: string, expire: int, missExpire: int, returnType: Cls, args: seq<Obj>, loader: Loader)
    requires TierObject(lib, usingLocal, local, store, faults, key, returnType).value.Null? && loader(args).Success?
    ensures var o := One2One(lib, usingLocal, local, store, faults, key, expire, missExpire, returnType, args, loader);
      var ttl := WriteTtl(loader(args).value.Null?, expire, missExpire);
      (Lands(faults, key, ttl) ==> o.store == store[key := Stored(Serialize(lib, o.result.value), ttl)])
      && (!Lands(faults, key, ttl) ==> o.store == store)
  {
  }

  /**
   * Once a miss is written back, the next call with the same key is a hit,
   * whatever the loader would do then: a found value and the placeholder of
   * a value not found alike, as long as the stored text parses to an object.
   */
  lemma One2OneSecondCallHits(lib: Lib, usingLocal: bool, local: map<string, Obj>, store: map<string, Stored>, faults: Faults,
                              key: string, expire: int, missExpire: int, returnType: Cls, args: seq<Obj>, loader: Loader, loader2: Loader)
    requires TierObject(lib, usingLocal, local, store, faults, key, returnType).value.Null? && loader(args).Success?
    requires !faults.readsFail && !IsBlank(key) && Lands(faults, key, WriteTtl(loader(args).value.Null?, expire, missExpire))
    requires var o := One2One(lib, usingLocal, local, store, faults, key, expire, missExpire, returnType, args, loader);
      !lib.parseObject(Serialize(lib, o.result.value), returnType).Null?
    ensures var o := One2One(lib, usingLocal, local, store, faults, key, expire, missExpire, returnType, args, loader);
      var o2 := One2One(lib, usingLocal, o.local, o.store, faults, key, expire, missExpire, returnType, args, loader2);
      o2.calls == [] && o2.store == o.store
      && o2.result == Success(lib.parseObject(Serialize(lib, o.result.value), returnType))
  {
    var o := One2One(lib, usingLocal, local, store, faults, key, expire, missExpire, returnType, args, loader);
    assert o.local == local;
    One2OneWritesWhatItReturns(lib, usingLocal, local, store, faults, key, expire, missExpire, returnType, args, loader);
  }

  /** With negative caching disabled, a value the loader does not find is asked for again on every call. */
  lemma One2OneDisabledMissRepeats(lib: Lib, usingLocal: bool, local: map<string, Obj>, store: map<string, Stored>, faults: Faults,
                                   key: string, expire: int, returnType: Cls, args: seq<Obj>, loader: Loader)
    requires TierObject(lib, usingLocal, local, store, faults, key, returnType).value.Null? && loader(args) == Success(Null)
    ensures var o := One2One(lib, usingLocal, local, store, faults, key, expire, DISABLE_MISS_VALUE, returnType, args, loader);
      One2One(lib, usingLocal, o.local, o.store, faults, key, expire, DISABLE_MISS_VALUE, returnType, args, loader) == o
      && o.calls == [args] && o.store == store
  {
    var o := One2One(lib, usingLocal, local, store, faults, key, expire, DISABLE_MISS_VALUE, returnType, args, loader);
    assert o.local == local;
  }

  // ---------------------------------------------------------------- one-to-list

  /** A non-empty list in the tier is returned as it is: the loader is not called and nothing is written. */
  lemma One2ListHitSkipsLoader(lib: Lib, usingLocal: bool, local: map<string, Obj>, store: map<string, Stored>, faults: Faults,
                               key: string, expire: int, missExpire: int, clazz: Cls, args: seq<Obj>, loader: Loader)
    requires !IsEmptyList(TierList(lib, usingLocal, local, store, faults, key, clazz).value)
    ensures var o := One2List(lib, usingLocal, local, store, faults, key, expire, missExpire, clazz, args, loader);
      o.calls == [] && o.store == store && o.result == Success(TierList(lib, usingLocal, local, store, faults, key, clazz).value)
  {
  }

  /**
   * After a miss the caller gets what the loader returned. A list is written
   * back, with `missExpire` when it is empty; anything else is not written.
   */
  lemma One2ListWritesWhatItReturns(lib: Lib, usingLocal: bool, local: map<string, Obj>, store: map<string, Stored>, faults: Faults,
                                    key: string, expire: int, missExpire: int, clazz: Cls, args: seq<Obj>, loader: Loader)
    requires IsEmptyList(TierList(lib, usingLocal, local, store, faults, key, clazz).value) && loader(args).Success?
    ensures var o := One2List(lib, usingLocal, local, store, faults, key, expire, missExpire, clazz, args, loader);
      var p := loader(args).value;
      var ttl := WriteTtl(p.Items? && p.elems == [], expire, missExpire);
      o.calls == [args] && o.result == Success(p)
      && (p.Items? && Lands(faults, key, ttl) ==> o.store == store[key := Stored(Serialize(lib, p), ttl)])
      && (!p.Items? || !Lands(faults, key, ttl) ==> o.store == store)
  {
  }

  /**
   * Once a non-empty list is written back, the next call with the same key is
   * a hit, whatever the loader would do then, as long as the stored text
   * parses to a non-empty list and the local cache held nothing for the key.
   */
  lemma One2ListSecondCallHits(lib: Lib, usingLocal: bool, local: map<string, Obj>, store: map<string, Stored>, faults: Faults,
                               key: string, expire: int, missExpire: int, clazz: Cls, args: seq<Obj>, loader: Loader, loader2: Loader)
    requires IsEmptyList(TierList(lib, usingLocal, local, store, faults, key, clazz).value)
    requires usingLocal ==> Present(local, key).Null?
    requires loader(args).Success? && loader(args).value.Items? && loader(args).value.elems != []
    requires !faults.readsFail && !IsBlank(key) && Lands(faults, key, expire)
    requires !IsEmptyList(ListObj(lib.parseArray(Serialize(lib, loader(args).value), clazz)))
    ensures var o := One2List(lib, usingLocal, local, store, faults, key, expire, missExpire, clazz, args, loader);
      var o2 := One2List(lib, usingLocal, o.local, o.store, faults, key, expire, missExpire, clazz, args, loader2);
      o2.calls == [] && o2.store == o.store
      && o2.result == Success(ListObj(lib.parseArray(Serialize(lib, loader(args).value), clazz)))
  {
    var o := One2List(lib, usingLocal, local, store, faults, key, expire, missExpire, clazz, args, loader);
    assert o.local == local;
    One2ListWritesWhatItReturns(lib, usingLocal, local, store, faults, key, expire, missExpire, clazz, args, loader);
  }

  /**
   * The placeholder of an empty list is no hit: after the loader found an
   * empty list and its JSON was written, it reads back as an empty list, so
   * the next call asks the loader again.
   */
  lemma One2ListPlaceholderIsNoHit(lib: Lib, usingLocal: bool, local: map<string, Obj>, store: map<string, Stored>, faults: Faults,
                                   key: string, expire: int, missExpire: int, clazz: Cls, args: seq<Obj>, loader: Loader, loader2: Loader)
    requires IsEmptyList(TierList(lib, usingLocal, local, store, faults, key, clazz).value) && loader(args) == Success(Items([]))
    requires usingLocal ==> Present(local, key).Null?
    requires lib.parseArray(Serialize(lib, Items([])), clazz) == Some([])
    ensures var o := One2List(lib, usingLocal, local, store, faults, key, expire, missExpire, clazz, args, loader);
      (Lands(faults, key, missExpire) ==> o.store == store[key := Stored(Serialize(lib, Items([])), missExpire)])
      && One2List(lib, usingLocal, o.local, o.store, faults, key, expire, missExpire, clazz, args, loader2).calls == [args]
  {
    var o := One2List(lib, usingLocal, local, store, faults, key, expire, missExpire, clazz, args, loader);
    assert o.local == local;
    One2ListWritesWhatItReturns(lib, usingLocal, local, store, faults, key, expire, missExpire, clazz, args, loader);
  }

  // ---------------------------------------------------------------- the annotation's defaults

  /**
   * With the annotation's default `expire` of 0, a value the loader finds is
   * never written by the one-to-one path (the ttl is DISABLE_MISS_VALUE), and
   * Redis refuses the batch path's write of loaded values.
   */
  lemma DefaultExpireCachesNoFoundValue(lib: Lib, local: map<string, Obj>, store: map<string, Stored>, faults: Faults, key: string,
                                        returnType: Cls, args: seq<Obj>, loader: Loader, loaded: map<Obj, Obj>, kv: map<string, Obj>)
    requires loader(args).Success? && !loader(args).value.Null?
    ensures One2One(lib, DEFAULT_POLICY.usingLocalCache, local, store, faults, key, DEFAULT_POLICY.expire, DEFAULT_POLICY.missExpire,
                    returnType, args, loader).store == store
    ensures LoadedStore(lib, store, faults, loaded, DEFAULT_POLICY.expire, kv) == store
  {
    assert BatchWrites(lib, faults, kv, DEFAULT_POLICY.expire) == map[];
  }

  // ---------------------------------------------------------------- batch

  /** When the tier answered every id, the loader is not called, nothing is written and the tier's answer is returned. */
  lemma ListCacheWarmSkipsLoader(lib: Lib, store: map<string, Stored>, faults: Faults, inputList: seq<Obj>, cached: map<Obj, Obj>,
                                 args: seq<Obj>, loader: Loader, prefix: string, expire: int, missExpire: int, empty: Obj, kv: map<string, Obj>)
    requires |args| >= 1
    requires forall id :: id in inputList ==> id in cached
    ensures ListCache(lib, store, faults, inputList, cached, args, loader, prefix, expire, missExpire, empty, kv)
         == Handled(Success(Table(cached)), [], store)
  {
    FilterAllOrNone(inputList, Absent(cached));
  }

  /**
   * Otherwise the loader is called once, with the ids the tier did not
   * answer, in input order, in place of the first argument.
   */
  lemma ListCacheCallsLoaderOnce(lib: Lib, store: map<string, Stored>, faults: Faults, inputList: seq<Obj>, cached: map<Obj, Obj>,
                                 args: seq<Obj>, loader: Loader, prefix: string, expire: int, missExpire: int, empty: Obj, kv: map<string, Obj>,
                                 id: Obj)
    requires |args| >= 1
    requires id in inputList && id !in cached
    ensures var miss := CacheMissList(inputList, cached);
      ListCache(lib, store, faults, inputList, cached, args, loader, prefix, expire, missExpire, empty, kv).calls
        == [[Items(miss)] + args[1..]]
      && (forall x :: x in miss <==> x in inputList && x !in cached)
  {
  }

  /**
   * A batch that succeeds answers the tier's entries and the loader's, the
   * loader's winning; an input id is answered exactly when it is not among
   * those the loader did not find.
   */
  lemma ListCacheAnswers(lib: Lib, store: map<string, Stored>, faults: Faults, inputList: seq<Obj>, cached: map<Obj, Obj>,
                         args: seq<Obj>, loader: Loader, prefix: string, expire: int, missExpire: int, empty: Obj, kv: map<string, Obj>)
    requires |args| >= 1
    requires ListCache(lib, store, faults, inputList, cached, args, loader, prefix, expire, missExpire, empty, kv).result.Success?
    ensures var h := ListCache(lib, store, faults, inputList, cached, args, loader, prefix, expire, missExpire, empty, kv);
      var loaded := LoadedMap(inputList, cached, args, loader);
      var dbMiss := DbMissingList(CacheMissList(inputList, cached), loaded);
      h.result.value.Table?
      && h.result.value.entries.Keys == cached.Keys + loaded.Keys
      && (forall id :: id in h.result.value.entries ==>
            h.result.value.entries[id] == if id in loaded then loaded[id] else cached[id])
      && (forall id :: id in inputList ==> (id in h.result.value.entries <==> id !in dbMiss))
  {
  }

  /** A batch that succeeds leaves Redis as `LoadedWrites` of its misses and the loaded map. */
  lemma ListCacheStore(lib: Lib, store: map<string, Stored>, faults: Faults, inputList: seq<Obj>, cached: map<Obj, Obj>,
                       args: seq<Obj>, loader: Loader, prefix: string, expire: int, missExpire: int, empty: Obj, kv: map<string, Obj>)
    requires |args| >= 1
    requires ListCache(lib, store, faults, inputList, cached, args, loader, prefix, expire, missExpire, empty, kv).result.Success?
    ensures ListCache(lib, store, faults, inputList, cached, args, loader, prefix, expire, missExpire, empty, kv).store
         == LoadedWrites(lib, store, faults, CacheMissList(inputList, cached), LoadedMap(inputList, cached, args, loader),
                         prefix, expire, missExpire, empty, kv)
  {
    var miss := CacheMissList(inputList, cached);
    if |miss| == 0 {
      assert miss == [];
      assert DbMissingList([], map[]) == [];
    } else {
      LoadedWritesAsWrittenAgree(lib, store, faults, miss, LoadedMap(inputList, cached, args, loader),
                                 prefix, expire, missExpire, empty, kv);
    }
  }

  /**
   * Negative caching of a batch at work: once the placeholder of an id the
   * loader did not find has landed, a later batch read of Redis answers that
   * id with the placeholder, so it is no miss and does not reach the loader.
   */
  lemma PlaceholderAnswersNextBatch(lib: Lib, store: map<string, Stored>, faults: Faults, inputList: seq<Obj>, cached: map<Obj, Obj>,
                                    args: seq<Obj>, loader: Loader, prefix: string, expire: int, missExpire: int, empty: Obj,
                                    kv: map<string, Obj>, id: Obj, ids2: seq<Obj>, faults2: Faults, clazz: Cls, asList: bool)
    requires |args| >= 1 && missExpire != DISABLE_MISS_VALUE
    requires ListCache(lib, store, faults, inputList, cached, args, loader, prefix, expire, missExpire, empty, kv).result.Success?
    requires id in DbMissingList(CacheMissList(inputList, cached), LoadedMap(inputList, cached, args, loader)) && !id.Null?
    requires Accepted(Key(lib, prefix, id), empty) && Lands(faults, Key(lib, prefix, id), missExpire) && Serialize(lib, empty) != ""
    requires id in ids2 && !faults2.readsFail
    ensures var s := ListCache(lib, store, faults, inputList, cached, args, loader, prefix, expire, missExpire, empty, kv).store;
      var cached2 := RemoteBatch(lib, s, faults2, prefix, ids2, clazz, asList);
      id in cached2 && cached2[id] == Decode(lib, Serialize(lib, empty), clazz, asList)
      && id !in CacheMissList(ids2, cached2)
  {
    var s := ListCache(lib, store, faults, inputList, cached, args, loader, prefix, expire, missExpire, empty, kv).store;
    ListCacheStore(lib, store, faults, inputList, cached, args, loader, prefix, expire, missExpire, empty, kv);
    PlaceholdersLand(lib, store, faults, CacheMissList(inputList, cached), LoadedMap(inputList, cached, args, loader),
                     prefix, expire, missExpire, empty, kv);
    RemoteBatchKeys(lib, s, faults2, prefix, ids2, clazz, asList);
  }

  /**
   * Every id the loader did not find has the placeholder under its key with
   * `missExpire`, unless negative caching is off or that write does not land.
   */
  lemma PlaceholdersLand(lib: Lib, store: map<string, Stored>, faults: Faults, miss: seq<Obj>, loaded: map<Obj, Obj>,
                         prefix: string, expire: int, missExpire: int, empty: Obj, kv: map<string, Obj>)
    requires missExpire != DISABLE_MISS_VALUE
    ensures var s := LoadedWrites(lib, store, faults, miss, loaded, prefix, expire, missExpire, empty, kv);
      forall id :: id in DbMissingList(miss, loaded) && Accepted(Key(lib, prefix, id), empty) && Lands(faults, Key(lib, prefix, id), missExpire) ==>
        Key(lib, prefix, id) in s && s[Key(lib, prefix, id)] == Stored(Serialize(lib, empty), missExpire)
  {
    var dbMiss := DbMissingList(miss, loaded);
    PlaceholderEntriesCover(lib, prefix, dbMiss, empty);
    if |dbMiss| == 0 {
      assert dbMiss == [];
    }
  }

  /** Under keys that distinct ids never share, `keyValues` holds each loaded value under its id's key. */
  lemma KeyValuesDetermined(lib: Lib, prefix: string, loaded: map<Obj, Obj>, kv: map<string, Obj>)
    requires IsKeyValues(lib, prefix, loaded, kv) && KeysInjective(lib, prefix, loaded.Keys)
    ensures forall k :: k in loaded ==> Key(lib, prefix, k) in kv && kv[Key(lib, prefix, k)] == loaded[k]
    ensures forall s :: s in kv <==> exists k :: k in loaded && Key(lib, prefix, k) == s
    ensures loaded == map[] ==> kv == map[]
  {
    forall k | k in loaded
      ensures kv[Key(lib, prefix, k)] == loaded[k]
    {
      KeyValueOf(lib, prefix, loaded, kv, k);
    }
  }

  lemma KeyValueOf(lib: Lib, prefix: string, loaded: map<Obj, Obj>, kv: map<string, Obj>, k: Obj)
    requires IsKeyValues(lib, prefix, loaded, kv) && KeysInjective(lib, prefix, loaded.Keys) && k in loaded
    ensures Key(lib, prefix, k) in kv && kv[Key(lib, prefix, k)] == loaded[k]
  {
    var s := Key(lib, prefix, k);
    var k' :| k' in loaded && Key(lib, prefix, k') == s && kv[s] == loaded[k'];
  }

  /** One loaded id whose key no placeholder claims: its value is written under its key, when that write lands. */
  lemma LoadedValueLands(lib: Lib, store: map<string, Stored>, faults: Faults, miss: seq<Obj>, loaded: map<Obj, Obj>,
                         prefix: string, expire: int, missExpire: int, empty: Obj, kv: map<string, Obj>, id: Obj)
    requires id in loaded && Key(lib, prefix, id) in kv && kv[Key(lib, prefix, id)] == loaded[id]
    requires Accepted(Key(lib, prefix, id), loaded[id]) && Lands(faults, Key(lib, prefix, id), expire)
    requires forall d :: d in DbMissingList(miss, loaded) ==> Key(lib, prefix, d) != Key(lib, prefix, id)
    ensures var s := LoadedWrites(lib, store, faults, miss, loaded, prefix, expire, missExpire, empty, kv);
      Key(lib, prefix, id) in s && s[Key(lib, prefix, id)] == Stored(Serialize(lib, loaded[id]), expire)
  {
    var key := Key(lib, prefix, id);
    var dbMiss := DbMissingList(miss, loaded);
    var placeholders := PlaceholderEntries(lib, prefix, dbMiss, empty);
    assert key in BatchWrites(lib, faults, kv, expire);
    assert key !in placeholders;
  }

  /**
   * Every loaded id whose key no placeholder claims has its value under its
   * key with `expire`, when that write lands.
   */
  lemma LoadedValuesLand(lib: Lib, store: map<string, Stored>, faults: Faults, miss: seq<Obj>, loaded: map<Obj, Obj>,
                         prefix: string, expire: int, missExpire: int, empty: Obj, kv: map<string, Obj>)
    requires IsKeyValues(lib, prefix, loaded, kv) && KeysInjective(lib, prefix, loaded.Keys)
    ensures var s := LoadedWrites(lib, store, faults, miss, loaded, prefix, expire, missExpire, empty, kv);
      var dbMiss := DbMissingList(miss, loaded);
      forall id :: id in loaded && Accepted(Key(lib, prefix, id), loaded[id]) && Lands(faults, Key(lib, prefix, id), expire)
                   && (forall d :: d in dbMiss ==> Key(lib, prefix, d) != Key(lib, prefix, id)) ==>
        Key(lib, prefix, id) in s && s[Key(lib, prefix, id)] == Stored(Serialize(lib, loaded[id]), expire)
  {
    var dbMiss := DbMissingList(miss, loaded);
    forall id | id in loaded && Accepted(Key(lib, prefix, id), loaded[id]) && Lands(faults, Key(lib, prefix, id), expire)
                && (forall d :: d in dbMiss ==> Key(lib, prefix, d) != Key(lib, prefix, id))
      ensures var s := LoadedWrites(lib, store, faults, miss, loaded, prefix, expire, missExpire, empty, kv);
        Key(lib, prefix, id) in s && s[Key(lib, prefix, id)] == Stored(Serialize(lib, loaded[id]), expire)
    {
      KeyValueOf(lib, prefix, loaded, kv, id);
      LoadedValueLands(lib, store, faults, miss, loaded, prefix, expire, missExpire, empty, kv, id);
    }
  }

  /** With negative caching off, a batch writes no key but those of the loaded entries. */
  lemma NoPlaceholdersWhenDisabled(lib: Lib, store: map<string, Stored>, faults: Faults, miss: seq<Obj>, loaded: map<Obj, Obj>,
                                   prefix: string, expire: int, empty: Obj, kv: map<string, Obj>)
    ensures var s := LoadedWrites(lib, store, faults, miss, loaded, prefix, expire, DISABLE_MISS_VALUE, empty, kv);
      forall k :: k !in kv ==> (k in s <==> k in store) && (k in s ==> s[k] == store[k])
  {
  }
}
