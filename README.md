# cache-anno read-through engine in Dafny

cache-anno puts a read-through cache in front of any Spring method annotated
with `@Cache`. The advice (`CacheAspect`) looks at the first argument and the
return type of the call. It then picks one of three modes:

- **one-to-one**: one key, one object;
- **one-to-list**: one key, a list;
- **batch**: a list of ids, a map from id to value.

The advice reads the configured tier. That tier is either Redis alone
(`RedisCacheServiceImpl`) or a local Caffeine cache in front of Redis
(`LocalCacheServiceImpl`). On a miss the advice calls the annotated method,
which is the loader, and writes the answer back to Redis through
`RedisRepository`.

What the loader does not find is cached negatively. A placeholder (`"{}"`,
the class's `emptyObject()`, or `"[]"`) is written under the key with the
short `missExpire` expiry, unless `missExpire` is `DISABLE_MISS_VALUE` (0).

The model, file by file:

- `common.dfy` (module `Common`)
  - The values the engine handles: `Obj`, with null, strings, lists and maps.
  - The `@Cache` policy and its defaults.
  - The RedisKey constants.
  - The foreign functions: `String.format`, fastjson, hutool's `Convert.toStr`, and a class's `emptyObject()`. They are kept abstract in the datatype `Lib`.
  - The connection faults of one call (`Faults`).
  - The error cases a caller can see.
- `local_cache.dfy` (module `LocalStore`): the Caffeine wrapper `LocalCache` as a class over a map. It has no expiry.
- `redis_repository.dfy` (module `Repository`): the Redis adapter as a class whose `store` maps a key to its text and expiry.
  - A failed read gives null or an empty map.
  - A failed write is swallowed. A write is lost when its key is in `Faults.lostWrites`.
  - Redis refuses an expiry that is not positive (`Lands`).
- `redis_cache_service.dfy` (module `RedisService`): the Redis tier. Its specification functions are `RemoteObject`, `RemoteList` and `RemoteBatch`, and the class's methods are proved against them.
- `local_cache_service.dfy` (module `LocalService`): the two-tier service.
  - Its specification functions are `LocalObject`, `LocalList`, `LocalBatch` and `TwoTier`.
  - The class's methods keep the source's loops (partition into hits and misses, merge of the Redis answers) and are proved against them.
- `cache_aspect.dfy` (module `Aspect`): the advice.
  - `Around` is its specification as a function of the policy, the arguments, the loader and both tiers. It follows the code as written, including the guard at line 97 that lets a Map second argument through and the `toMap` at lines 257-258 that throws on a repeated key (see "## Findings").
  - `AroundIntended` is the advice with the guard its comment describes, and `LoadedWrites` with `PlaceholderEntries` is the write-back with one placeholder per key. The lemmas relate each to its as-written form.
  - `CacheAspect` is the imperative advice, proved against `Around`. It holds the repository, the Redis service and the two-tier service, which share one Redis.
  - The loader is a function from an argument list to a value or an exception. Every outcome lists the argument lists the loader was called with, so "the loader was not called" is `calls == []`.
- `cache_aspect_properties.dfy` (module `AspectProperties`): the properties of the advice, as lemmas about `Around`, `One2One`, `One2List` and `ListCache`.

The batch path builds `keyValues`, a `HashMap<String, Object>`, by iterating a
`HashMap`. When two loaded ids format to the same key, the value that wins
depends on iteration order. The model therefore leaves `keyValues`
unconstrained beyond `IsKeyValues`: every loaded id's key is present, and each
value is the value of some loaded id with that key. It is returned as a ghost
out-parameter. `AspectProperties.KeyValuesDetermined` shows it is determined
when keys are injective.

Behaviour of the code worth knowing:

- On the Redis-only tier, null ids in a batch are not removed and reach the loader. On the two-tier service they are removed. See `AspectProperties.NullIdsReachLoaderOnRedisTierOnly`.
- The batch path writes its loaded values even with the default `expire` of 0, which Redis refuses. The single-key paths skip that write. See `AspectProperties.DefaultExpireCachesNoFoundValue`.
- A one-to-list `"[]"` placeholder reads back as an empty list. An empty list is not a hit, so the loader runs again on every call. See `AspectProperties.One2ListPlaceholderIsNoHit`.

## Model

| member | source | states |
|---|---|---|
| Common.Filter | src/main/java/cn/someget/cache/aop/CacheAspect.java:212-214 | a stream filter keeps exactly the elements that pass the test, and no more than it was given |
| Common.FilterAppend | src/main/java/cn/someget/cache/aop/CacheAspect.java:212-214 | filtering keeps input order: filtering a concatenation concatenates the filtered parts |
| Common.FilterAllOrNone | src/main/java/cn/someget/cache/aop/CacheAspect.java:238-240 | a filter that every element passes returns the list itself; one that none passes returns the empty list |
| Common.IdList.RemoveNulls | src/main/java/cn/someget/cache/service/impl/LocalCacheServiceImpl.java:74 | `removeIf(Objects::isNull)` leaves the caller's list holding its non-null ids in order |
| LocalStore.LocalCache.GetIfPresent | src/main/java/cn/someget/cache/utils/LocalCache.java:47-49 | the stored value of a present key, null for an absent one |
| LocalStore.LocalCache.GetAllPresent | src/main/java/cn/someget/cache/utils/LocalCache.java:56-61 | exactly the asked keys that are present, with their stored values |
| LocalStore.LocalCache.Put | src/main/java/cn/someget/cache/utils/LocalCache.java:78-80 | the key now maps to the value and nothing else changes; Caffeine refuses null values |
| LocalStore.LocalCache.PutAll | src/main/java/cn/someget/cache/utils/LocalCache.java:87-92 | every given entry is stored over the old ones and nothing else changes |
| LocalStore.LocalCache.Delete | src/main/java/cn/someget/cache/utils/LocalCache.java:68-70 | the key is gone and nothing else changes |
| Repository.RedisRepository.Set | src/main/java/cn/someget/cache/utils/RedisRepository.java:55-68 | a null value writes nothing; otherwise Redis gains the key with the text (strings verbatim, other values serialised) and the expiry, unless the write is lost or refused |
| Repository.RedisRepository.BatchSet | src/main/java/cn/someget/cache/utils/RedisRepository.java:78-102 | Redis gains exactly the entries with a non-blank key and a non-null value, each serialised with the one expiry, minus the ones lost or refused; an empty map writes nothing |
| Repository.BatchWritesLoseIndependently | src/main/java/cn/someget/cache/utils/RedisRepository.java:72-73 | losing some writes of a batch removes just those keys from what lands; the rest land regardless |
| Repository.RedisRepository.Get | src/main/java/cn/someget/cache/utils/RedisRepository.java:110-119 | the stored text, null when absent or when the read fails |
| Repository.NonNullKeys | src/main/java/cn/someget/cache/utils/RedisRepository.java:129 | the non-null keys, each kept, no more than given |
| Repository.Distinct | src/main/java/cn/someget/cache/utils/RedisRepository.java:129 | the same set of keys, each once |
| Repository.DistinctKeepsFirstOccurrences | src/main/java/cn/someget/cache/utils/RedisRepository.java:129 | the dedup keeps keys in the order of their first occurrence |
| Repository.RedisRepository.MultiGet | src/main/java/cn/someget/cache/utils/RedisRepository.java:128-152 | a failed read gives an empty map; otherwise exactly the non-null, non-blank asked keys, each paired with what Redis holds for it (null when absent) |
| RedisService.RedisCacheService.GetObject | src/main/java/cn/someget/cache/service/impl/RedisCacheServiceImpl.java:29-36 | null for a blank key, a failed read or an absent key without touching Redis; otherwise the parsed stored text |
| RedisService.RedisCacheService.GetObjectList | src/main/java/cn/someget/cache/service/impl/RedisCacheServiceImpl.java:39-46 | an empty list for a blank key, a failed read or an absent key; otherwise the parsed stored array |
| RedisService.RedisCacheService.GetRedisData | src/main/java/cn/someget/cache/service/impl/RedisCacheServiceImpl.java:86-103 | the non-null ids whose key holds a text that is neither null nor empty, each with that text (`RedisData`) |
| RedisService.RedisCacheService.Collect | src/main/java/cn/someget/cache/service/impl/RedisCacheServiceImpl.java:93-101 | the loop keeps an id iff the answer for its key is not empty, with that answer |
| RedisService.RedisCacheService.GetObjectBatch | src/main/java/cn/someget/cache/service/impl/RedisCacheServiceImpl.java:49-61 | an empty id list gives an empty map; otherwise the ids of `getRedisData` with each text parsed as an object |
| RedisService.RedisCacheService.GetObjectListBatch | src/main/java/cn/someget/cache/service/impl/RedisCacheServiceImpl.java:64-76 | the same, with each text parsed as an array |
| RedisService.RemoteBatchKeys | src/main/java/cn/someget/cache/service/impl/RedisCacheServiceImpl.java:86-103 | an id is answered iff it is listed, not null, its key is not blank and Redis holds a non-empty text there; a failed read answers nothing |
| RedisService.RemoteBatchAgreesWithSingleReads | src/main/java/cn/someget/cache/service/impl/RedisCacheServiceImpl.java:58-60 | every value of a batch equals what the single-key getter gives for that id's key |
| LocalService.LocalCacheService.GetObject | src/main/java/cn/someget/cache/service/impl/LocalCacheServiceImpl.java:29-50 | the answer and the new local cache are `LocalObject`: blank key → null, local hit → that value, else the Redis value, stored locally when not null |
| LocalService.LocalCacheService.GetObjectList | src/main/java/cn/someget/cache/service/impl/LocalCacheServiceImpl.java:52-67 | the same for lists (`LocalList`), where an empty Redis list is returned without being stored |
| LocalService.LocalCacheService.GetObjectBatch | src/main/java/cn/someget/cache/service/impl/LocalCacheServiceImpl.java:69-109 | the caller's list loses its nulls, and the answer and the new local cache are `LocalBatch` |
| LocalService.LocalCacheService.GetObjectListBatch | src/main/java/cn/someget/cache/service/impl/LocalCacheServiceImpl.java:111-150 | the same with the Redis list getter |
| LocalService.LocalCacheService.Batch | src/main/java/cn/someget/cache/service/impl/LocalCacheServiceImpl.java:71-74 | an empty list returns an empty map and changes nothing; otherwise nulls are removed in place before the lookup |
| LocalService.LocalCacheService.Lookup | src/main/java/cn/someget/cache/service/impl/LocalCacheServiceImpl.java:75-108 | keys, `getAllPresent`, the partition, and Redis only when something missed locally, together give `TwoTier` |
| LocalService.LocalCacheService.Partition | src/main/java/cn/someget/cache/service/impl/LocalCacheServiceImpl.java:80-88 | the first loop yields the local hits with their values and the misses in input order |
| LocalService.LocalCacheService.AskRedis | src/main/java/cn/someget/cache/service/impl/LocalCacheServiceImpl.java:94 | for each missed id, the Redis batch answers exactly what Redis holds under its key |
| LocalService.LocalCacheService.Merge | src/main/java/cn/someget/cache/service/impl/LocalCacheServiceImpl.java:96-103 | the second loop adds exactly the misses with a non-null Redis value to the results and queues exactly those, under their keys, for the local cache |
| LocalService.LocalCacheService.Refresh | src/main/java/cn/someget/cache/service/impl/LocalCacheServiceImpl.java:94-107 | the results gain the fetched values and the local cache gains them under their keys; `putAll` is skipped when there are none |
| LocalService.LocalObjectAgreesWithRedis | src/main/java/cn/someget/cache/service/impl/LocalCacheServiceImpl.java:40-49 | with no local entry, the two-tier getters answer what the Redis getters answer |
| LocalService.LocalObjectCachesAnswer | src/main/java/cn/someget/cache/service/impl/LocalCacheServiceImpl.java:29-50 | only the entry of its own key changes; a non-null answer is stored and then served locally whatever Redis holds; a null answer leaves the local cache unchanged |
| LocalService.LocalListCachesAnswer | src/main/java/cn/someget/cache/service/impl/LocalCacheServiceImpl.java:52-67 | only the entry of its own key changes, to the answer if at all; a non-empty answer is then served locally |
| LocalService.PartitionIsExact | src/main/java/cn/someget/cache/service/impl/LocalCacheServiceImpl.java:80-88 | each id is a hit or a miss, never both, and both come from the list |
| LocalService.TwoTierAnswers | src/main/java/cn/someget/cache/service/impl/LocalCacheServiceImpl.java:78-108 | for non-null ids, an id is answered iff it hits locally or Redis holds a non-null value for it, with that value (`Answer`) |
| LocalService.LocalBatchAnswers | src/main/java/cn/someget/cache/service/impl/LocalCacheServiceImpl.java:69-109 | the result's keys are exactly the listed non-null ids with an answer, each value is that answer and not null |
| LocalService.TwoTierRefillsLocal | src/main/java/cn/someget/cache/service/impl/LocalCacheServiceImpl.java:96-107 | after the batch, the local cache holds each answered id's value under its key |
| LocalService.TwoTierKeepsOtherKeys | src/main/java/cn/someget/cache/service/impl/LocalCacheServiceImpl.java:104-107 | no local entry changes but those of the listed ids' keys |
| LocalService.LocalBatchRefillsLocal | src/main/java/cn/someget/cache/service/impl/LocalCacheServiceImpl.java:69-109 | the same for the whole getter, nulls included |
| LocalService.LocalBatchAllHitsSkipRedis | src/main/java/cn/someget/cache/service/impl/LocalCacheServiceImpl.java:90-92 | when every id hits locally, the answer does not depend on Redis or its faults and the local cache is unchanged |
| LocalService.LocalBatchWarmReread | src/main/java/cn/someget/cache/service/impl/LocalCacheServiceImpl.java:104-107 | a second batch of the same ids answers every id the first answered with the same value, whatever Redis holds by then |
| Aspect.BuildEmptyObject | src/main/java/cn/someget/cache/aop/CacheAspect.java:266-275 | the placeholder is a non-null string, `"{}"` when the class gives no empty object |
| Aspect.LoaderArgs | src/main/java/cn/someget/cache/aop/CacheAspect.java:220-227 | the loader's arguments are the miss list in place of the first argument and the others unchanged |
| Aspect.ResultMap.PutAll | src/main/java/cn/someget/cache/aop/CacheAspect.java:246 | the caller's result map gains the loaded entries over its own |
| Aspect.CacheAspect.DoAround | src/main/java/cn/someget/cache/aop/CacheAspect.java:60-138 | result, loader calls, local cache and Redis are those of `Around`: no argument, a null first argument, the batch guards as written, the batch, one-to-list and one-to-one paths |
| Aspect.CacheAspect.DoBatch | src/main/java/cn/someget/cache/aop/CacheAspect.java:103-127 | the batch path, reached by every call the guard as written admits: the key template, the placeholder, the tier read and `doHandleListCache`, as `Around` says |
| Aspect.CacheAspect.DoHandleOne2OneCache | src/main/java/cn/someget/cache/aop/CacheAspect.java:175-198 | the effect is `One2One`: hit → value; miss → loader, placeholder for null, write at the effective expiry unless it is 0 |
| Aspect.CacheAspect.DoHandleOne2ListCache | src/main/java/cn/someget/cache/aop/CacheAspect.java:143-170 | the effect is `One2List`: a non-empty list hits; otherwise the loader, and a list answer is written, an empty one as a new empty list at `missExpire` |
| Aspect.CacheAspect.DoHandleListCache | src/main/java/cn/someget/cache/aop/CacheAspect.java:205-261 | the effect is `ListCache`, a repeated placeholder key included, and the caller's map is extended in place |
| Aspect.CacheAspect.Write | src/main/java/cn/someget/cache/aop/CacheAspect.java:233-260 | the failure and Redis are `LoadedWritesAsWritten`: loaded values at `expire`, then the placeholders at `missExpire` unless disabled, or a DuplicateKey failure with only the loaded values written; the result map gains the loaded entries |
| Aspect.CacheAspect.KeyValues | src/main/java/cn/someget/cache/aop/CacheAspect.java:241-242 | the `keyValues` map has every loaded id's key, each with a value loaded for that key |
| AspectProperties.AroundNullArgument | src/main/java/cn/someget/cache/aop/CacheAspect.java:86-90 | a null first argument returns null with no loader call and both tiers unchanged |
| AspectProperties.AroundAdmitsMapParam | src/main/java/cn/someget/cache/aop/CacheAspect.java:95-127 | as written, a batch with a Map second argument is a batch: the tier is read and, when something missed, the loader gets the miss list and the Map |
| AspectProperties.AroundRefusesMapParam | src/main/java/cn/someget/cache/aop/CacheAspect.java:95-100 | with the intended guard (`AroundIntended`), a Map second argument is refused and nothing is touched |
| AspectProperties.AroundIntendedDiffersOnlyOnMapParam | src/main/java/cn/someget/cache/aop/CacheAspect.java:95-100 | the intended advice differs from the advice as written exactly on two arguments, a List then a Map |
| AspectProperties.AroundGuardsTouchNothing | src/main/java/cn/someget/cache/aop/CacheAspect.java:95-100 | more than two arguments, a List second argument (the guard as written), or a non-Map return type fail with IllegalArgument, calling nothing and changing nothing |
| AspectProperties.BatchParamChecksDiffer | src/main/java/cn/someget/cache/aop/CacheAspect.java:97-98 | the guard as written and as intended differ exactly when the second argument is a Map |
| AspectProperties.BatchParamCheckAsWrittenAdmitsMap | src/main/java/cn/someget/cache/aop/CacheAspect.java:97-98 | the guard as written lets a Map second argument through |
| AspectProperties.NullIdsReachLoaderOnRedisTierOnly | src/main/java/cn/someget/cache/aop/CacheAspect.java:114-127 | a batch of one null id calls the loader with it on the Redis tier, and returns an empty map without a call on the two-tier service |
| AspectProperties.ListCacheErrors | src/main/java/cn/someget/cache/aop/CacheAspect.java:230-258 | a batch fails with the loader's own exception or a ClassCast for a non-map answer, Redis unchanged; or, with negative caching on and two missing ids sharing a key, with DuplicateKey after the loaded values were written and before any placeholder |
| AspectProperties.LoadedWritesAsWrittenAgree | src/main/java/cn/someget/cache/aop/CacheAspect.java:244-259 | the write-back as written fails, with DuplicateKey, iff negative caching is on and the missing ids' keys are not distinct, leaving only the loaded values written; otherwise it is `LoadedWrites` |
| AspectProperties.ListCacheCalls | src/main/java/cn/someget/cache/aop/CacheAspect.java:212-230 | the loader is called once iff some id missed; with no miss the tier's entries are the answer |
| AspectProperties.ListCacheWarmSkipsLoader | src/main/java/cn/someget/cache/aop/CacheAspect.java:212-218 | when the cache answered every id, the loader is not called, the cache answer is returned and Redis is unchanged |
| AspectProperties.ListCacheCallsLoaderOnce | src/main/java/cn/someget/cache/aop/CacheAspect.java:212-230 | with a miss, the loader is called once, with the miss list (exactly the unanswered ids) first and the other arguments unchanged |
| AspectProperties.ListCacheAnswers | src/main/java/cn/someget/cache/aop/CacheAspect.java:233-261 | the returned keys are the cache hits and the loaded keys, loaded values win, and a listed id is returned iff it is not in `dbMissingList` |
| AspectProperties.ListCacheStore | src/main/java/cn/someget/cache/aop/CacheAspect.java:233-260 | after a successful batch, Redis is `LoadedWrites` of the miss list and the loaded map |
| AspectProperties.KeyValuesDetermined | src/main/java/cn/someget/cache/aop/CacheAspect.java:241-242 | with injective keys, `keyValues` has exactly the loaded ids' keys, each with its id's value; an empty load gives an empty map |
| AspectProperties.KeyValueOf | src/main/java/cn/someget/cache/aop/CacheAspect.java:241-242 | with injective keys, one loaded id's key holds its loaded value |
| AspectProperties.LoadedValueLands | src/main/java/cn/someget/cache/aop/CacheAspect.java:244 | a loaded value under its key that is sent, lands and is not overwritten by a placeholder is in Redis with `expire` |
| AspectProperties.LoadedValuesLand | src/main/java/cn/someget/cache/aop/CacheAspect.java:241-244 | every loaded value whose write is sent and lands, and whose key no placeholder shares, is in Redis serialised with `expire` |
| AspectProperties.PlaceholdersLand | src/main/java/cn/someget/cache/aop/CacheAspect.java:250-259 | with negative caching on, every id the loader did not find whose write lands holds the placeholder with `missExpire` |
| AspectProperties.PlaceholderAnswersNextBatch | src/main/java/cn/someget/cache/aop/CacheAspect.java:205-259 | after a successful batch, a later Redis batch read answers each non-null id whose placeholder landed with that placeholder, so it is no miss and does not reach the loader |
| AspectProperties.NoPlaceholdersWhenDisabled | src/main/java/cn/someget/cache/aop/CacheAspect.java:255 | with `missExpire` 0, no key outside `keyValues` is written |
| AspectProperties.PlaceholderEntriesCover | src/main/java/cn/someget/cache/aop/CacheAspect.java:257-258 | the placeholder map has the key of every id the loader did not find, with the placeholder, and no other key |
| AspectProperties.DistinctKeysSnoc | src/main/java/cn/someget/cache/aop/CacheAspect.java:257-258 | a list has distinct keys iff its front does and the last key is new |
| AspectProperties.PlaceholderEntriesSnoc | src/main/java/cn/someget/cache/aop/CacheAspect.java:257-258 | one more id adds just its key to the placeholder map |
| AspectProperties.PlaceholdersAsWrittenNeedDistinctKeys | src/main/java/cn/someget/cache/aop/CacheAspect.java:257-258 | the `toMap` as written succeeds iff the missing ids have distinct keys, and then equals the corrected map |
| AspectProperties.PlaceholdersAsWrittenFailOnRepeatedId | src/main/java/cn/someget/cache/aop/CacheAspect.java:257-258 | an id listed twice makes the `toMap` as written throw on its key |
| AspectProperties.RepeatedMissThrowsAfterLoading | src/main/java/cn/someget/cache/aop/CacheAspect.java:205-261 | as written, an id listed twice that the loader does not find makes the batch fail with DuplicateKey on its key after one loader call |
| AspectProperties.RepeatedMissGetsOnePlaceholder | src/main/java/cn/someget/cache/aop/CacheAspect.java:250-259 | with the intended write-back, an id listed twice that the loader does not find gets one placeholder |
| AspectProperties.One2OneHitSkipsLoader | src/main/java/cn/someget/cache/aop/CacheAspect.java:181-184 | a non-null cached value is returned with no loader call and Redis unchanged |
| AspectProperties.One2OneMissCallsLoaderOnce | src/main/java/cn/someget/cache/aop/CacheAspect.java:185-197 | on a miss the loader is called once; its exception propagates with Redis unchanged, a value is returned, null becomes the non-null placeholder |
| AspectProperties.One2OneWritesWhatItReturns | src/main/java/cn/someget/cache/aop/CacheAspect.java:187-197 | Redis holds exactly the returned value under the key, at `expire` for a found value and `missExpire` for the placeholder, or is unchanged when that write does not land |
| AspectProperties.One2OneSecondCallHits | src/main/java/cn/someget/cache/aop/CacheAspect.java:181-197 | after a written miss, a second call hits, calls no loader and returns the value read back |
| AspectProperties.One2OneDisabledMissRepeats | src/main/java/cn/someget/cache/aop/CacheAspect.java:187-197 | with `missExpire` 0 and a loader that finds nothing, nothing is written and every repeated call calls the loader again with the same outcome |
| AspectProperties.One2ListHitSkipsLoader | src/main/java/cn/someget/cache/aop/CacheAspect.java:150-153 | a non-empty cached list is returned with no loader call and Redis unchanged |
| AspectProperties.One2ListWritesWhatItReturns | src/main/java/cn/someget/cache/aop/CacheAspect.java:155-169 | on a miss the loader's answer is returned; a list is written at `expire`, an empty one at `missExpire`, a non-list is not written |
| AspectProperties.One2ListSecondCallHits | src/main/java/cn/someget/cache/aop/CacheAspect.java:150-169 | after a non-empty list is written, a second call hits, calls no loader and returns the list read back |
| AspectProperties.One2ListPlaceholderIsNoHit | src/main/java/cn/someget/cache/aop/CacheAspect.java:150-169 | when the loader finds an empty list, its JSON is written at `missExpire`, reads back empty, and the next call calls the loader again |
| AspectProperties.DefaultExpireCachesNoFoundValue | src/main/java/cn/someget/cache/anno/Cache.java:27-49 | with the annotation's defaults, a found one-to-one value is not written, and the batch path's write of loaded values adds nothing to Redis |

## Left out

- Spring AOP plumbing (`ProceedingJoinPoint`, `MethodSignature`, reading the `@Cache` annotation, CacheAspect.java:61-82). The annotation becomes the `Policy` argument, the method's return type a `Cls`, and `proceed` the `Loader`.
- `Assert.notNull(args)` for a null argument array: a Java call never passes one. Only the empty argument list is modelled, as `NoArgument`.
- fastjson (`toJSONString`, `parseObject`, `parseArray`), `String.format` and hutool's `Convert.toStr`: abstract functions in `Lib`. Reflection on `emptyObject()` is the abstract `Lib.emptyObject`.
- The JSON round trip of the id list at CacheAspect.java:103 is taken to be the identity.
- RedisService.RemoteBatch: a stored text that parses to null is kept as a null entry, where `Collectors.toMap` in RedisCacheServiceImpl.java:58-60 and 73-75 would throw `NullPointerException`.
- `ClassCastException` from a cached value of the wrong shape: values are untyped `Obj`s. Only a loader answer that is not a map is modelled, as `ClassCast`.
- Expiry over time: Redis TTLs and Caffeine's 3-second expiry are recorded or dropped, never counted down. Caffeine's removal listener, its eviction, its statistics and the scheduled stats logger (LocalCache.java:36-40, 95-100) are also left out.
- Logging, the Redis connection, the `RedisTemplate` serialisers and pipelining. A batch write is modelled as one write per key, each of which may be lost (`Faults.lostWrites`).
- Concurrency: two advised calls never interleave in the model.
- An exception's cause (`LoaderThrew` is not further distinguished), and the exception types of the guard messages beyond `IllegalArgument`.
- AspectProperties.LoadedValuesLand: stated only for ids whose key no other loaded id shares, because which of two colliding ids wins depends on `HashMap` iteration order.
- AspectProperties.One2OneSecondCallHits: requires that the written text parses back to a non-null object, because fastjson is abstract.
- AspectProperties.PlaceholdersLand: states each placeholder only for ids whose write is sent and lands, because a lost or refused write leaves Redis as it was.
- AspectProperties.PlaceholderAnswersNextBatch: stated for a successful first batch and a Redis batch read of a placeholder that is not empty text, because a failed batch writes no placeholder and `getRedisData` skips empty answers.
- AspectProperties.One2ListSecondCallHits: requires that the written text parses back to a non-empty list and that the local cache held nothing for the key, because fastjson is abstract and a local entry would be served first.

## Findings

| source | as written | input that shows it | evidently intended | confidence | as-written member | corrected member |
|---|---|---|---|---|---|---|
| src/main/java/cn/someget/cache/aop/CacheAspect.java:97 | the guard's `arg instanceof Map` tests the first argument, which on this path is always a List, so it never fires | arguments `[ids, someMap]` with a Map return type: the guard passes and the Map is handed to the loader and formatted into the key template | refuse a Map second argument, as the comment above the guard says | high; not executed | Aspect.BatchParamCheckAsWritten, AspectProperties.BatchParamCheckAsWrittenAdmitsMap | Aspect.AroundIntended, AspectProperties.AroundRefusesMapParam |
| src/main/java/cn/someget/cache/aop/CacheAspect.java:257-258 | `Collectors.toMap` over `dbMissingList` throws `IllegalStateException` on a duplicate key | ids `[x, x]`, nothing cached, the loader returns an empty map, `missExpire` 10: the advice throws after the loader ran | one placeholder per key and a normal return | medium; not executed | Aspect.PlaceholderEntriesAsWritten, AspectProperties.PlaceholdersAsWrittenFailOnRepeatedId, AspectProperties.RepeatedMissThrowsAfterLoading | Aspect.LoadedWrites, AspectProperties.RepeatedMissGetsOnePlaceholder |
