/**
 * The in-process tier (LocalCache, a Caffeine cache) as a plain map from key
 * to object. Expiry after three seconds, eviction and statistics are not part
 * of this model.
 */
module LocalStore {
  import opened Common

  /** `getIfPresent`: the entry under `key`, or null. */
  function Present(entries: map<string, Obj>, key: string): Obj {
    if key in entries then entries[key] else Null
  }

  class LocalCache {
    var entries: map<string, Obj>

    constructor (entries: map<string, Obj>)
      ensures this.entries == entries
    {
      this.entries := entries;
    }

    method GetIfPresent(key: string) returns (v: Obj)
      ensures key in entries ==> v == entries[key]
      ensures key !in entries ==> v.Null?
    {
      v := Present(entries, key);
    }

    /** Only the keys that are present appear in the answer. */
    method GetAllPresent(keys: seq<string>) returns (r: map<string, Obj>)
      ensures forall k :: k in r <==> k in keys && k in entries
      ensures forall k :: k in r ==> r[k] == entries[k]
    {
      if |keys| == 0 {
        return map[];
      }
      r := map k | k in keys && k in entries :: entries[k];
    }

    /** Caffeine refuses null values. */
    method Put(key: string, v: Obj)
      requires !v.Null?
      modifies this
      ensures entries == old(entries)[key := v]
    {
      entries := entries[key := v];
    }

    method PutAll(caches: map<string, Obj>)
      requires forall k :: k in caches ==> !caches[k].Null?
      modifies this
      ensures entries == old(entries) + caches
    {
      if |caches| == 0 {
        assert old(entries) + caches == old(entries);
        return;
      }
      entries := entries + caches;
    }

    method Delete(key: string)
      modifies this
      ensures entries == old(entries) - {key}
    {
      entries := entries - {key};
    }
  }
}
