/**
 * RedisRepository: the adapter over the Redis template. Redis itself is a map
 * from key to stored string and expiry; a connection failure is given by the
 * `Faults` of the call. Writes never report failure to the caller, and reads
 * turn a failure into null or an empty map.
 */
module Repository {
  import opened Common

  /** `v instanceof String ? v.toString() : JSON.toJSONString(v)`. */
  function Serialize(lib: Lib, v: Obj): string {
    if v.Str? then v.text else lib.toJson(v)
  }

  /**
   * Whether one SETEX takes effect: the connection did not lose it, and Redis
   * accepts it (Redis rejects an expiry that is not positive).
   */
  predicate Lands(faults: Faults, key: string, ttl: int) {
    key !in faults.lostWrites && ttl > 0
  }

  /** `opsForValue().get(key)` on a working connection: the stored string, or null. */
  function Lookup(store: map<string, Stored>, key: string): Option<string> {
    if key in store then Some(store[key].value) else None
  }

  /** The entries of `batchSet` that are sent: a key that is not blank and a value that is not null. */
  predicate Accepted(key: string, v: Obj) {
    !IsBlank(key) && !v.Null?
  }

  /** What one `set` adds to Redis. */
  function SetWrites(lib: Lib, faults: Faults, key: string, ttl: int, v: Obj): map<string, Stored> {
    if !v.Null? && Lands(faults, key, ttl) then map[key := Stored(Serialize(lib, v), ttl)] else map[]
  }

  /** What one `batchSet` adds to Redis. */
  function BatchWrites(lib: Lib, faults: Faults, keyValues: map<string, Obj>, ttl: int): map<string, Stored> {
    map k | k in keyValues && Accepted(k, keyValues[k]) && Lands(faults, k, ttl)
      :: Stored(Serialize(lib, keyValues[k]), ttl)
  }

  /** `filter(Objects::nonNull)` of a list of nullable strings: `Filter` on the present ones, then their strings. */
  function NonNullKeys(keys: seq<Option<string>>): (r: seq<string>)
    ensures forall k :: k in r <==> Some(k) in keys
    ensures |r| <= |keys|
  {
    var present := Filter(keys, (k: Option<string>) => k.Some?);
    assert forall i :: 0 <= i < |present| ==> present[i] in present;
    var r := seq(|present|, i requires 0 <= i < |present| && present[i].Some? => present[i].value);
    assert forall i :: 0 <= i < |r| ==> Some(r[i]) == present[i];
    assert forall k :: Some(k) in keys ==> k in r by {
      forall k | Some(k) in keys
        ensures k in r
      {
        assert Some(k) in present;
        var i :| 0 <= i < |present| && present[i] == Some(k);
        assert r[i] == k;
      }
    }
    r
  }

  /** `distinct()`: each string once, at the place of its first occurrence. */
  function Distinct(xs: seq<string>): (r: seq<string>)
    ensures forall x :: x in r <==> x in xs
    ensures forall i, j :: 0 <= i < j < |r| ==> r[i] != r[j]
    ensures |r| <= |xs|
    decreases |xs|
  {
    if xs == [] then []
    else
      var d := Distinct(xs[..|xs| - 1]);
      assert xs == xs[..|xs| - 1] + [xs[|xs| - 1]];
      if xs[|xs| - 1] in d then d else d + [xs[|xs| - 1]]
  }

  /** The keys `multiGet` actually asks for. */
  function MultiGetKeys(keys: seq<Option<string>>): seq<string> {
    Distinct(NonNullKeys(keys))
  }

  /** The position of the first occurrence of `x`. */
  function IndexOf(xs: seq<string>, x: string): (i: nat)
    requires x in xs
    ensures i < |xs| && xs[i] == x
    ensures forall j :: 0 <= j < i ==> xs[j] != x
  {
    if xs[0] == x then 0 else 1 + IndexOf(xs[1..], x)
  }

  /** A first occurrence inside a prefix is the first occurrence in the whole sequence. */
  lemma IndexOfPrefix(xs: seq<string>, m: nat, x: string)
    requires m <= |xs| && x in xs[..m]
    ensures IndexOf(xs, x) == IndexOf(xs[..m], x)
  {
    var i, j := IndexOf(xs, x), IndexOf(xs[..m], x);
    assert xs[..m][j] == xs[j];
  }

  /** An element that occurs before the last position has the same first occurrence without the last element. */
  lemma IndexOfInit(xs: seq<string>)
    requires xs != []
    ensures forall y :: y in Distinct(xs[..|xs| - 1]) ==> IndexOf(xs, y) == IndexOf(xs[..|xs| - 1], y) < |xs| - 1
  {
    forall y | y in Distinct(xs[..|xs| - 1])
      ensures IndexOf(xs, y) == IndexOf(xs[..|xs| - 1], y) < |xs| - 1
    {
      IndexOfPrefix(xs, |xs| - 1, y);
    }
  }

  /** `distinct()` keeps the order of first occurrences. */
  lemma {:induction false} DistinctKeepsFirstOccurrences(xs: seq<string>)
    ensures forall i, j :: 0 <= i < j < |Distinct(xs)| ==>
      IndexOf(xs, Distinct(xs)[i]) < IndexOf(xs, Distinct(xs)[j])
    decreases |xs|
  {
    if xs != [] {
      var n := |xs|;
      var init := xs[..n - 1];
      var last := xs[n - 1];
      var d := Distinct(init);
      DistinctKeepsFirstOccurrences(init);
      IndexOfInit(xs);
      var r := Distinct(xs);
      assert r == if last in d then d else d + [last];
      forall i, j | 0 <= i < j < |r|
        ensures IndexOf(xs, r[i]) < IndexOf(xs, r[j])
      {
        assert r[i] == d[i];
        if j < |d| {
          assert r[j] == d[j];
        } else {
          assert r[j] == last && IndexOf(xs, last) == n - 1;
        }
      }
    }
  }

  class RedisRepository {
    /** The foreign functions every layer shares. */
    const lib: Lib
    /** What Redis holds. */
    var store: map<string, Stored>

    constructor (lib: Lib, store: map<string, Stored>)
      ensures this.lib == lib && this.store == store
    {
      this.lib := lib;
      this.store := store;
    }

    /**
     * A null value is ignored; otherwise the serialised value is written with
     * expiry `expire`, and a failure is swallowed.
     */
    method Set(key: string, expire: int, value: Obj, faults: Faults)
      modifies this
      ensures store == old(store) + SetWrites(lib, faults, key, expire, value)
    {
      if value.Null? {
        return;
      }
      var valueStr := Serialize(lib, value);
      if Lands(faults, key, expire) {
        store := store[key := Stored(valueStr, expire)];
      }
    }

    /**
     * Every entry with a key that is not blank and a value that is not null is
     * written with the same expiry; entries land one by one, so a failure can
     * lose any of them, and it is swallowed.
     */
    method BatchSet(keyValues: map<string, Obj>, expire: int, faults: Faults)
      modifies this
      ensures store == old(store) + BatchWrites(lib, faults, keyValues, expire)
    {
      if |keyValues| == 0 {
        assert keyValues.Keys == {};
        UnionEmpty(store, BatchWrites(lib, faults, keyValues, expire));
        return;
      }
      var pending := keyValues.Keys;
      while pending != {}
        invariant pending <= keyValues.Keys
        invariant store == old(store) + BatchWrites(lib, faults, keyValues - pending, expire)
        decreases pending
      {
        var k :| k in pending;
        var v := keyValues[k];
        assert keyValues - (pending - {k}) == (keyValues - pending)[k := v];
        BatchWritesStep(lib, faults, keyValues - pending, expire, k, v);
        if !IsBlank(k) && !v.Null? && Lands(faults, k, expire) {
          store := store[k := Stored(Serialize(lib, v), expire)];
        }
        pending := pending - {k};
      }
      assert keyValues - pending == keyValues;
    }

    /** The stored string; a failed read gives null. */
    method Get(key: string, faults: Faults) returns (r: Option<string>)
      ensures faults.readsFail ==> r.None?
      ensures !faults.readsFail ==> r == Lookup(store, key)
    {
      if faults.readsFail {
        return None;
      }
      r := Lookup(store, key);
    }

    /**
     * Null keys are dropped and duplicates removed; the i-th remaining key is
     * paired with the i-th value of Redis's answer, blank keys are skipped, and
     * a key Redis does not hold is kept with a null value. A failed read gives
     * an empty map.
     */
    method MultiGet(keys: seq<Option<string>>, faults: Faults) returns (r: map<string, Option<string>>)
      ensures faults.readsFail ==> r == map[]
      ensures !faults.readsFail ==> forall k :: k in r <==> Some(k) in keys && !IsBlank(k)
      ensures forall k :: k in r ==> r[k] == Lookup(store, k)
    {
      var ks := MultiGetKeys(keys);
      r := map[];
      if faults.readsFail {
        return;
      }
      var data := store;
      var redisData := seq(|ks|, i requires 0 <= i < |ks| => Lookup(data, ks[i]));
      if |redisData| == 0 {
        return;
      }
      var i := 0;
      while i < |ks|
        invariant 0 <= i <= |ks|
        invariant forall k :: k in r <==> k in ks[..i] && !IsBlank(k)
        invariant forall k :: k in r ==> r[k] == Lookup(store, k)
      {
        var value := redisData[i];
        var key := ks[i];
        assert ks[..i + 1] == ks[..i] + [key];
        if !IsBlank(key) {
          r := r[key := value];
        }
        i := i + 1;
      }
      assert ks[..i] == ks;
    }
  }

  /** Adding one entry to a batch adds at most its own write. */
  lemma BatchWritesStep(lib: Lib, faults: Faults, keyValues: map<string, Obj>, ttl: int, k: string, v: Obj)
    requires k !in keyValues
    ensures BatchWrites(lib, faults, keyValues[k := v], ttl)
         == if Accepted(k, v) && Lands(faults, k, ttl)
            then BatchWrites(lib, faults, keyValues, ttl)[k := Stored(Serialize(lib, v), ttl)]
            else BatchWrites(lib, faults, keyValues, ttl)
  {
  }

  /** Each write of a batch lands or not on its own: losing keys removes just those keys. */
  lemma BatchWritesLoseIndependently(lib: Lib, keyValues: map<string, Obj>, ttl: int, lost: set<string>)
    ensures BatchWrites(lib, Faults(false, lost), keyValues, ttl)
         == BatchWrites(lib, Faults(false, {}), keyValues, ttl) - lost
  {
  }
}
