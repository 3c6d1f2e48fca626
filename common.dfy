/**
 * Shared vocabulary of the cache engine: the Java values that flow through it,
 * the foreign library functions it calls (String.format, fastjson, hutool's
 * Convert), the @Cache policy, the constants of RedisKey, and the failure
 * behaviour of the Redis connection.
 */
module Common {

  datatype Option<T> = None | Some(value: T)

  /** A Java class object (`Class<?>`), as far as the engine compares or passes it. */
  datatype Cls = ListType | MapType | StringType | Named(name: string)

  /** A Java object reference as the engine sees it. */
  datatype Obj =
    | Null                            // the null reference
    | Str(text: string)               // a java.lang.String
    | Items(elems: seq<Obj>)          // a java.util.List
    | Table(entries: map<Obj, Obj>)   // a java.util.Map
    | Other(cls: Cls, payload: int)   // any other object: a boxed id, a bean, ...

  /**
   * The foreign functions the engine calls. They stay abstract: every property
   * below holds for every choice of them, unless a lemma says otherwise.
   */
  datatype Lib = Lib(
    format: (string, seq<Obj>) -> string,           // String.format(template, args...)
    toJson: Obj -> string,                          // JSON.toJSONString(o)
    parseObject: (string, Cls) -> Obj,              // JSON.parseObject(text, clazz)
    parseArray: (string, Cls) -> Option<seq<Obj>>,  // JSON.parseArray(text, clazz); None is null
    toStr: Obj -> string,                           // Convert.toStr(o) of an object that is not a String
    emptyObject: Cls -> Obj)                        // clazz.getMethod("emptyObject").invoke(null); Null when it fails

  /** The @Cache annotation of one cached method. */
  datatype Policy = Policy(
    prefix: string,         // key template, e.g. "user:%d"
    expire: int,            // seconds a loaded value is kept
    missExpire: int,        // seconds a placeholder is kept; 0 disables negative caching
    hasMoreValue: bool,     // batch values are lists: Map<K, List<V>>
    clazz: Cls,             // element type used to decode stored values
    usingLocalCache: bool)  // read through the in-process tier first

  // Constants of RedisKey.
  const COMMON_MISS_EXPIRE: int := 10
  const DISABLE_MISS_VALUE: int := 0
  const EMPTY_OBJECT: string := "{}"
  const EMPTY_COLLECTION: string := "[]"

  /** The annotation's defaults: no prefix, expire 0, missExpire COMMON_MISS_EXPIRE, Redis only. */
  const DEFAULT_POLICY: Policy := Policy("", 0, COMMON_MISS_EXPIRE, false, Named("java.lang.Object"), false)

  /** A value held by Redis: the string and the expiry (seconds) it was written with. */
  datatype Stored = Stored(value: string, ttl: int)

  /**
   * What the Redis connection does to the requests of one call: whether reads
   * throw, and the keys whose writes are lost (the command threw or never ran).
   */
  datatype Faults = Faults(readsFail: bool, lostWrites: set<string>)

  /** Exceptions that reach the caller of a cached method. */
  datatype Error =
    | NoArgument                  // args[0] of an empty argument array
    | IllegalArgument(msg: string) // a failed hutool Assert
    | ClassCast                   // the loader's result is not a Map
    | DuplicateKey(key: string)   // Collectors.toMap met a key twice
    | LoaderThrew(cause: string)  // whatever the real method threw

  datatype Result<T> = Success(value: T) | Failure(error: Error)

  /** hutool's CharUtil.isBlankChar: Java whitespace, Unicode space separators, BOM, U+202A and NUL. */
  predicate IsBlankChar(c: char) {
    var n := c as int;
    (9 <= n <= 13) || (0x1C <= n <= 0x20) || n == 0 || n == 0xA0 || n == 0x1680
    || (0x2000 <= n <= 0x200A) || n == 0x2028 || n == 0x2029 || n == 0x202A
    || n == 0x202F || n == 0x205F || n == 0x3000 || n == 0xFEFF
  }

  /** hutool's CharSequenceUtil.isBlank of a non-null string: empty or only blank characters. */
  predicate IsBlank(s: string) {
    forall i :: 0 <= i < |s| ==> IsBlankChar(s[i])
  }

  /** Spring's StringUtils.isEmpty of a nullable string: null or "". */
  predicate IsEmptyText(s: Option<string>) {
    s.None? || s.value == ""
  }

  /** CollectionUtils.isEmpty of what should be a list: null or no elements. */
  predicate IsEmptyList(o: Obj) {
    o.Null? || (o.Items? && o.elems == [])
  }

  /** A nullable list returned by fastjson, as an object. */
  function ListObj(l: Option<seq<Obj>>): Obj {
    match l
    case None => Null
    case Some(xs) => Items(xs)
  }

  /** hutool's Convert.toStr(o, ""): the default for null, a String itself, otherwise its rendering. */
  function ToStr(lib: Lib, o: Obj): string {
    match o
    case Null => ""
    case Str(t) => t
    case _ => lib.toStr(o)
  }

  /** The cache key of one id in a batch: String.format(prefix, id). */
  function Key(lib: Lib, prefix: string, id: Obj): string {
    lib.format(prefix, [id])
  }

  /** Distinct ids of `ids` never share a key. */
  ghost predicate KeysInjective(lib: Lib, prefix: string, ids: set<Obj>) {
    forall a, b :: a in ids && b in ids && Key(lib, prefix, a) == Key(lib, prefix, b) ==> a == b
  }

  /**
   * `stream().filter(p).collect(toList())`: the elements of `s` that satisfy `p`,
   * in their order in `s`.
   */
  function Filter<T(==,!new)>(s: seq<T>, p: T -> bool): (r: seq<T>)
    ensures forall x :: x in r <==> x in s && p(x)
    ensures |r| <= |s|
    decreases |s|
  {
    if s == [] then [] else Filter(s[..|s| - 1], p) + (if p(s[|s| - 1]) then [s[|s| - 1]] else [])
  }

  /** Filtering distributes over concatenation, so it keeps the input order. */
  lemma {:induction false} FilterAppend<T(!new)>(a: seq<T>, b: seq<T>, p: T -> bool)
    ensures Filter(a + b, p) == Filter(a, p) + Filter(b, p)
    decreases |b|
  {
    if b == [] {
      assert a + b == a;
    } else {
      var b' := b[..|b| - 1];
      assert (a + b)[..|a + b| - 1] == a + b';
      FilterAppend(a, b', p);
    }
  }

  /** A filter that every element passes returns its input; one that none passes returns []. */
  lemma {:induction false} FilterAllOrNone<T(!new)>(s: seq<T>, p: T -> bool)
    ensures (forall i :: 0 <= i < |s| ==> p(s[i])) ==> Filter(s, p) == s
    ensures (forall i :: 0 <= i < |s| ==> !p(s[i])) ==> Filter(s, p) == []
    decreases |s|
  {
    if s != [] {
      FilterAllOrNone(s[..|s| - 1], p);
      assert s[..|s| - 1] + [s[|s| - 1]] == s;
    }
  }

  /** One more element processed by a loop that filters `s` front to back. */
  lemma FilterStep<T(!new)>(s: seq<T>, i: nat, p: T -> bool)
    requires i < |s|
    ensures Filter(s[..i + 1], p) == Filter(s[..i], p) + (if p(s[i]) then [s[i]] else [])
  {
    assert s[..i + 1][..i] == s[..i];
  }

  /** Updating a union updates its right operand. */
  lemma UpdateUnion<K, V>(a: map<K, V>, b: map<K, V>, k: K, v: V)
    ensures (a + b)[k := v] == a + b[k := v]
  {
  }

  /** A union with a map that has no entries changes nothing. */
  lemma UnionEmpty<K, V>(a: map<K, V>, b: map<K, V>)
    requires |b| == 0
    ensures a + b == a
  {
    assert b.Keys == {};
  }

  /** `ids.removeIf(Objects::isNull)` / `filter(ObjectUtil::isNotNull)`. */
  function NonNull(ids: seq<Obj>): seq<Obj> {
    Filter(ids, (id: Obj) => !id.Null?)
  }

  /** A java.util.List of ids that a callee may change in place. */
  class IdList {
    var items: seq<Obj>

    constructor (items: seq<Obj>)
      ensures this.items == items
    {
      this.items := items;
    }

    /** `removeIf(Objects::isNull)`. */
    method RemoveNulls()
      modifies this
      ensures items == NonNull(old(items))
    {
      items := NonNull(items);
    }
  }
}
