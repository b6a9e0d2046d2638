/**
 * The property maps that events carry (`JSONObject` in the library), and the
 * `put` loops that copy one map into another.
 */
module Props {
  import opened Common

  /** A JSON value as the library stores it; `JsonNull` is `JSONObject.NULL`. */
  datatype Value = Str(s: string) | Num(n: int) | Flag(b: bool) | JsonNull

  type PropMap = map<string, Value>

  /**
   * `JSONObject.put(key, value)`: maps `key` to `value`, and removes `key`
   * when `value` is a Java null.
   */
  function Put(m: PropMap, key: string, v: Option<Value>): (r: PropMap)
    ensures v.Some? ==> key in r && r[key] == v.value
    ensures v.None? ==> key !in r
    ensures forall k :: k != key ==> (k in r <==> k in m)
    ensures forall k :: k != key && k in r ==> r[k] == m[k]
  {
    match v
    case Some(x) => m[key := x]
    case None => m - {key}
  }

  /**
   * The loop `for (key : src.keys()) dest.put(key, src.get(key))`, with the
   * keys visited in the order `keys` (the iteration order of a JSONObject is
   * not specified).
   */
  function PutEach(dest: PropMap, src: PropMap, keys: seq<string>): PropMap
    requires forall i :: 0 <= i < |keys| ==> keys[i] in src
    decreases |keys|
  {
    if keys == [] then dest else PutEach(dest[keys[0] := src[keys[0]]], src, keys[1..])
  }

  /** The keys of `src` that the sequence `keys` visits, with their values. */
  function Restrict(src: PropMap, keys: seq<string>): (r: PropMap)
    ensures r.Keys == set k | k in src && k in keys
    ensures forall k :: k in r ==> r[k] == src[k]
  {
    map k | k in src && k in keys :: src[k]
  }

  /**
   * The put loop overrides `dest` with exactly the visited keys of `src`; in
   * particular, whatever the iteration order, visiting every key of `src`
   * gives `dest + src`: later keys win over earlier ones.
   */
  lemma {:induction false} PutEachOverrides(dest: PropMap, src: PropMap, keys: seq<string>)
    requires forall i :: 0 <= i < |keys| ==> keys[i] in src
    ensures PutEach(dest, src, keys) == dest + Restrict(src, keys)
    decreases |keys|
  {
    if keys != [] {
      var k, rest := keys[0], keys[1..];
      forall i | 0 <= i < |rest| ensures rest[i] in src {
        assert rest[i] == keys[i + 1];
      }
      PutEachOverrides(dest[k := src[k]], src, rest);
      RestrictFirst(dest, src, keys);
    }
  }

  /** Putting the first visited key, then the rest, is putting all of them. */
  lemma RestrictFirst(dest: PropMap, src: PropMap, keys: seq<string>)
    requires keys != [] && keys[0] in src
    ensures dest[keys[0] := src[keys[0]]] + Restrict(src, keys[1..]) == dest + Restrict(src, keys)
  {
    var k := keys[0];
    var lhs := dest[k := src[k]] + Restrict(src, keys[1..]);
    var rhs := dest + Restrict(src, keys);
    assert forall x :: x in keys <==> x == k || x in keys[1..];
    assert lhs.Keys == rhs.Keys;
    assert forall x :: x in lhs ==> lhs[x] == rhs[x];
  }

  lemma PutEachOfAllKeys(dest: PropMap, src: PropMap, keys: seq<string>)
    requires forall i :: 0 <= i < |keys| ==> keys[i] in src
    requires forall k :: k in src ==> k in keys
    ensures PutEach(dest, src, keys) == dest + src
  {
    PutEachOverrides(dest, src, keys);
    assert Restrict(src, keys) == src;
  }

  /**
   * `for (key : src.keys()) dest.put(key, src.get(key))` on a map updated in
   * place: the keys are taken in no particular order, and every key of `src`
   * ends up with the value it has in `src`.
   */
  method PutAll<V>(dest: map<string, V>, src: map<string, V>) returns (r: map<string, V>)
    ensures r == dest + src
  {
    r := dest;
    var todo := src.Keys;
    while todo != {}
      invariant todo <= src.Keys
      invariant r == dest + (map k | k in src && k !in todo :: src[k])
      decreases todo
    {
      var k :| k in todo;
      r := r[k := src[k]];
      todo := todo - {k};
    }
    assert (map k | k in src && k !in todo :: src[k]) == src;
  }

  /**
   * The same loop guarded by `if (!dest.has(key))`: only the keys `dest`
   * lacks are copied, so every value already in `dest` is kept.
   */
  method PutAbsent<V>(dest: map<string, V>, src: map<string, V>) returns (r: map<string, V>)
    ensures r == src + dest
  {
    r := dest;
    var todo := src.Keys;
    while todo != {}
      invariant todo <= src.Keys
      invariant r == (map k | k in src && k !in todo :: src[k]) + dest
      decreases todo
    {
      var k :| k in todo;
      if k !in r {
        r := r[k := src[k]];
      }
      todo := todo - {k};
    }
    assert (map k | k in src && k !in todo :: src[k]) == src;
  }
}
