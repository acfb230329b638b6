/**
 * PHP's ordered associative arrays, as far as the theme uses them: a list of
 * key/value entries in insertion order whose keys are distinct. Iteration
 * (`foreach`, `array_keys`) follows that order.
 */
module PhpArray {
  import opened Wrappers

  type Arr<K, V> = seq<(K, V)>

  /** The keys in iteration order, as `array_keys` returns them. */
  function Keys<K, V>(a: Arr<K, V>): seq<K>
  {
    if a == [] then [] else [a[0].0] + Keys(a[1..])
  }

  /** Every PHP array has this shape: no key occurs twice. */
  predicate DistinctKeys<K(==), V>(a: Arr<K, V>)
  {
    a == [] || (a[0].0 !in Keys(a[1..]) && DistinctKeys(a[1..]))
  }

  /** `$a[$k]`, with None where `array_key_exists` is false. */
  function Get<K(==), V>(a: Arr<K, V>, k: K): Option<V>
  {
    if a == [] then None
    else if a[0].0 == k then Some(a[0].1)
    else Get(a[1..], k)
  }

  /**
   * The assignment `$a[$k] = $v`: an existing key keeps its position and
   * takes the new value, a new key is appended at the end.
   */
  function Put<K(==,!new), V>(a: Arr<K, V>, k: K, v: V): (r: Arr<K, V>)
    ensures Get(r, k) == Some(v)
    ensures forall j :: j != k ==> Get(r, j) == Get(a, j)
    ensures Keys(r) == if k in Keys(a) then Keys(a) else Keys(a) + [k]
    ensures forall e :: e in r ==> e == (k, v) || e in a
    ensures DistinctKeys(a) ==> DistinctKeys(r)
  {
    if a == [] then [(k, v)]
    else if a[0].0 == k then [(k, v)] + a[1..]
    else [a[0]] + Put(a[1..], k, v)
  }

  /** Assigning the same value to the same key twice is the same as once. */
  lemma {:induction false} PutIdempotent<K(!new), V>(a: Arr<K, V>, k: K, v: V)
    ensures Put(Put(a, k, v), k, v) == Put(a, k, v)
  {
    if a != [] && a[0].0 != k {
      PutIdempotent(a[1..], k, v);
      assert Put(a, k, v)[1..] == Put(a[1..], k, v);
    } else if a != [] {
      assert Put(a, k, v)[1..] == a[1..];
    }
  }

  /** A key that is not yet present is appended after all others. */
  lemma {:induction false} PutAbsent<K(!new), V>(a: Arr<K, V>, k: K, v: V)
    requires k !in Keys(a)
    ensures Put(a, k, v) == a + [(k, v)]
  {
    if a != [] {
      PutAbsent(a[1..], k, v);
      assert a == [a[0]] + a[1..];
    }
  }

  lemma {:induction false} KeysSnoc<K, V>(a: Arr<K, V>, e: (K, V))
    ensures Keys(a + [e]) == Keys(a) + [e.0]
  {
    if a != [] {
      assert (a + [e])[1..] == a[1..] + [e];
      KeysSnoc(a[1..], e);
    }
  }

  /** Appending an entry keeps the keys distinct exactly when its key is new. */
  lemma {:induction false} DistinctKeysSnoc<K, V>(a: Arr<K, V>, e: (K, V))
    ensures DistinctKeys(a + [e]) <==> DistinctKeys(a) && e.0 !in Keys(a)
  {
    if a != [] {
      assert (a + [e])[1..] == a[1..] + [e];
      DistinctKeysSnoc(a[1..], e);
      KeysSnoc(a[1..], e);
    }
  }
}
