/** Small datatypes and map helpers shared by every component. */
module Basics {

  datatype Option<+T> = None | Some(value: T)

  /** The value stored under a key, if there is one. */
  function Find<K, V>(m: map<K, V>, k: K): Option<V> {
    if k in m then Some(m[k]) else None
  }

  type Positive = x: int | x > 0 witness 1

  function Min(a: int, b: int): int {
    if a < b then a else b
  }

  /** Two maps with the same lookups are the same map. */
  lemma FindExtensional<K, V>(a: map<K, V>, b: map<K, V>)
    requires forall k: K :: Find(a, k) == Find(b, k)
    ensures a == b
  {
    assert forall k: K :: k in a ==> Find(b, k) == Some(a[k]);
    assert forall k: K :: k in b ==> Find(a, k) == Some(b[k]);
  }
}
