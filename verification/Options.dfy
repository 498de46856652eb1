/** A value that a lookup may not deliver. */
module Options {
  datatype Option<+T> = None | Some(value: T)

  function Lookup<K, V>(m: map<K, V>, k: K): Option<V> {
    if k in m then Some(m[k]) else None
  }

  lemma SameLookups<K(!new), V>(a: map<K, V>, b: map<K, V>)
    requires forall k :: Lookup(a, k) == Lookup(b, k)
    ensures a == b
  {
    assert forall k :: k in a ==> Lookup(a, k) == Lookup(b, k) == Some(a[k]);
    assert forall k :: k in b ==> Lookup(a, k) == Lookup(b, k) == Some(b[k]);
  }
}
