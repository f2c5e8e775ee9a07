/** Optional values, and maps looked up with them. */
module Maps {
  datatype Opt<T> = None | Some(v: T)

  function At<K, V>(m: map<K, V>, k: K): Opt<V> {
    if k in m then Some(m[k]) else None
  }

  /** Maps that look the same everywhere are the same. */
  lemma MapsEqual<K(!new), V>(a: map<K, V>, b: map<K, V>)
    requires forall k :: At(a, k) == At(b, k)
    ensures a == b
  {
    forall k ensures (k in a <==> k in b) && (k in a ==> a[k] == b[k]) {
      assert At(a, k) == At(b, k);
    }
  }
}
