/** Shared value types. */
module Prelude {

  datatype Option<+T> = None | Some(value: T)

  datatype Result<+T, +E> = Ok(value: T) | Err(error: E)

  /** Lookup in a map whose missing keys are an ordinary case. */
  function Get<K, V>(m: map<K, V>, k: K): Option<V> {
    if k in m then Some(m[k]) else None
  }

  /** Removal that tolerates a missing key. */
  function Without<K, V>(m: map<K, V>, k: K): map<K, V> {
    m - {k}
  }

  /** The two maps agree away from one key. */
  predicate Elsewhere<K, V(==)>(m: map<K, V>, m': map<K, V>, k: K) {
    Without(m, k) == Without(m', k)
  }

  lemma ElsewhereAt<K, V>(m: map<K, V>, m': map<K, V>, k: K, x: K)
    requires Elsewhere(m, m', k) && x != k
    ensures Get(m, x) == Get(m', x)
  {
    assert x in m <==> x in Without(m, k);
    assert x in m' <==> x in Without(m', k);
  }

  lemma UpdateElsewhere<K, V>(m: map<K, V>, k: K, v: V)
    ensures Elsewhere(m, m[k := v], k)
    ensures Elsewhere(m, Without(m, k), k)
  {
    assert Without(m, k) == Without(m[k := v], k);
    assert Without(m, k) == Without(Without(m, k), k);
  }
}
