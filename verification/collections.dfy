/** Generic facts about maps that loops filling an object key by key rely on. */
module Collections {
  /** The entries of `m` whose key is in `keys`. */
  function Restrict<K, V>(m: map<K, V>, keys: set<K>): (r: map<K, V>)
    ensures r.Keys == m.Keys * keys
    ensures forall k | k in r :: r[k] == m[k]
  {
    map k | k in m && k in keys :: m[k]
  }

  lemma RestrictNone<K, V>(m: map<K, V>)
    ensures Restrict(m, {}) == map[]
  {
  }

  /** Writing the entry for one more key extends the restriction by that key. */
  lemma RestrictStep<K, V>(m: map<K, V>, keys: set<K>, k: K)
    requires k in m
    ensures Restrict(m, keys + {k}) == Restrict(m, keys)[k := m[k]]
  {
  }

  lemma RestrictAll<K, V>(m: map<K, V>, keys: set<K>)
    requires m.Keys <= keys
    ensures Restrict(m, keys) == m
  {
  }

  /** Overwriting one key after a union is the union with that key overwritten on the right. */
  lemma UnionUpdate<K, V>(a: map<K, V>, b: map<K, V>, k: K, v: V)
    ensures (a + b)[k := v] == a + b[k := v]
  {
  }
}
