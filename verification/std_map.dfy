/**
 The two std::map operations the session accessors are built on: `operator[]`,
 which inserts a default-constructed value when the key is absent, and `erase`.
 */
module StdMap {

  /** `m[k]` in C++: the updated map and the value found (or inserted) at `k`. */
  function Subscript<K, V>(m: map<K, V>, k: K, dflt: V): (r: (map<K, V>, V))
    ensures r.0.Keys == m.Keys + {k}
    ensures forall j :: j in m ==> r.0[j] == m[j]
    ensures r.1 == r.0[k]
    ensures k !in m ==> r.1 == dflt
  {
    if k in m then (m, m[k]) else (m[k := dflt], dflt)
  }

  /** `m.erase(k)`: removes `k` if present, nothing else changes. */
  function Erase<K, V>(m: map<K, V>, k: K): (r: map<K, V>)
    ensures r.Keys == m.Keys - {k}
    ensures forall j :: j in r ==> r[j] == m[j]
  {
    m - {k}
  }

  /** The value `operator[]` would return, without the insertion. */
  function ValueOr<K, V>(m: map<K, V>, k: K, dflt: V): V
  {
    if k in m then m[k] else dflt
  }

  /** A second `operator[]` on the same key changes nothing and sees the same value. */
  lemma SubscriptIdempotent<K, V>(m: map<K, V>, k: K, dflt: V)
    ensures Subscript(Subscript(m, k, dflt).0, k, dflt) == Subscript(m, k, dflt)
  {
  }

  /** `operator[]` followed by `erase` of the same key is just the erase: the inserted default does not survive. */
  lemma SubscriptThenErase<K, V>(m: map<K, V>, k: K, dflt: V)
    ensures Erase(Subscript(m, k, dflt).0, k) == Erase(m, k)
  {
  }
}
