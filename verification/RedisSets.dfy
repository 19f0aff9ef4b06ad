/** Redis sets under keys of one kind: a key that was never written is an empty set. */
module RedisSets {
  function Members<K, V>(sets: map<K, set<V>>, key: K): set<V> {
    if key in sets then sets[key] else {}
  }

  function SAdd<K, V>(sets: map<K, set<V>>, key: K, v: V): map<K, set<V>> {
    sets[key := Members(sets, key) + {v}]
  }

  function SRem<K, V>(sets: map<K, set<V>>, key: K, v: V): map<K, set<V>> {
    sets[key := Members(sets, key) - {v}]
  }
}
