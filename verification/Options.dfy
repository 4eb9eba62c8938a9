/** Optional values, and looking one up in a map. */
module Options {
  datatype Option<T> = None | Some(value: T)

  function Lookup<K, V>(m: map<K, V>, k: K): Option<V> { if k in m then Some(m[k]) else None }
}
