/** Optional values and the lookup of a JavaScript `Map`, shared by every
    module of the model. */
module Options {

  /** A value that may be absent: `null`/`undefined`, or NaN where a number
      is read. */
  datatype Option<+T> = None | Some(value: T)

  /** `Map.get` on a JavaScript Map: the value stored under `k`, or undefined. */
  function Get<K, V>(m: map<K, V>, k: K): Option<V>
  {
    if k in m then Some(m[k]) else None
  }
}
