/** Small types shared by every module. */
module Prelude {
  datatype Option<+T> = None | Some(value: T)

  /** The row of a table under a key, if there is one. */
  function Lookup<K, V>(m: map<K, V>, key: K): Option<V> {
    if key in m then Some(m[key]) else None
  }
}
