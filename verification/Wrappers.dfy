/** Option and Result, and the three error outcomes the storage layer distinguishes. */
module Wrappers {

  datatype Option<+T> = None | Some(value: T)

  // `Backend` stands for every storage error that is neither a duplicate nor a miss.
  datatype Error = Duplicate | NotFound | Backend

  datatype Result<+T> = Ok(value: T) | Err(error: Error)

  function Lookup<K, V>(m: map<K, V>, k: K): Option<V> {
    if k in m then Some(m[k]) else None
  }
}
