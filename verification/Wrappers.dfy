module Wrappers {
  type Byte = b: int | 0 <= b < 256 witness 0

  /** A value that may be absent: a nil pointer, a missing row or map entry, a call that failed. */
  datatype Option<+T> = None | Some(value: T)

  function Lookup<K, V>(m: map<K, V>, k: K): (v: Option<V>) {
    if k in m then Some(m[k]) else None
  }
}
