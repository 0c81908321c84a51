/** Values that may be absent, outcomes that may be an error, and counters. */
module Wrappers {

  datatype Option<+T> = None | Some(value: T)

  datatype Result<+T, +E> = Ok(value: T) | Err(error: E)

  /** The count of a key; an absent key counts zero. */
  function CountIn<K>(counts: map<K, nat>, key: K): nat {
    if key in counts then counts[key] else 0
  }
}
