/** Types and arithmetic shared by every module. */
module Basics {
  datatype Option<+T> = None | Some(value: T)

  datatype Result<+T, +E> = Ok(value: T) | Err(error: E)

  type byte = b: int | 0 <= b < 256

  /** Go's Unix(): the whole second an instant in milliseconds falls in. */
  function Sec(ms: nat): nat {
    ms / 1000
  }

  /** A Redis value with the instant, in milliseconds, at which its TTL ends. */
  datatype Timed<+T> = Timed(value: T, expiresAt: nat)

  /**
   * What a command reads at instant `at`. Redis drops a key once the clock has
   * passed its expiry instant, so the key still answers at that very instant.
   */
  function Live<T>(entry: Option<Timed<T>>, at: nat): Option<T> {
    match entry
    case None => None
    case Some(t) => if at <= t.expiresAt then Some(t.value) else None
  }

  function Lookup<K, V>(m: map<K, V>, k: K): Option<V> {
    if k in m then Some(m[k]) else None
  }
}
