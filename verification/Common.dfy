/** What every part of the model shares: optional values and clock readings. */
module Common {
  datatype Option<+T> = None | Some(value: T)

  /** An address, only ever compared for equality. */
  type IpAddr = nat

  /** A reading of the monotonic clock, in nanoseconds. */
  type Instant = nat

  const SECOND: nat := 1_000_000_000

  /** `now.duration_since(then)`: zero when `then` is the later of the two. */
  function Since(now: Instant, earlier: Instant): nat {
    if now < earlier then 0 else now - earlier
  }

  function Get<K, V>(m: map<K, V>, k: K): Option<V> {
    if k in m then Some(m[k]) else None
  }
}
