/** Types and units shared by every module of the model. */
module Prelude {
  datatype Option<+T> = None | Some(value: T)

  datatype Result<+T, +E> = Ok(value: T) | Err(error: E)

  /** `std::ops::ControlFlow<()>`: whether a session loop goes on. */
  datatype Flow = Continue | Break

  const U32_LIMIT: nat := 0x1_0000_0000
  const U64_LIMIT: nat := 0x1_0000_0000_0000_0000

  type u8 = n: nat | n < 256
  type u32 = n: nat | n < U32_LIMIT
  type u64 = n: nat | n < U64_LIMIT

  /** `n += 1` on a u32, which wraps. */
  function Increment(n: u32): u32 {
    if n == U32_LIMIT - 1 then 0 else n + 1
  }

  type Bytes = seq<u8>

  /** An instant of the monotonic clock, in nanoseconds. */
  type Instant = int

  const MILLISECOND: int := 1_000_000
  const SECOND: int := 1000 * MILLISECOND

  /** `map.get(k)` */
  function Get<K, V>(m: map<K, V>, k: K): Option<V> {
    if k in m then Some(m[k]) else None
  }

  function Last<T>(s: seq<T>): T
    requires s != []
  {
    s[|s| - 1]
  }

  function Front<T>(s: seq<T>): seq<T>
    requires s != []
  {
    s[..|s| - 1]
  }
}
