/**
 * Shared value types of the task set (src/types/generic.rs) and the two
 * wrappers the Rust code gets from its standard library.
 */
module Generic {

  /** Rust's `u8`: arithmetic on it must stay in range, which Dafny checks. */
  newtype u8 = x: int | 0 <= x < 256

  /** Rust's `u32`, the type of the work items sent to the on-call producer. */
  newtype u32 = x: int | 0 <= x < 0x1_0000_0000

  /** A millisecond instant of the monotonic clock. The 32-bit tick counter
      of the clock is not modelled: time is unbounded and never wraps. */
  type TimeInstant = nat

  /** A span of milliseconds. */
  type Duration = nat

  /** `(counter, timestamp)`: one logged activation of the event server. */
  type ActivationEntry = (u8, TimeInstant)

  /** Counting modulo 100 one step at a time agrees with reducing the
      count: the fact behind every "counter mod 100" of the task set. */
  lemma ModSuccessor(n: int)
    ensures (n % 100 + 1) % 100 == (n + 1) % 100
  {
    var q, r := n / 100, n % 100;
    assert n == q * 100 + r && 0 <= r < 100;
    if r < 99 {
      assert n + 1 == q * 100 + (r + 1);
    } else {
      assert n + 1 == (q + 1) * 100;
    }
  }

  datatype Option<+T> = None | Some(value: T)

  /** Rust's `Result<T, &str>`. */
  datatype Result<+T> = Ok(value: T) | Err(msg: string)
}
