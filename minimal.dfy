/**
 * The activation log of the early single-file variant, src/bin/minimal.rs:
 * a plain struct of a `u8` counter and a timestamp, owned by the RTIC
 * shared-resource mechanism. Its `write` only increments the counter.
 */
module Minimal {
  import opened Generic

  /** The counter after k calls of `write` from the initial 0, or None once
      a call would overflow the `u8`: Rust's `+=` then panics when overflow
      checks are on, and wraps to 0 when they are off. */
  function CounterAfterWrites(k: nat): (r: Option<u8>)
    ensures k <= 255 ==> r == Some(k as u8)
    ensures k > 255 ==> r == None
  {
    if k == 0 then Some(0)
    else match CounterAfterWrites(k - 1)
      case Some(c) => if c < 255 then Some(c + 1) else None
      case None => None
  }

  /** Although the field is documented as "mod 100", the counter reaches 100
      on the 100th write instead of wrapping to 0, and the 256th write
      overflows. */
  lemma CounterIsNotMod100()
    ensures CounterAfterWrites(100) == Some(100)
    ensures CounterAfterWrites(255) == Some(255)
    ensures CounterAfterWrites(256) == None
  {
  }

  /** The counter after k writes had `write` reduced modulo 100 as its field
      comment says: always below 100, and no write can overflow. */
  function CounterAfterWritesMod100(k: nat): (r: u8)
    ensures r as int == k % 100
  {
    if k == 0 then 0
    else
      ModSuccessor(k - 1);
      (CounterAfterWritesMod100(k - 1) + 1) % 100
  }

  /** The shared `ActivationLog` struct of minimal.rs. */
  class ActivationLog {
    var counter: u8
    var time: TimeInstant
    /** How many times `write` has run since `init`. */
    ghost var writes: nat

    ghost predicate Valid()
      reads this
    {
      CounterAfterWrites(writes) == Some(counter)
    }

    /** The initial value built by `init`: counter 0, time the boot instant. */
    constructor Init(now: TimeInstant)
      ensures Valid() && writes == 0
      ensures counter == 0 && time == now
    {
      counter := 0;
      time := now;
      writes := 0;
    }

    /** `write`: `counter += 1`, as written. The timestamp is not touched.
        The `u8` addition must not overflow. */
    method Write()
      requires Valid() && counter < 255
      modifies this`counter, this`writes
      ensures Valid() && writes == old(writes) + 1
      ensures counter == old(counter) + 1 && counter as int == writes
      ensures time == old(time)
    {
      counter := counter + 1;
      writes := writes + 1;
    }

    /** `read`: the pair `(counter, time)`, nothing changed. */
    method Read() returns (r: (u8, TimeInstant))
      ensures r == (counter, time)
    {
      r := (counter, time);
    }
  }
}
