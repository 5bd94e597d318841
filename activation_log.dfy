/**
 * The shared activation log of src/types/activation_log.rs: one cell that
 * holds either the "never written" error or the last `(counter, time)` entry
 * written by the external event server.
 */
module ActivationLog {
  import opened Generic

  /** `MOD`: the counter is kept modulo this value. */
  const MOD: u8 := 100

  /** The error the cell holds until the first write. */
  const NOT_LOGGED: string := "no external event server activation logged"

  /** The token that `cortex_m::interrupt::free` lends to its closure.
      Holding one is the (type-level) precondition of `write`: interrupts
      are disabled while it exists. */
  datatype CriticalSection = CriticalSection

  /** The value `write` stores, given the cell's previous value and the
      instant `now` it reads from the clock. The `u8` addition `entry.0 + 1`
      must not overflow, hence the precondition. */
  function Written(entry: Result<ActivationEntry>, now: TimeInstant): (r: Result<ActivationEntry>)
    requires entry.Ok? ==> entry.value.0 < 255
    ensures r.Ok? && r.value.0 < MOD && r.value.1 == now
  {
    match entry
    case Ok(e) => Ok(((e.0 + 1) % MOD, now))
    case Err(_) => Ok((1, now))
  }

  /** The cell after writing at each instant of `nows`, first to last. */
  function WriteAll(entry: Result<ActivationEntry>, nows: seq<TimeInstant>): (r: Result<ActivationEntry>)
    requires entry.Ok? ==> entry.value.0 < 255
    ensures r.Ok? ==> r.value.0 < 255
  {
    if nows == [] then entry
    else Written(WriteAll(entry, nows[..|nows| - 1]), nows[|nows| - 1])
  }

  /** After k >= 1 writes to a fresh log the counter is k mod 100 and the
      timestamp is the instant of the k-th write. */
  lemma {:induction false} CounterAfterWrites(nows: seq<TimeInstant>)
    requires |nows| >= 1
    ensures WriteAll(Err(NOT_LOGGED), nows) == Ok(((|nows| % 100) as u8, nows[|nows| - 1]))
  {
    var k := |nows|;
    if k > 1 {
      var prefix := nows[..k - 1];
      CounterAfterWrites(prefix);
      assert WriteAll(Err(NOT_LOGGED), prefix).value.0 as int == (k - 1) % 100;
      ModSuccessor(k - 1);
    }
  }

  /** Once written, the log never holds the error again, whatever follows. */
  lemma {:induction false} NeverUnwritten(entry: Result<ActivationEntry>, nows: seq<TimeInstant>)
    requires entry.Ok? ==> entry.value.0 < 255
    requires entry.Ok? || nows != []
    ensures WriteAll(entry, nows).Ok?
    ensures nows != [] ==> WriteAll(entry, nows).value.0 < MOD
  {
    if nows != [] {
      var last := |nows| - 1;
      assert WriteAll(entry, nows) == Written(WriteAll(entry, nows[..last]), nows[last]);
    }
  }

  /** With non-decreasing write instants, the logged timestamp never goes
      backwards: the entry after i writes is not newer than after j >= i. */
  lemma TimestampsMonotone(entry: Result<ActivationEntry>, nows: seq<TimeInstant>, i: nat, j: nat)
    requires entry.Ok? ==> entry.value.0 < 255
    requires forall a, b :: 0 <= a <= b < |nows| ==> nows[a] <= nows[b]
    requires 1 <= i <= j <= |nows|
    ensures WriteAll(entry, nows[..i]).Ok? && WriteAll(entry, nows[..j]).Ok?
    ensures WriteAll(entry, nows[..i]).value.1 <= WriteAll(entry, nows[..j]).value.1
  {
    assert nows[..i][i - 1] == nows[i - 1];
    assert nows[..j][j - 1] == nows[j - 1];
  }

  /** The cell shared between the event server (writer) and the reader. */
  class ActivationLog {
    var entry: Result<ActivationEntry>
    /** The instant of every write so far, oldest first. */
    ghost var writes: seq<TimeInstant>

    ghost predicate Valid()
      reads this
    {
      entry == WriteAll(Err(NOT_LOGGED), writes)
    }

    /** `build`: a fresh log reads as the "not logged" error, not as a
        counter value. */
    constructor Build()
      ensures Valid() && writes == []
      ensures entry == Err(NOT_LOGGED)
    {
      entry := Err(NOT_LOGGED);
      writes := [];
    }

    /** `write`: bump the counter modulo 100 (1 from the unwritten state)
        and stamp the entry with `now`. */
    method Write(cs: CriticalSection, now: TimeInstant)
      requires Valid()
      modifies this
      ensures Valid() && writes == old(writes) + [now]
      ensures old(entry).Err? ==> entry == Ok((1, now))
      ensures old(entry).Ok? ==> entry == Ok(((old(entry).value.0 + 1) % MOD, now))
      ensures entry == Ok(((|writes| % 100) as u8, now))
    {
      entry := Written(entry, now);
      writes := writes + [now];
      assert writes[..|writes| - 1] == old(writes);
      CounterAfterWrites(writes);
    }

    /** `read`: the stored value, unchanged. */
    method Read() returns (r: Result<ActivationEntry>)
      ensures r == entry
    {
      r := entry;
    }
  }
}
