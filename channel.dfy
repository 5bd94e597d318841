/**
 * The bounded channels of `rtic_sync` (`make_channel!`), as the tasks see
 * them: a FIFO queue of fixed capacity with a non-blocking send and a
 * receive that either takes the oldest item or finds the queue empty.
 */
module Channels {
  import opened Generic

  class Channel<T> {
    const capacity: nat
    var queue: seq<T>
    /** Every item a send has accepted, oldest first. */
    ghost var sent: seq<T>
    /** Every item a receive has taken, oldest first. */
    ghost var received: seq<T>

    /** Never more than `capacity` items, and items leave in the order they
        were accepted: what was taken followed by what is queued is exactly
        what was sent. */
    ghost predicate Valid()
      reads this
    {
      |queue| <= capacity && received + queue == sent
    }

    constructor (capacity: nat)
      requires capacity >= 1
      ensures Valid() && this.capacity == capacity
      ensures queue == [] && sent == [] && received == []
    {
      this.capacity := capacity;
      queue := [];
      sent := [];
      received := [];
    }

    /** `try_send`: fails when the queue is full, leaving it as it was;
        never overwrites or drops a queued item. */
    method TrySend(x: T) returns (ok: bool)
      requires Valid()
      modifies this
      ensures Valid() && received == old(received)
      ensures ok <==> |old(queue)| < capacity
      ensures ok ==> queue == old(queue) + [x] && sent == old(sent) + [x]
      ensures !ok ==> queue == old(queue) && sent == old(sent)
    {
      ok := |queue| < capacity;
      if ok {
        queue := queue + [x];
        sent := sent + [x];
      }
    }

    /** `try_recv` (and `recv` once it no longer suspends): the oldest item,
        or None when the queue is empty, in which case nothing changes. */
    method TryRecv() returns (r: Option<T>)
      requires Valid()
      modifies this
      ensures Valid() && sent == old(sent)
      ensures old(queue) == [] ==> r == None && unchanged(this)
      ensures old(queue) != [] ==>
        r == Some(old(queue)[0]) && queue == old(queue)[1..] && received == old(received) + [old(queue)[0]]
    {
      if queue == [] {
        r := None;
      } else {
        r := Some(queue[0]);
        received := received + [queue[0]];
        queue := queue[1..];
      }
    }
  }
}
