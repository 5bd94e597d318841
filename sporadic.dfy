/**
 * The sporadic tasks of src/tasks/sporadic.rs, one loop iteration at a time.
 * Each task loops: wait for its trigger (a channel item, or nothing for the
 * event server), note the start instant, do its work, then
 * `delay_until(start + MIN_SEP)`. A step at instant `now` is delayed while
 * `now` is before that release instant, blocked while the trigger channel
 * is empty, and otherwise runs one activation.
 */
module Sporadic {
  import opened Generic
  import opened Channels

  const ON_CALL_PRODUCER_MIN_SEP: Duration := 3000
  const EXTERNAL_EVENT_SERVER_MIN_SEP: Duration := 5000
  const ACTIVATION_LOG_READER_MIN_SEP: Duration := 3000

  /** `ACTV_COUNTER_MOD` of the event server. */
  const ACTV_COUNTER_MOD: u8 := 100

  /** What one step of a task did. */
  datatype StepOutcome<+T> =
    | Delayed               // still inside `delay_until(start + MIN_SEP)`
    | Blocked               // suspended in `recv()` on an empty channel
    | Activated(result: T)  // ran one activation

  /** Consecutive activation starts are at least `minSep` apart, and the
      pending release is the last start plus `minSep`: the separation is
      measured from the start instant, not from completion. */
  ghost predicate Separated(starts: seq<TimeInstant>, release: TimeInstant, minSep: Duration)
  {
    && (forall k :: 0 < k < |starts| ==> starts[k - 1] + minSep <= starts[k])
    && (starts != [] ==> release == starts[|starts| - 1] + minSep)
  }

  /** Starting an activation at or after the release keeps the starts
      separated, with the new release `now + minSep`. */
  lemma SeparatedExtend(starts: seq<TimeInstant>, release: TimeInstant, minSep: Duration, now: TimeInstant)
    requires Separated(starts, release, minSep) && release <= now
    ensures Separated(starts + [now], now + minSep, minSep)
  {
  }

  /** Separation accumulates: the j-th start is at least (j - i) * minSep
      after the i-th. */
  lemma {:induction false} SeparationAccumulates(starts: seq<TimeInstant>, release: TimeInstant, minSep: Duration, i: nat, j: nat)
    requires Separated(starts, release, minSep)
    requires i <= j < |starts|
    ensures starts[i] + (j - i) * minSep <= starts[j]
  {
    if i < j {
      SeparationAccumulates(starts, release, minSep, i, j - 1);
      assert starts[j - 1] + minSep <= starts[j];
    }
  }

  /** `on_call_producer`: handles the work items of its channel, one per
      activation, in the order they were sent. */
  class OnCallProducer {
    const receiver: Channel<u32>
    var release: TimeInstant
    ghost var starts: seq<TimeInstant>
    /** The work items handled so far, oldest first. */
    ghost var handled: seq<u32>

    ghost predicate Valid()
      reads this, receiver
    {
      && receiver.Valid()
      && Separated(starts, release, ON_CALL_PRODUCER_MIN_SEP)
      && handled == receiver.received
      && |handled| == |starts|
    }

    constructor (receiver: Channel<u32>)
      requires receiver.Valid() && receiver.received == []
      ensures Valid() && this.receiver == receiver
      ensures release == 0 && starts == [] && handled == []
    {
      this.receiver := receiver;
      release := 0;
      starts := [];
      handled := [];
    }

    /** One loop iteration at instant `now`. The Whetstone workload it runs
        on the item is not modelled. */
    method Step(now: TimeInstant) returns (outcome: StepOutcome<u32>)
      requires Valid()
      modifies this, receiver
      ensures Valid()
      ensures now < old(release) ==> outcome == Delayed && unchanged(this, receiver)
      ensures old(release) <= now && old(receiver.queue) == [] ==>
        outcome == Blocked && unchanged(this, receiver)
      ensures old(release) <= now && old(receiver.queue) != [] ==>
        && outcome == Activated(old(receiver.queue)[0])
        && receiver.queue == old(receiver.queue)[1..]
        && receiver.sent == old(receiver.sent)
        && handled == old(handled) + [old(receiver.queue)[0]]
        && starts == old(starts) + [now]
        && release == now + ON_CALL_PRODUCER_MIN_SEP
    {
      if now < release {
        return Delayed;
      }
      var work := receiver.TryRecv();
      match work
      case None =>
        outcome := Blocked;
      case Some(w) =>
        var instant := now;
        SeparatedExtend(starts, release, ON_CALL_PRODUCER_MIN_SEP, instant);
        starts := starts + [instant];
        handled := handled + [w];
        release := instant + ON_CALL_PRODUCER_MIN_SEP;
        outcome := Activated(w);
    }
  }

  /** `external_event_server`: bumps its counter modulo 100 and offers
      `(counter, now)` to the single-slot activation-log channel, ignoring a
      full slot. */
  class ExternalEventServer {
    const sender: Channel<ActivationEntry>
    var actvCounter: u8
    var release: TimeInstant
    ghost var starts: seq<TimeInstant>
    /** The counter's value at spawn time. */
    ghost const initialCounter: u8

    ghost predicate Valid()
      reads this, sender
    {
      && sender.Valid() && sender.capacity == 1
      && Separated(starts, release, EXTERNAL_EVENT_SERVER_MIN_SEP)
      && initialCounter < 255
      && actvCounter as int
         == if starts == [] then initialCounter as int else (initialCounter as int + |starts|) % 100
    }

    /** `actvCounter` must be below 255: the first increment is a `u8`
        addition. */
    constructor (sender: Channel<ActivationEntry>, actvCounter: u8)
      requires sender.Valid() && sender.capacity == 1
      requires actvCounter < 255
      ensures Valid() && this.sender == sender && this.actvCounter == actvCounter
      ensures release == 0 && starts == []
    {
      this.sender := sender;
      this.actvCounter := actvCounter;
      initialCounter := actvCounter;
      release := 0;
      starts := [];
    }

    /** One loop iteration: the activation starts at `now`; `sendNow` is the
        clock reading taken for the entry's timestamp. */
    method Step(now: TimeInstant, sendNow: TimeInstant) returns (outcome: StepOutcome<ActivationEntry>)
      requires Valid()
      modifies this, sender
      ensures Valid()
      ensures now < old(release) ==> outcome == Delayed && unchanged(this, sender)
      ensures old(release) <= now ==>
        && actvCounter as int == (old(actvCounter) as int + 1) % 100
        && actvCounter < ACTV_COUNTER_MOD
        && outcome == Activated((actvCounter, sendNow))
        && (old(sender.queue) == [] ==> sender.queue == [(actvCounter, sendNow)])
        && (old(sender.queue) != [] ==> sender.queue == old(sender.queue))
        && sender.received == old(sender.received)
        && sender.sent == old(sender.sent) + (if old(sender.queue) == [] then [(actvCounter, sendNow)] else [])
        && starts == old(starts) + [now]
        && release == now + EXTERNAL_EVENT_SERVER_MIN_SEP
    {
      if now < release {
        return Delayed;
      }
      var instant := now;
      ModSuccessor(initialCounter as int + |starts|);
      actvCounter := (actvCounter + 1) % ACTV_COUNTER_MOD;
      var _ := sender.TrySend((actvCounter, sendNow));
      SeparatedExtend(starts, release, EXTERNAL_EVENT_SERVER_MIN_SEP, instant);
      starts := starts + [instant];
      release := instant + EXTERNAL_EVENT_SERVER_MIN_SEP;
      outcome := Activated((actvCounter, sendNow));
    }
  }

  /** `activation_log_reader`: each activation consumes one trigger token
      and reports the oldest unread activation entry, or None for "activation
      log is empty, read failed". */
  class ActivationLogReader {
    const trigger: Channel<u32>
    const actvLog: Channel<ActivationEntry>
    var release: TimeInstant
    ghost var starts: seq<TimeInstant>

    ghost predicate Valid()
      reads this, trigger, actvLog
    {
      && trigger.Valid() && actvLog.Valid()
      && Separated(starts, release, ACTIVATION_LOG_READER_MIN_SEP)
      && |starts| == |trigger.received|
    }

    constructor (trigger: Channel<u32>, actvLog: Channel<ActivationEntry>)
      requires trigger.Valid() && actvLog.Valid() && trigger.received == []
      ensures Valid() && this.trigger == trigger && this.actvLog == actvLog
      ensures release == 0 && starts == []
    {
      this.trigger := trigger;
      this.actvLog := actvLog;
      release := 0;
      starts := [];
    }

    /** One loop iteration at instant `now`. */
    method Step(now: TimeInstant) returns (outcome: StepOutcome<Option<ActivationEntry>>)
      requires Valid()
      modifies this, trigger, actvLog
      ensures Valid()
      ensures now < old(release) ==> outcome == Delayed && unchanged(this, trigger, actvLog)
      ensures old(release) <= now && old(trigger.queue) == [] ==>
        outcome == Blocked && unchanged(this, trigger, actvLog)
      ensures old(release) <= now && old(trigger.queue) != [] ==>
        && trigger.queue == old(trigger.queue)[1..]
        && trigger.received == old(trigger.received) + [old(trigger.queue)[0]]
        && trigger.sent == old(trigger.sent) && actvLog.sent == old(actvLog.sent)
        && (old(actvLog.queue) == [] ==> outcome == Activated(None) && unchanged(actvLog))
        && (old(actvLog.queue) != [] ==>
              && outcome == Activated(Some(old(actvLog.queue)[0]))
              && actvLog.queue == old(actvLog.queue)[1..]
              && actvLog.received == old(actvLog.received) + [old(actvLog.queue)[0]])
        && starts == old(starts) + [now]
        && release == now + ACTIVATION_LOG_READER_MIN_SEP
    {
      if now < release {
        return Delayed;
      }
      var token := trigger.TryRecv();
      if token == None {
        return Blocked;
      }
      var instant := now;
      var entry := actvLog.TryRecv();
      SeparatedExtend(starts, release, ACTIVATION_LOG_READER_MIN_SEP, instant);
      starts := starts + [instant];
      release := instant + ACTIVATION_LOG_READER_MIN_SEP;
      outcome := Activated(entry);
    }
  }

  /** The event server fires at 0 and 5000 ms, the reader is triggered at
      1000, 4000 and 7000 ms. Because the channel holds one entry and a read
      empties it, the 4000 ms read finds nothing even though a write
      happened at 0 ms. */
  method LogReaderScenario() returns (at1000: StepOutcome<Option<ActivationEntry>>,
                                      at4000: StepOutcome<Option<ActivationEntry>>,
                                      at7000: StepOutcome<Option<ActivationEntry>>)
    ensures at1000 == Activated(Some((1, 0)))
    ensures at4000 == Activated(None)
    ensures at7000 == Activated(Some((2, 5000)))
  {
    var server, reader, actvLog, trigger;
    server, reader, actvLog, trigger, at1000 := ScenarioUntil1000();
    at4000, at7000 := ScenarioFrom4000(server, reader, actvLog, trigger);
  }

  /** The first half of `LogReaderScenario`: spawn, the server's write at
      0 ms and the reader's activation at 1000 ms, which leave both
      channels empty. */
  method ScenarioUntil1000()
    returns (server: ExternalEventServer, reader: ActivationLogReader,
             actvLog: Channel<ActivationEntry>, trigger: Channel<u32>,
             at1000: StepOutcome<Option<ActivationEntry>>)
    ensures fresh(server) && fresh(reader) && fresh(actvLog) && fresh(trigger)
    ensures server.Valid() && reader.Valid()
    ensures server.sender == actvLog && reader.actvLog == actvLog && reader.trigger == trigger
    ensures actvLog.queue == [] && trigger.queue == [] && trigger.capacity == 1
    ensures server.release == 5000 && server.actvCounter == 1 && reader.release == 4000
    ensures at1000 == Activated(Some((1, 0)))
  {
    actvLog := new Channel<ActivationEntry>(1);
    trigger := new Channel<u32>(1);
    server := new ExternalEventServer(actvLog, 0);
    reader := new ActivationLogReader(trigger, actvLog);

    var fired := server.Step(0, 0);
    assert actvLog.queue == [(1, 0)];
    var queued := trigger.TrySend(0);
    assert trigger.queue == [0];
    at1000 := reader.Step(1000);
  }

  /** The second half of `LogReaderScenario`, from the state the first half
      leaves: reads at 4000 and 7000 ms around the server's write at
      5000 ms. */
  method ScenarioFrom4000(server: ExternalEventServer, reader: ActivationLogReader,
                          actvLog: Channel<ActivationEntry>, trigger: Channel<u32>)
    returns (at4000: StepOutcome<Option<ActivationEntry>>,
             at7000: StepOutcome<Option<ActivationEntry>>)
    requires server.Valid() && reader.Valid()
    requires server.sender == actvLog && reader.actvLog == actvLog && reader.trigger == trigger
    requires actvLog.queue == [] && trigger.queue == [] && trigger.capacity == 1
    requires server.release == 5000 && server.actvCounter == 1 && reader.release == 4000
    modifies server, reader, actvLog, trigger
    ensures at4000 == Activated(None)
    ensures at7000 == Activated(Some((2, 5000)))
  {
    var queued := trigger.TrySend(0);
    at4000 := reader.Step(4000);
    assert actvLog.queue == [] && trigger.queue == [] && reader.release == 7000;
    var fired := server.Step(5000, 5000);
    assert actvLog.queue == [(2, 5000)];
    assert reader.Valid();
    queued := trigger.TrySend(0);
    at7000 := reader.Step(7000);
  }
}
