/**
 * The activation predicates of src/utils.rs (Rust module
 * `activation_condition`): each bumps its own request counter and decides,
 * from the new count alone, whether the regular producer forwards work.
 */
module ActivationCondition {

  const ON_CALL_PROD_MOD: int := 5
  const LOG_READER_MOD: int := 1000
  const LOG_READER_ACTV_RATIO: int := 3

  /** Largest value of the `AtomicI32` counters; the model stops before the
      counters would wrap. */
  const I32_MAX: int := 0x7fff_ffff

  /** The on-call producer's rule, applied to the count after the bump. The
      count is positive there, so Rust's truncating `%` agrees with Dafny's. */
  predicate OnCallProdActivates(request: nat)
  {
    request % ON_CALL_PROD_MOD == 2
  }

  /** The activation log reader's rule, applied to the count after the bump. */
  predicate LogReaderActivates(request: nat)
  {
    request % LOG_READER_MOD % LOG_READER_ACTV_RATIO == 0
  }

  /** How many of the requests `first`, ..., `first + n - 1` activate the
      on-call producer. */
  function OnCallProdActivations(first: nat, n: nat): nat
  {
    if n == 0 then 0
    else OnCallProdActivations(first, n - 1) + Hit(first + n - 1)
  }

  function Hit(request: nat): nat
  {
    if OnCallProdActivates(request) then 1 else 0
  }

  /** Among any five consecutive requests exactly one activates. */
  lemma OneInFive(first: nat)
    ensures OnCallProdActivations(first, 5) == 1
  {
    var q, r := first / 5, first % 5;
    assert first == 5 * q + r;
    assert OnCallProdActivations(first, 5)
        == Hit(first) + Hit(first + 1) + Hit(first + 2) + Hit(first + 3) + Hit(first + 4) by {
      assert OnCallProdActivations(first, 1) == Hit(first);
      assert OnCallProdActivations(first, 2) == Hit(first) + Hit(first + 1);
      assert OnCallProdActivations(first, 3) == Hit(first) + Hit(first + 1) + Hit(first + 2);
      assert OnCallProdActivations(first, 4)
          == Hit(first) + Hit(first + 1) + Hit(first + 2) + Hit(first + 3);
    }
    if r == 0 {
      assert first + 2 == 5 * q + 2;
    } else if r == 1 {
      assert first + 1 == 5 * q + 2;
    } else if r == 2 {
      assert first == 5 * q + 2;
    } else if r == 3 {
      assert first + 4 == 5 * (q + 1) + 2;
    } else {
      assert first + 3 == 5 * (q + 1) + 2;
    }
  }

  /** Counting over consecutive stretches adds up. */
  lemma {:induction false} ActivationsSplit(first: nat, m: nat, n: nat)
    ensures OnCallProdActivations(first, m + n)
         == OnCallProdActivations(first, m) + OnCallProdActivations(first + m, n)
  {
    if n > 0 {
      ActivationsSplit(first, m, n - 1);
    }
  }

  /** Over 5k consecutive requests the on-call producer activates exactly k
      times: one request in five. */
  lemma {:induction false} OneInFiveOverPeriods(first: nat, k: nat)
    ensures OnCallProdActivations(first, 5 * k) == k
  {
    if k > 0 {
      OneInFiveOverPeriods(first, k - 1);
      ActivationsSplit(first, 5 * (k - 1), 5);
      OneInFive(first + 5 * (k - 1));
    }
  }

  /** The on-call producer activates on requests 2, 7, 12, ... and on no
      other: exactly when the request number is 2 plus a multiple of 5. */
  lemma OnCallProdActivatesExactly(request: nat)
    ensures OnCallProdActivates(request) <==> exists k: nat :: request == 5 * k + 2
  {
    if OnCallProdActivates(request) {
      var k: nat := request / 5;
      assert request == 5 * k + 2;
    }
  }

  /** The reader's decisions repeat every 1000 requests. */
  lemma LogReaderPeriodic(request: nat)
    ensures LogReaderActivates(request + LOG_READER_MOD) == LogReaderActivates(request)
  {
  }

  /** Request 1000 activates the reader, the two after it do not (whereas
      999 + 3 = 1002 would if the rule were plain "every third"). */
  lemma LogReaderAroundWrap()
    ensures LogReaderActivates(1000)
    ensures !LogReaderActivates(1001) && !LogReaderActivates(1002)
    ensures LogReaderActivates(999)
  {
  }

  /** The two process-wide request counters (`static AtomicI32`s). */
  class ActivationCounters {
    var onCallProdActvRequest: nat
    var logReaderActvRequest: nat

    /** Both counters start at 0. */
    constructor ()
      ensures onCallProdActvRequest == 0 && logReaderActvRequest == 0
    {
      onCallProdActvRequest := 0;
      logReaderActvRequest := 0;
    }

    /** `on_call_prod_activation_criterion`: one more request; activate when
        the new count is 2 mod 5. */
    method OnCallProdActivationCriterion() returns (activate: bool)
      requires onCallProdActvRequest < I32_MAX
      modifies this`onCallProdActvRequest
      ensures onCallProdActvRequest == old(onCallProdActvRequest) + 1
      ensures logReaderActvRequest == old(logReaderActvRequest)
      ensures activate <==> onCallProdActvRequest % 5 == 2
    {
      onCallProdActvRequest := onCallProdActvRequest + 1;
      activate := OnCallProdActivates(onCallProdActvRequest);
    }

    /** `activation_log_reader_criterion`: one more request; activate when
        the new count, reduced mod 1000, is a multiple of 3. */
    method ActivationLogReaderCriterion() returns (activate: bool)
      requires logReaderActvRequest < I32_MAX
      modifies this`logReaderActvRequest
      ensures logReaderActvRequest == old(logReaderActvRequest) + 1
      ensures onCallProdActvRequest == old(onCallProdActvRequest)
      ensures activate <==> logReaderActvRequest % 1000 % 3 == 0
    {
      logReaderActvRequest := logReaderActvRequest + 1;
      activate := LogReaderActivates(logReaderActvRequest);
    }
  }
}
