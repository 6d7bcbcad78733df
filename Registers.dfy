/**
 * Register writes with bounded busy retry (hmc5983_set_cra, hmc5983_set_mode,
 * hmc5983_set_crb). The bus transport is not modelled: each write it is asked
 * to perform is answered by the next element of a reply stream, where a
 * non-zero reply means the transport reported a failure. A register read
 * is answered by a Reply.
 */
module Registers {

  type byte = x: int | 0 <= x < 256

  /** What a register read over the bus yields: a data byte or the failure sentinel (-1). */
  datatype Reply = Failed | Data(b: byte)

  /** The named registers that the driver writes. */
  datatype Register = ConfRegA | ConfRegB | ModeReg

  /** One transport call issued by the driver: write `value` into `reg`. */
  datatype Write = Write(reg: Register, value: byte)

  /** The loop counter stops advancing once it reaches this value. */
  const RetryLimit: nat := 10

  /** Number of transport calls the retry loop makes, counting from attempt `i`. */
  function AttemptsFrom(replies: seq<int>, i: nat): (n: nat)
    requires i <= RetryLimit < |replies|
    ensures i + 1 <= n <= RetryLimit + 1
    decreases RetryLimit - i
  {
    if replies[i] == 0 || i == RetryLimit then i + 1 else AttemptsFrom(replies, i + 1)
  }

  /** Number of transport calls one register write makes for the given replies. */
  function Attempts(replies: seq<int>): (n: nat)
    requires RetryLimit < |replies|
    ensures 1 <= n <= RetryLimit + 1
  {
    AttemptsFrom(replies, 0)
  }

  /** The write reports success exactly when one of the first RetryLimit calls succeeded. */
  predicate WriteSucceeds(replies: seq<int>)
    requires RetryLimit <= |replies|
  {
    exists k :: 0 <= k < RetryLimit && replies[k] == 0
  }

  /**
   * The loop stops at the first successful call among the first RetryLimit
   * ones; when all of those fail it makes exactly one more call.
   */
  lemma {:induction false} AttemptsStopAtFirstSuccess(replies: seq<int>, i: nat)
    requires i <= RetryLimit < |replies|
    ensures var n := AttemptsFrom(replies, i);
      (forall k :: i <= k < n - 1 ==> replies[k] != 0) &&
      (n <= RetryLimit ==> replies[n - 1] == 0)
    decreases RetryLimit - i
  {
    if replies[i] != 0 && i < RetryLimit {
      AttemptsStopAtFirstSuccess(replies, i + 1);
    }
  }

  /** The write succeeds iff it needs at most RetryLimit calls. */
  lemma SucceedsIffFewAttempts(replies: seq<int>)
    requires RetryLimit < |replies|
    ensures WriteSucceeds(replies) <==> Attempts(replies) <= RetryLimit
  {
    AttemptsStopAtFirstSuccess(replies, 0);
    var n := Attempts(replies);
    if n <= RetryLimit {
      assert replies[n - 1] == 0;
    }
    if WriteSucceeds(replies) {
      var k :| 0 <= k < RetryLimit && replies[k] == 0;
      assert k >= n - 1;
    }
  }

  /**
   * After RetryLimit failures the loop makes an eleventh call whose reply is
   * ignored: the write is reported as failed even when that call succeeded.
   */
  lemma EleventhCallIgnored(replies: seq<int>)
    requires RetryLimit < |replies|
    requires forall k :: 0 <= k < RetryLimit ==> replies[k] != 0
    ensures Attempts(replies) == RetryLimit + 1
    ensures !WriteSucceeds(replies)
  {
    AttemptsStopAtFirstSuccess(replies, 0);
  }

  /** Nine failures followed by a success: the tenth call succeeds and the write reports success. */
  lemma NineFailuresThenSuccess(replies: seq<int>)
    requires RetryLimit < |replies|
    requires forall k :: 0 <= k < 9 ==> replies[k] != 0
    requires replies[9] == 0
    ensures Attempts(replies) == 10
    ensures WriteSucceeds(replies)
  {
    AttemptsStopAtFirstSuccess(replies, 0);
    SucceedsIffFewAttempts(replies);
  }

  /**
   * Bounded write retry, as the three setters run it: call the transport,
   * and while it fails and fewer than RetryLimit retries were counted,
   * count one more and call again. Returns 0 on success and 1 on failure,
   * together with the transport calls issued.
   */
  method WriteWithRetry(reg: Register, value: byte, replies: seq<int>)
    returns (status: int, writes: seq<Write>)
    requires RetryLimit < |replies|
    ensures status == 0 || status == 1
    ensures status == 0 <==> WriteSucceeds(replies)
    ensures |writes| == Attempts(replies)
    ensures forall w :: w in writes ==> w == Write(reg, value)
  {
    var i := 0;
    writes := [Write(reg, value)];
    var failed := replies[i] != 0;
    while failed && i < RetryLimit
      invariant 0 <= i <= RetryLimit
      invariant |writes| == i + 1
      invariant forall w :: w in writes ==> w == Write(reg, value)
      invariant failed <==> replies[i] != 0
      invariant AttemptsFrom(replies, 0) == AttemptsFrom(replies, i)
    {
      i := i + 1;
      writes := writes + [Write(reg, value)];
      failed := replies[i] != 0;
    }
    if i == RetryLimit {
      status := 1;
    } else {
      status := 0;
    }
    SucceedsIffFewAttempts(replies);
  }

  /** hmc5983_set_cra: write configuration register A with retry. */
  method SetCra(craSetting: byte, replies: seq<int>) returns (status: int, writes: seq<Write>)
    requires RetryLimit < |replies|
    ensures status == 0 <==> WriteSucceeds(replies)
    ensures status == 1 <==> !WriteSucceeds(replies)
    ensures |writes| == Attempts(replies)
    ensures forall w :: w in writes ==> w == Write(ConfRegA, craSetting)
  {
    status, writes := WriteWithRetry(ConfRegA, craSetting, replies);
  }

  /** hmc5983_set_mode: write the mode register with retry. */
  method SetMode(deviceMode: byte, replies: seq<int>) returns (status: int, writes: seq<Write>)
    requires RetryLimit < |replies|
    ensures status == 0 <==> WriteSucceeds(replies)
    ensures status == 1 <==> !WriteSucceeds(replies)
    ensures |writes| == Attempts(replies)
    ensures forall w :: w in writes ==> w == Write(ModeReg, deviceMode)
  {
    status, writes := WriteWithRetry(ModeReg, deviceMode, replies);
  }

  /** hmc5983_set_crb: write configuration register B (the gain) with retry. */
  method SetCrb(gainSetting: byte, replies: seq<int>) returns (status: int, writes: seq<Write>)
    requires RetryLimit < |replies|
    ensures status == 0 <==> WriteSucceeds(replies)
    ensures status == 1 <==> !WriteSucceeds(replies)
    ensures |writes| == Attempts(replies)
    ensures forall w :: w in writes ==> w == Write(ConfRegB, gainSetting)
  {
    status, writes := WriteWithRetry(ConfRegB, gainSetting, replies);
  }
}
