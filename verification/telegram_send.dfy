/**
  Delivery of the chart: the bounded retry loop around the messaging
  service's "send photo" call, and the report job that renders the chart,
  hands it to that loop and releases the image buffer afterwards.

  The HTTP exchange of one attempt is reduced to its outcome: `responses[i]`
  is true when attempt `i` got a response whose `ok` field is set, and false
  when it raised, got an error status, or got `ok` unset. An attempt with no
  entry in `responses` counts as failed. Sleeping is recorded, not performed.
 */
module TelegramSend {

  import opened Wrappers

  const MAX_SEND_ATTEMPTS := 3

  function Pow2(n: nat): nat {
    if n == 0 then 1 else 2 * Pow2(n - 1)
  }

  /** The waits after the first `n` failed attempts: 1, 2, 4, ... seconds. */
  function Backoff(n: nat): seq<nat> {
    if n == 0 then [] else Backoff(n - 1) + [Pow2(n - 1)]
  }

  predicate AttemptOk(responses: seq<bool>, i: nat) {
    i < |responses| && responses[i]
  }

  /** Some attempt within the budget succeeds. */
  predicate AnyAttemptOk(responses: seq<bool>) {
    exists i :: 0 <= i < MAX_SEND_ATTEMPTS && AttemptOk(responses, i)
  }

  /** What one call of the send operation did: its verdict, how many
      attempts it made and the back-off waits it slept, in order. */
  datatype Delivery = Delivery(ok: bool, attempts: nat, delays: seq<nat>)

  /**
    What one call of the retry loop does with the attempt outcomes
    `responses`: one to three attempts, stopping at the first that gets
    `ok`; the verdict is whether one did; every failed attempt, the last one
    included, is followed by a wait of 2^attempt seconds.
   */
  predicate SendOutcome(responses: seq<bool>, d: Delivery) {
    && 1 <= d.attempts <= MAX_SEND_ATTEMPTS
    && (d.ok <==> AnyAttemptOk(responses))
    && (d.ok ==> AttemptOk(responses, d.attempts - 1))
    && (forall j :: 0 <= j < d.attempts - 1 ==> !AttemptOk(responses, j))
    && (!d.ok ==> d.attempts == MAX_SEND_ATTEMPTS && !AttemptOk(responses, d.attempts - 1))
    && d.delays == Backoff(if d.ok then d.attempts - 1 else d.attempts)
  }

  /** The outcomes of the attempts fix everything a send call does. */
  lemma SendOutcomeUnique(responses: seq<bool>, d1: Delivery, d2: Delivery)
    requires SendOutcome(responses, d1) && SendOutcome(responses, d2)
    ensures d1 == d2
  {
  }

  /** The waits are 1, 2, 4, ... seconds, in order. */
  lemma {:induction false} BackoffDoubles(n: nat)
    ensures |Backoff(n)| == n
    ensures forall i :: 0 <= i < n ==> Backoff(n)[i] == Pow2(i)
  {
    if n > 0 {
      BackoffDoubles(n - 1);
    }
  }

  /** The retry loop. It posts the still-open chart buffer `photo`. */
  method SendPhoto(photo: PhotoBuffer, responses: seq<bool>) returns (d: Delivery)
    requires !photo.closed
    ensures SendOutcome(responses, d)
    ensures forall i :: 0 <= i < |d.delays| ==> d.delays[i] == Pow2(i)
    ensures !d.ok ==> d.delays == [1, 2, 4]
  {
    var delays: seq<nat> := [];
    for attempt := 0 to MAX_SEND_ATTEMPTS
      invariant forall j :: 0 <= j < attempt ==> !AttemptOk(responses, j)
      invariant delays == Backoff(attempt)
    {
      if AttemptOk(responses, attempt) {
        BackoffDoubles(attempt);
        return Delivery(true, attempt + 1, delays);
      }
      delays := delays + [Pow2(attempt)];
    }
    assert delays == [1, 2, 4];
    d := Delivery(false, MAX_SEND_ATTEMPTS, delays);
    BackoffDoubles(MAX_SEND_ATTEMPTS);
  }

  /** The in-memory PNG buffer the chart is rendered into. */
  class PhotoBuffer {
    var closed: bool

    constructor ()
      ensures !closed
    {
      closed := false;
    }

    method Close()
      modifies this
      ensures closed
    {
      closed := true;
    }
  }

  /**
    Chart rendering, reduced to whether the market data came back:
    with data it yields a fresh, open buffer, without it nothing.
   */
  method PlotVixSp500(dataAvailable: bool) returns (buf: PhotoBuffer?)
    ensures buf != null <==> dataAvailable
    ensures buf != null ==> fresh(buf) && !buf.closed
  {
    if dataAvailable {
      buf := new PhotoBuffer();
    } else {
      buf := null;
    }
  }

  /**
    The report job: no chart means failure with no send call; otherwise
    exactly one call of the send operation, the buffer is closed whatever
    the outcome, and the job's verdict is the send's verdict.
   */
  method RunAndSendPlot(dataAvailable: bool, responses: seq<bool>)
    returns (success: bool, delivery: Option<Delivery>, buf: PhotoBuffer?)
    ensures buf != null <==> dataAvailable
    ensures buf == null ==> !success && delivery == None
    ensures buf != null ==> fresh(buf) && buf.closed && delivery.Some?
    ensures delivery.Some? ==> success == delivery.value.ok && SendOutcome(responses, delivery.value)
    ensures success <==> dataAvailable && AnyAttemptOk(responses)
  {
    buf := PlotVixSp500(dataAvailable);
    if buf == null {
      return false, None, buf;
    }
    var d := SendPhoto(buf, responses);
    buf.Close();
    success, delivery := d.ok, Some(d);
  }
}
