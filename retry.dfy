/** The retry skeleton shared by `RunpodStarter::post_with_retry` and
    `RunpodClient::execute`: count the attempt, send, stop on success, and
    sleep then try again while the attempt number is at most `retry_max` and
    the failure is transient, doubling the sleep up to a cap.

    The network is an oracle: `net(i)` is the reply to the `i`-th request,
    counting from 0. Sleeps are recorded instead of slept. A `Duration` is a
    whole number of nanoseconds, up to Rust's `Duration::MAX`. */
module Retry {
  import opened Ints

  const NANOS_PER_MILLI := 1_000_000
  const NANOS_PER_SEC := 1_000_000_000
  /** `Duration::MAX`: `u64::MAX` seconds and 999 999 999 nanoseconds. */
  const DURATION_MAX := U64_MAX * NANOS_PER_SEC + 999_999_999

  type Duration = n: int | 0 <= n <= DURATION_MAX

  function FromMillis(ms: U64): (d: Duration)
    ensures d == ms * NANOS_PER_MILLI
  {
    ms * NANOS_PER_MILLI
  }

  /** `Duration::saturating_mul(2)`. */
  function SaturatingDouble(d: Duration): (r: Duration)
    ensures 2 * d <= DURATION_MAX ==> r == 2 * d
    ensures 2 * d > DURATION_MAX ==> r == DURATION_MAX
  {
    if 2 * d <= DURATION_MAX then 2 * d else DURATION_MAX
  }

  /** `next_backoff`: twice the current delay, saturating, but never more
      than `cap`. */
  function NextBackoff(current: Duration, cap: Duration): (r: Duration)
    ensures r <= cap
    ensures r <= 2 * current
    ensures r == cap || r == 2 * current
  {
    Min(SaturatingDouble(current), cap)
  }

  /** The delay before the `k`-th retry, counting from 0. */
  function Delay(initial: Duration, cap: Duration, k: nat): Duration {
    if k == 0 then initial else NextBackoff(Delay(initial, cap, k - 1), cap)
  }

  /** The sleeps taken before `n` retries, in order. */
  function Schedule(initial: Duration, cap: Duration, n: nat): (s: seq<Duration>)
    ensures |s| == n
    ensures forall k :: 0 <= k < n ==> s[k] == Delay(initial, cap, k)
  {
    if n == 0 then [] else Schedule(initial, cap, n - 1) + [Delay(initial, cap, n - 1)]
  }

  function Pow2(k: nat): nat {
    if k == 0 then 1 else 2 * Pow2(k - 1)
  }

  /** One step of the loop on a delay already cut at the cap. */
  lemma NextOfCapped(x: nat, cap: Duration)
    requires cap <= FromMillis(U64_MAX)
    ensures NextBackoff(Min(x, cap), cap) == Min(2 * x, cap)
  {
  }

  lemma DoublePow2(b: nat, k: nat)
    requires k >= 1
    ensures b * Pow2(k) == 2 * (b * Pow2(k - 1))
  {
  }

  /** In closed form, the `k`-th delay is the initial one doubled `k` times,
      cut at the cap from the first retry on. Saturation never plays a part:
      a delay built from milliseconds is far below `Duration::MAX`. */
  lemma {:induction false} DelayClosedForm(initial: Duration, cap: Duration, k: nat)
    requires initial <= FromMillis(U64_MAX) && cap <= FromMillis(U64_MAX)
    ensures k >= 1 ==> Delay(initial, cap, k) == Min(initial * Pow2(k), cap)
  {
    if k == 1 {
      assert Delay(initial, cap, 1) == NextBackoff(initial, cap);
    } else if k > 1 {
      DelayClosedForm(initial, cap, k - 1);
      var x := initial * Pow2(k - 1);
      assert Delay(initial, cap, k - 1) == Min(x, cap);
      NextOfCapped(x, cap);
      DoublePow2(initial, k);
    }
  }

  /** From the first retry on, no delay exceeds the cap. */
  lemma DelayBounded(initial: Duration, cap: Duration, k: nat)
    requires k >= 1
    ensures Delay(initial, cap, k) <= cap
  {
  }

  // ---------------------------------------------------------------------
  // Statuses and replies
  // ---------------------------------------------------------------------

  /** `StatusCode::is_success`: the 2xx range. */
  predicate IsSuccess(status: U16) {
    200 <= status <= 299
  }

  /** `is_retryable_status`: request timeout, conflict, too early, too many
      requests, and the server errors 500, 502, 503 and 504. */
  predicate IsRetryableStatus(status: U16) {
    status in {408, 409, 425, 429, 500, 502, 503, 504}
  }

  /** Only client and server errors are retried; a success never is. */
  lemma RetryableStatusIsError(status: U16)
    requires IsRetryableStatus(status)
    ensures 400 <= status <= 599 && !IsSuccess(status)
  {
  }

  /** Which statuses in the error ranges are not retried. */
  lemma NotRetryableExamples()
    ensures !IsRetryableStatus(400) && !IsRetryableStatus(401) && !IsRetryableStatus(404)
    ensures !IsRetryableStatus(501) && !IsRetryableStatus(505)
  {
  }

  /** The outcome of one request: a response with its status and whatever
      the caller reads from it, or a transport error, of which timeouts,
      connection and request errors count as transient. */
  datatype Reply<R> = Response(status: U16, payload: R) | TransportError(transient: bool)

  /** The decision at the end of attempt number `attempt` (from 1): go round
      again, or stop and report this reply. */
  predicate ShouldRetry<R>(reply: Reply<R>, attempt: nat, retryMax: U32) {
    match reply
    case Response(status, _) => !IsSuccess(status) && attempt <= retryMax && IsRetryableStatus(status)
    case TransportError(transient) => attempt <= retryMax && transient
  }

  /** The number of attempts made from attempt `k` on. */
  function AttemptsFrom<R>(retryMax: U32, net: nat -> Reply<R>, k: nat): (n: nat)
    requires 1 <= k <= retryMax + 1
    ensures k <= n <= retryMax + 1
    decreases retryMax + 1 - k
  {
    if ShouldRetry(net(k - 1), k, retryMax) then AttemptsFrom(retryMax, net, k + 1) else k
  }

  /** The number of attempts the loop makes against `net`. */
  function Attempts<R>(retryMax: U32, net: nat -> Reply<R>): nat {
    AttemptsFrom(retryMax, net, 1)
  }

  lemma {:induction false} AttemptsFromStops<R>(retryMax: U32, net: nat -> Reply<R>, k: nat)
    requires 1 <= k <= retryMax + 1
    ensures var n := AttemptsFrom(retryMax, net, k);
            !ShouldRetry(net(n - 1), n, retryMax)
            && forall i :: k - 1 <= i < n - 1 ==> ShouldRetry(net(i), i + 1, retryMax)
    decreases retryMax + 1 - k
  {
    if ShouldRetry(net(k - 1), k, retryMax) {
      AttemptsFromStops(retryMax, net, k + 1);
    }
  }

  /** The attempt count is the first attempt whose reply is not retried, and
      it never exceeds `retry_max + 1`. */
  lemma AttemptsCharacterised<R>(retryMax: U32, net: nat -> Reply<R>)
    ensures var n := Attempts(retryMax, net);
            1 <= n <= retryMax + 1
            && !ShouldRetry(net(n - 1), n, retryMax)
            && forall i :: 0 <= i < n - 1 ==> ShouldRetry(net(i), i + 1, retryMax)
  {
    AttemptsFromStops(retryMax, net, 1);
  }

  /** The attempt count is the first attempt whose reply is not retried:
      if the replies before `i` are all retried and reply `i` is not, the
      loop makes exactly `i + 1` attempts. */
  lemma {:induction false} AttemptsIsFirstStop<R>(retryMax: U32, net: nat -> Reply<R>, i: nat)
    requires forall j :: 0 <= j < i ==> ShouldRetry(net(j), j + 1, retryMax)
    requires !ShouldRetry(net(i), i + 1, retryMax)
    ensures Attempts(retryMax, net) == i + 1
  {
    AttemptsCharacterised(retryMax, net);
  }

  /** A success ends the loop: it is never retried past. */
  lemma StopsAtFirstSuccess<R>(retryMax: U32, net: nat -> Reply<R>, i: nat)
    requires net(i).Response? && IsSuccess(net(i).status)
    ensures Attempts(retryMax, net) <= i + 1
  {
    AttemptsCharacterised(retryMax, net);
  }

  /** A reply that is not transient ends the loop at once, with no sleep. */
  lemma PermanentFailureNoRetry<R>(retryMax: U32, net: nat -> Reply<R>)
    requires match net(0)
             case Response(status, _) => !IsRetryableStatus(status)
             case TransportError(transient) => !transient
    ensures Attempts(retryMax, net) == 1
  {
  }

  /** With transient failures throughout, the loop gives up after exactly
      `retry_max + 1` attempts. */
  lemma {:induction false} PersistentFailureExhausts<R>(retryMax: U32, net: nat -> Reply<R>)
    requires forall i :: net(i) == TransportError(true)
    ensures Attempts(retryMax, net) == retryMax + 1
  {
    AttemptsCharacterised(retryMax, net);
    var n := Attempts(retryMax, net);
    assert !ShouldRetry(net(n - 1), n, retryMax);
  }

  /** The loop: it returns the number of attempts, the reply that ended it
      and the sleeps it took between attempts. */
  method RetryLoop<R>(retryMax: U32, initial: Duration, cap: Duration, net: nat -> Reply<R>)
    returns (attempts: nat, last: Reply<R>, sleeps: seq<Duration>)
    ensures attempts == Attempts(retryMax, net)
    ensures 1 <= attempts <= retryMax + 1
    ensures last == net(attempts - 1) && !ShouldRetry(last, attempts, retryMax)
    ensures sleeps == Schedule(initial, cap, attempts - 1)
  {
    var attempt: nat := 0;
    var backoff := initial;
    sleeps := [];
    while true
      invariant attempt <= retryMax
      invariant AttemptsFrom(retryMax, net, attempt + 1) == Attempts(retryMax, net)
      invariant backoff == Delay(initial, cap, attempt)
      invariant sleeps == Schedule(initial, cap, attempt)
      decreases retryMax - attempt
    {
      attempt := attempt + 1;
      var reply := net(attempt - 1);
      if ShouldRetry(reply, attempt, retryMax) {
        sleeps := sleeps + [backoff];
        backoff := NextBackoff(backoff, cap);
        continue;
      }
      return attempt, reply, sleeps;
    }
  }

  // ---------------------------------------------------------------------
  // The attempt counter as written
  // ---------------------------------------------------------------------

  /** The source counts attempts in a `u32` with `saturating_add(1)`: the
      value the counter holds at the `k`-th attempt. */
  function SaturatingAttempt(k: nat): (a: U32)
    ensures a == Min(k, U32_MAX)
  {
    if k == 0 then 0 else SaturatingIncU32(SaturatingAttempt(k - 1))
  }

  /** The loop guard `attempt <= retry_max` at attempt `k` as written. */
  predicate GuardAsWritten(retryMax: U32, k: nat) {
    SaturatingAttempt(k) <= retryMax
  }

  /** With `retry_max = u32::MAX` the saturated counter never exceeds the
      bound: the guard still admits a retry at attempt 2^32 + 1 and at every
      later one, so a server that keeps answering 503 is retried forever. */
  lemma AsWrittenGuardNeverCloses(k: nat)
    ensures GuardAsWritten(U32_MAX, k)
    ensures GuardAsWritten(U32_MAX, U32_MAX + 1)
  {
  }

  /** For every other `retry_max` the saturating counter equals the exact
      count at each attempt the loop can reach, so the model's `nat` counter
      behaves as the source does. */
  lemma ExactCounterAgrees(retryMax: U32, k: nat)
    requires retryMax < U32_MAX && 1 <= k <= retryMax + 1
    ensures SaturatingAttempt(k) == k
    ensures GuardAsWritten(retryMax, k) <==> k <= retryMax
  {
  }
}
