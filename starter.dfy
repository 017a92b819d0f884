/** `src/runpod_starter.rs`: starting and stopping one pod through the REST
    API, with the shared retry loop and a 5 second backoff cap. */
module Starter {
  import opened Wrappers
  import opened Ints
  import Text
  import opened Retry

  /** The settings `post_with_retry` and the URL builders read; the API key
      only goes into the authorisation header and is left out. */
  datatype StarterConfig = StarterConfig(restUrl: string, podId: string, retryMax: U32, retryBackoffMs: U64)

  const BACKOFF_CAP: Duration := 5 * NANOS_PER_SEC

  /** The starter's `next_backoff`: double, saturating, capped at 5 s. */
  function NextBackoff(current: Duration): (r: Duration)
    ensures r <= BACKOFF_CAP
  {
    Retry.NextBackoff(current, BACKOFF_CAP)
  }

  /** For every delay the loop can hold (at most `u64::MAX` milliseconds),
      the next one is exactly the smaller of twice the delay and 5 s. */
  lemma NextBackoffIsCappedDouble(current: Duration)
    requires current <= FromMillis(U64_MAX)
    ensures NextBackoff(current) == Min(2 * current, BACKOFF_CAP)
  {
  }

  // ---------------------------------------------------------------------
  // URLs
  // ---------------------------------------------------------------------

  /** `base` is `rest` without its trailing slashes. */
  predicate IsRestBase(rest: string, base: string) {
    |base| <= |rest| && base == rest[..|base|]
    && (forall i :: |base| <= i < |rest| ==> rest[i] == '/')
    && (base != [] ==> base[|base| - 1] != '/')
  }

  /** `rest_url` with every trailing `/` removed, then `/pods/<id>/` and
      `action`. */
  function PodActionUrl(cfg: StarterConfig, action: string): (u: string)
    ensures var suffix := "/pods/" + cfg.podId + "/" + action;
            |suffix| <= |u| && u[|u| - |suffix|..] == suffix
            && IsRestBase(cfg.restUrl, u[..|u| - |suffix|])
  {
    var base := Text.TrimEndMatches(cfg.restUrl, '/');
    var suffix := "/pods/" + cfg.podId + "/" + action;
    assert (base + suffix)[..|base|] == base;
    base + suffix
  }

  /** `start_url`. */
  function StartUrl(cfg: StarterConfig): (u: string)
    ensures var suffix := "/pods/" + cfg.podId + "/start";
            |suffix| <= |u| && u[|u| - |suffix|..] == suffix
            && IsRestBase(cfg.restUrl, u[..|u| - |suffix|])
  {
    PodActionUrl(cfg, "start")
  }

  /** `stop_url`. */
  function StopUrl(cfg: StarterConfig): (u: string)
    ensures var suffix := "/pods/" + cfg.podId + "/stop";
            |suffix| <= |u| && u[|u| - |suffix|..] == suffix
            && IsRestBase(cfg.restUrl, u[..|u| - |suffix|])
  {
    PodActionUrl(cfg, "stop")
  }

  /** A trailing slash on the REST URL does not change either URL. */
  lemma TrailingSlashIgnored(cfg: StarterConfig)
    ensures StartUrl(cfg.(restUrl := cfg.restUrl + "/")) == StartUrl(cfg)
    ensures StopUrl(cfg.(restUrl := cfg.restUrl + "/")) == StopUrl(cfg)
  {
    Text.TrimEndMatchesAppend(cfg.restUrl, '/');
  }

  /** The base of a URL is determined: only one string is `rest` without
      its trailing slashes. */
  lemma RestBaseUnique(rest: string, b1: string, b2: string)
    requires IsRestBase(rest, b1) && IsRestBase(rest, b2)
    ensures b1 == b2
  {
  }

  lemma StartUrlExample()
    ensures StartUrl(StarterConfig("https://rest.runpod.io/v1//", "abc", 3, 250))
            == "https://rest.runpod.io/v1/pods/abc/start"
  {
    var s := "https://rest.runpod.io/v1//";
    assert s[..|s| - 1] == "https://rest.runpod.io/v1/";
    var t := "https://rest.runpod.io/v1/";
    assert t[..|t| - 1] == "https://rest.runpod.io/v1";
    assert Text.TrimEndMatches(s, '/') == "https://rest.runpod.io/v1";
  }

  // ---------------------------------------------------------------------
  // post_with_retry
  // ---------------------------------------------------------------------

  /** The errors `post_with_retry` reports; the configuration errors of
      `from_env` are left out. */
  datatype RunpodError = Http | Api(status: U16, body: string)

  /** How the reply that ends the loop is reported: the body of a success,
      the status and body of any other response, or the transport error. */
  function PostOutcome(reply: Reply<string>): (r: Result<string, RunpodError>)
    ensures r.Ok? <==> reply.Response? && IsSuccess(reply.status)
    ensures r.Ok? ==> r.value == reply.payload
    ensures reply.Response? && !IsSuccess(reply.status) ==> r == Err(Api(reply.status, reply.payload))
    ensures reply.TransportError? ==> r == Err(Http)
  {
    match reply
    case Response(status, body) => if IsSuccess(status) then Ok(body) else Err(Api(status, body))
    case TransportError(_) => Err(Http)
  }

  /** `post_with_retry` against the replies `net` to a POST of `url`: it
      returns the outcome and the URLs posted and sleeps taken, in order. */
  method PostWithRetry(cfg: StarterConfig, url: string, net: nat -> Reply<string>)
    returns (result: Result<string, RunpodError>, posted: seq<string>, sleeps: seq<Duration>)
    ensures var n := Attempts(cfg.retryMax, net);
            1 <= |posted| == n <= cfg.retryMax + 1
            && (forall i :: 0 <= i < |posted| ==> posted[i] == url)
            && result == PostOutcome(net(n - 1))
            && sleeps == Schedule(FromMillis(cfg.retryBackoffMs), BACKOFF_CAP, n - 1)
  {
    var attempts, last;
    attempts, last, sleeps := RetryLoop(cfg.retryMax, FromMillis(cfg.retryBackoffMs), BACKOFF_CAP, net);
    posted := seq(attempts, _ => url);
    result := PostOutcome(last);
  }

  /** `start_or_resume`: `post_with_retry` on the start URL. */
  method StartOrResume(cfg: StarterConfig, net: nat -> Reply<string>)
    returns (result: Result<string, RunpodError>, posted: seq<string>, sleeps: seq<Duration>)
    ensures var n := Attempts(cfg.retryMax, net);
            1 <= |posted| == n <= cfg.retryMax + 1
            && (forall i :: 0 <= i < |posted| ==> posted[i] == StartUrl(cfg))
            && result == PostOutcome(net(n - 1))
            && sleeps == Schedule(FromMillis(cfg.retryBackoffMs), BACKOFF_CAP, n - 1)
  {
    result, posted, sleeps := PostWithRetry(cfg, StartUrl(cfg), net);
  }

  /** `stop`: `post_with_retry` on the stop URL. */
  method Stop(cfg: StarterConfig, net: nat -> Reply<string>)
    returns (result: Result<string, RunpodError>, posted: seq<string>, sleeps: seq<Duration>)
    ensures var n := Attempts(cfg.retryMax, net);
            1 <= |posted| == n <= cfg.retryMax + 1
            && (forall i :: 0 <= i < |posted| ==> posted[i] == StopUrl(cfg))
            && result == PostOutcome(net(n - 1))
            && sleeps == Schedule(FromMillis(cfg.retryBackoffMs), BACKOFF_CAP, n - 1)
  {
    result, posted, sleeps := PostWithRetry(cfg, StopUrl(cfg), net);
  }

  /** When the first `i` replies are transient failures still within the
      retry budget and reply `i` succeeds, its body is the result. */
  lemma SuccessAfterTransientFailures(cfg: StarterConfig, net: nat -> Reply<string>, i: nat)
    requires forall j :: 0 <= j < i ==> ShouldRetry(net(j), j + 1, cfg.retryMax)
    requires net(i).Response? && IsSuccess(net(i).status)
    ensures Attempts(cfg.retryMax, net) == i + 1
    ensures PostOutcome(net(Attempts(cfg.retryMax, net) - 1)) == Ok(net(i).payload)
  {
    AttemptsIsFirstStop(cfg.retryMax, net, i);
  }

  /** A non-retryable status on the first attempt is reported at once, with
      its status and body and without sleeping. */
  lemma PermanentStatusReportedAtOnce(cfg: StarterConfig, net: nat -> Reply<string>)
    requires net(0).Response? && !IsSuccess(net(0).status) && !IsRetryableStatus(net(0).status)
    ensures Attempts(cfg.retryMax, net) == 1
    ensures PostOutcome(net(0)) == Err(Api(net(0).status, net(0).payload))
    ensures Schedule(FromMillis(cfg.retryBackoffMs), BACKOFF_CAP, Attempts(cfg.retryMax, net) - 1) == []
  {
    PermanentFailureNoRetry(cfg.retryMax, net);
  }
}
