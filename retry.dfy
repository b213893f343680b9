/**
 * `fetchWithRetry` (src/utils/index.ts): up to `maxRetries + 1` calls, a wait of
 * `retryDelay * backoffMultiplier^k` after the k-th failed call when the failure
 * is retryable, and the last failure surfaced when the attempts run out.
 * What each call to `fetch` produced is an input (`Attempt`); the waits are
 * returned instead of slept.
 */
module Retry {
  import opened Wrappers
  import opened Errors

  datatype RetryConfig = RetryConfig(
    maxRetries: nat,
    retryDelay: nat,
    backoffMultiplier: nat,
    retryableErrors: seq<string>)

  /** The client's default policy (src/core/SSOClient.ts). */
  const DefaultRetry := RetryConfig(3, 1000, 2, ["500", "502", "503", "504", "429"])

  /** One call to `fetch`: a response, or a thrown value (a timeout is an `AbortError`). */
  datatype Attempt = Response(status: nat, statusText: string) | Threw(thrown: Thrown)

  /** What `fetchWithRetry` settles with: the response it returns or the error it throws. */
  datatype Outcome = Returned(status: nat, statusText: string) | Raised(thrown: Thrown)

  /** The outcome, the waits slept in order, and the number of calls made. */
  datatype Run = Run(outcome: Outcome, delays: seq<nat>, attempts: nat)

  function Pow(b: nat, e: nat): nat
  {
    if e == 0 then 1 else b * Pow(b, e - 1)
  }

  /** `n.toString()` for a non-negative integer. */
  function DecimalString(n: nat): (s: string)
    ensures |s| > 0
  {
    var digit := ['0' + (n % 10) as char];
    if n < 10 then digit else DecimalString(n / 10) + digit
  }

  /** `response.ok`. */
  predicate IsOk(status: nat)
  {
    200 <= status <= 299
  }

  /** A response that is turned into a thrown `HTTP_ERROR`. */
  predicate IsRetryableResponse(cfg: RetryConfig, status: nat)
  {
    !IsOk(status) && DecimalString(status) in cfg.retryableErrors
  }

  /** The error thrown for such a response. */
  function HttpError(status: nat, statusText: string): SSOError
  {
    SSOError("HTTP " + DecimalString(status) + ": " + statusText, Text("HTTP_ERROR"), Some(status), true)
  }

  /** The value the catch block sees for an attempt that did not return. */
  function FailureOf(cfg: RetryConfig, a: Attempt): (t: Thrown)
    requires a.Threw? || IsRetryableResponse(cfg, a.status)
  {
    if a.Threw? then a.thrown else Coded(HttpError(a.status, a.statusText))
  }

  /** `error.name === 'AbortError'`: only `Error` objects carry a name. */
  predicate NamedAbort(t: Thrown)
  {
    (t.ErrorObj? || t.DomException?) && t.name == "AbortError"
  }

  /**
   * The retry test of the catch block: an abort, or an `Error` whose `code` is
   * listed; `includes` compares strictly, so a numeric code is never listed.
   */
  predicate ShouldRetry(cfg: RetryConfig, t: Thrown)
  {
    NamedAbort(t) || (t.Coded? && t.err.code.Text? && t.err.code.text in cfg.retryableErrors)
  }

  /** Attempt `i` failed and the catch block decided to retry. */
  predicate RetriedAt(cfg: RetryConfig, attempt: nat -> Attempt, i: nat)
  {
    var a := attempt(i);
    (a.Threw? || IsRetryableResponse(cfg, a.status)) && ShouldRetry(cfg, FailureOf(cfg, a))
  }

  function Delay(cfg: RetryConfig, k: nat): nat
  {
    cfg.retryDelay * Pow(cfg.backoffMultiplier, k)
  }

  /** The loop from attempt `k` on, as the specification of the method below. */
  function RunFrom(cfg: RetryConfig, attempt: nat -> Attempt, k: nat): Run
    requires k <= cfg.maxRetries
    decreases cfg.maxRetries - k
  {
    var a := attempt(k);
    if a.Response? && !IsRetryableResponse(cfg, a.status) then
      Run(Returned(a.status, a.statusText), [], 1)
    else
      var t := FailureOf(cfg, a);
      if k == cfg.maxRetries || !ShouldRetry(cfg, t) then
        Run(Raised(t), [], 1)
      else
        var rest := RunFrom(cfg, attempt, k + 1);
        Run(rest.outcome, [Delay(cfg, k)] + rest.delays, rest.attempts + 1)
  }

  /** A run preceded by `delays` already slept. */
  function After(delays: seq<nat>, r: Run): Run
  {
    Run(r.outcome, delays + r.delays, |delays| + r.attempts)
  }

  /** A retried call moves its wait from the rest of the run to the waits already slept. */
  lemma RetryStep(cfg: RetryConfig, attempt: nat -> Attempt, k: nat, delays: seq<nat>)
    requires k < cfg.maxRetries && RetriedAt(cfg, attempt, k)
    ensures After(delays, RunFrom(cfg, attempt, k)) == After(delays + [Delay(cfg, k)], RunFrom(cfg, attempt, k + 1))
  {
    var rest := RunFrom(cfg, attempt, k + 1);
    assert RunFrom(cfg, attempt, k) == Run(rest.outcome, [Delay(cfg, k)] + rest.delays, rest.attempts + 1);
    assert delays + ([Delay(cfg, k)] + rest.delays) == (delays + [Delay(cfg, k)]) + rest.delays;
  }

  /**
   * `fetchWithRetry(url, options, cfg)` where `attempt(k)` is what the k-th call to
   * `fetch` produced.
   */
  method FetchWithRetry(cfg: RetryConfig, attempt: nat -> Attempt) returns (run: Run)
    ensures run == RunFrom(cfg, attempt, 0)
  {
    var delays: seq<nat> := [];
    var k: nat := 0;
    while true
      invariant k <= cfg.maxRetries
      invariant RunFrom(cfg, attempt, 0) == After(delays, RunFrom(cfg, attempt, k))
      invariant |delays| == k
      decreases cfg.maxRetries - k
    {
      var a := attempt(k);
      var lastError: Thrown;
      if a.Response? {
        if !IsRetryableResponse(cfg, a.status) {
          return Run(Returned(a.status, a.statusText), delays, k + 1);
        }
        lastError := Coded(HttpError(a.status, a.statusText));
      } else {
        lastError := a.thrown;
      }
      if k == cfg.maxRetries {
        return Run(Raised(lastError), delays, k + 1);
      }
      if ShouldRetry(cfg, lastError) {
        RetryStep(cfg, attempt, k, delays);
        delays := delays + [Delay(cfg, k)];
        k := k + 1;
      } else {
        return Run(Raised(lastError), delays, k + 1);
      }
    }
  }

  /**
   * Everything a run promises: at most `maxRetries + 1` calls; one wait per call
   * but the last, the j-th wait being `retryDelay * backoffMultiplier^j`; every
   * call but the last failed retryably; and the last call is what the run settles
   * with: an unlisted response returned unchanged, or a failure that was either
   * not retryable or met on the final allowed call.
   */
  lemma {:induction false} RunFromFacts(cfg: RetryConfig, attempt: nat -> Attempt, k: nat)
    requires k <= cfg.maxRetries
    ensures var r := RunFrom(cfg, attempt, k);
      && 1 <= r.attempts <= cfg.maxRetries + 1 - k
      && |r.delays| == r.attempts - 1
      && (forall j | 0 <= j < |r.delays| :: r.delays[j] == Delay(cfg, k + j))
      && (forall i | k <= i < k + r.attempts - 1 :: RetriedAt(cfg, attempt, i))
      && var last := attempt(k + r.attempts - 1);
      && (r.outcome.Returned? <==> last.Response? && !IsRetryableResponse(cfg, last.status))
      && (r.outcome.Returned? ==> r.outcome == Returned(last.status, last.statusText))
      && (r.outcome.Raised? ==>
            r.outcome.thrown == FailureOf(cfg, last)
            && (k + r.attempts - 1 == cfg.maxRetries || !ShouldRetry(cfg, r.outcome.thrown)))
    decreases cfg.maxRetries - k
  {
    var a := attempt(k);
    if a.Response? && !IsRetryableResponse(cfg, a.status) {
    } else if k == cfg.maxRetries || !ShouldRetry(cfg, FailureOf(cfg, a)) {
    } else {
      RunFromFacts(cfg, attempt, k + 1);
      var rest := RunFrom(cfg, attempt, k + 1);
      var r := RunFrom(cfg, attempt, k);
      assert r.delays == [Delay(cfg, k)] + rest.delays;
      assert RetriedAt(cfg, attempt, k);
      assert k + r.attempts - 1 == (k + 1) + rest.attempts - 1;
    }
  }

  /** `fetchWithRetry` as a whole: at most `maxRetries + 1` calls and exact backoff waits. */
  lemma AttemptsBounded(cfg: RetryConfig, attempt: nat -> Attempt)
    ensures var r := RunFrom(cfg, attempt, 0);
      && r.attempts <= cfg.maxRetries + 1
      && |r.delays| == r.attempts - 1
      && forall j | 0 <= j < |r.delays| :: r.delays[j] == cfg.retryDelay * Pow(cfg.backoffMultiplier, j)
  {
    RunFromFacts(cfg, attempt, 0);
  }

  /**
   * A first response whose status is not listed (or is ok) is returned as it is,
   * after one call, even when it is an error status.
   */
  lemma UnlistedResponseReturned(cfg: RetryConfig, attempt: nat -> Attempt)
    requires attempt(0).Response? && !IsRetryableResponse(cfg, attempt(0).status)
    ensures RunFrom(cfg, attempt, 0) == Run(Returned(attempt(0).status, attempt(0).statusText), [], 1)
  {
  }

  /** A failure that is not retryable propagates at once, without a wait. */
  lemma NonRetryablePropagates(cfg: RetryConfig, attempt: nat -> Attempt)
    requires attempt(0).Threw? && !ShouldRetry(cfg, attempt(0).thrown)
    ensures RunFrom(cfg, attempt, 0) == Run(Raised(attempt(0).thrown), [], 1)
  {
  }

  /** A call that keeps timing out is made `maxRetries + 1` times and the abort surfaces. */
  lemma {:induction false} PersistentTimeout(cfg: RetryConfig, attempt: nat -> Attempt, abort: Thrown, k: nat)
    requires NamedAbort(abort)
    requires forall j :: attempt(j) == Threw(abort)
    requires k <= cfg.maxRetries
    ensures RunFrom(cfg, attempt, k).attempts == cfg.maxRetries + 1 - k
    ensures RunFrom(cfg, attempt, k).outcome == Raised(abort)
    decreases cfg.maxRetries - k
  {
    if k < cfg.maxRetries {
      PersistentTimeout(cfg, attempt, abort, k + 1);
    }
  }

  /**
   * The error raised for a listed status has code `HTTP_ERROR`, so it is retried
   * only when "HTTP_ERROR" is itself listed; under the default policy a 503 is
   * surfaced after the first call.
   */
  lemma ListedStatusNeedsHttpErrorCode(cfg: RetryConfig, attempt: nat -> Attempt)
    requires attempt(0).Response? && IsRetryableResponse(cfg, attempt(0).status)
    requires cfg.maxRetries > 0
    ensures RunFrom(cfg, attempt, 0).attempts > 1 <==> "HTTP_ERROR" in cfg.retryableErrors
  {
  }

  lemma DefaultPolicySurfaces503(attempt: nat -> Attempt)
    requires attempt(0) == Response(503, "Service Unavailable")
    ensures RunFrom(DefaultRetry, attempt, 0)
      == Run(Raised(Coded(HttpError(503, "Service Unavailable"))), [], 1)
  {
    assert DecimalString(503) == "503";
    assert "HTTP_ERROR" !in DefaultRetry.retryableErrors;
  }
}
