/** The outbound HTTP retry loop and its backoff. */
module RetryClient {
  import opened Wrappers
  import opened Arithmetic
  import Decimal
  import Text

  const MAX_RETRY_AFTER_MS := 30_000

  datatype Policy = Idempotent | NonIdempotent

  datatype TransportError = TransportError(connect: bool, timeout: bool, request: bool)

  datatype Outcome =
    | Response(status: nat, retryAfter: Option<string>)
    | Failed(error: TransportError)

  /**
   What one attempt meets: the breaker's word, which `GuardedClient` derives from the breaker
   itself, the outside world's, and `nanos`, the sub-second clock.
   */
  datatype Answer = Answer(admitted: bool, authenticated: bool, outcome: Outcome, nanos: nat)

  datatype ClientError = CircuitOpen | AuthFailed | Status(status: nat) | Timeout | Http | NoResponse

  datatype Config = Config(maxRetries: nat, retryBackoffMs: nat, hasBreaker: bool)

  /** What the breaker is told about an admitted attempt. */
  datatype Report = Healthy | Unhealthy

  predicate IsSuccess(status: nat) {
    200 <= status <= 299
  }

  predicate StatusIsRetryable(status: nat) {
    status in {408, 425, 429, 500, 502, 503, 504}
  }

  predicate StatusCountsAsFailure(status: nat) {
    status == 408 || status == 429 || 500 <= status <= 599
  }

  predicate TransportFailureCounts(e: TransportError) {
    e.connect || e.timeout || e.request
  }

  predicate AllowsStatusRetry(policy: Policy, status: nat) {
    policy.Idempotent? && StatusIsRetryable(status)
  }

  predicate AllowsTransportRetry(policy: Policy, e: TransportError) {
    policy.Idempotent? || e.connect
  }

  predicate Retryable(policy: Policy, outcome: Outcome) {
    match outcome
    case Response(status, _) => AllowsStatusRetry(policy, status)
    case Failed(e) => AllowsTransportRetry(policy, e)
  }

  /** Delta-seconds only, capped; anything else is ignored. */
  function RetryAfterMs(outcome: Outcome): Option<nat> {
    if outcome.Response? && outcome.retryAfter.Some? then
      match Decimal.ParseU64(Text.Trim(outcome.retryAfter.value))
      case None => None
      case Some(seconds) => Some(if seconds * 1000 < MAX_RETRY_AFTER_MS then seconds * 1000 else MAX_RETRY_AFTER_MS)
    else None
  }

  /** Arithmetic that sticks at the largest 64-bit value. */
  function Saturate(n: nat): nat {
    if n <= Decimal.U64_MAX then n else Decimal.U64_MAX
  }

  function BackoffBase(cfg: Config, attempt: nat): nat {
    Saturate(cfg.retryBackoffMs * Saturate(Pow2(attempt)))
  }

  function BackoffMs(cfg: Config, attempt: nat, nanos: nat): nat {
    var half := BackoffBase(cfg, attempt) / 2;
    half + (if half == 0 then 0 else nanos % (half + 1))
  }

  function Pause(cfg: Config, attempt: nat, a: Answer): nat {
    match RetryAfterMs(a.outcome)
    case Some(ms) => ms
    case None => BackoffMs(cfg, attempt, a.nanos)
  }

  function ErrorOf(outcome: Outcome): ClientError {
    match outcome
    case Response(status, _) => Status(status)
    case Failed(e) => if e.timeout then Timeout else Http
  }

  function ReportOf(cfg: Config, a: Answer): seq<Report> {
    if !cfg.hasBreaker then []
    else if !a.authenticated then [Unhealthy]
    else
      match a.outcome
      case Response(status, _) =>
        [if IsSuccess(status) || !StatusCountsAsFailure(status) then Healthy else Unhealthy]
      case Failed(e) => if TransportFailureCounts(e) then [Unhealthy] else []
  }

  /** One run: its result, the requests that were sent, the pauses and the breaker reports. */
  datatype Run = Run(result: Result<Outcome, ClientError>, sent: seq<Outcome>, pauses: seq<nat>, reports: seq<Report>)

  function From(cfg: Config, policy: Policy, answers: nat -> Answer, attempt: nat): Run
    requires attempt <= cfg.maxRetries
    decreases cfg.maxRetries - attempt
  {
    var a := answers(attempt);
    if cfg.hasBreaker && !a.admitted then Run(Err(CircuitOpen), [], [], [])
    else if !a.authenticated then Run(Err(AuthFailed), [], [], ReportOf(cfg, a))
    else if a.outcome.Response? && IsSuccess(a.outcome.status) then
      Run(Ok(a.outcome), [a.outcome], [], ReportOf(cfg, a))
    else if !Retryable(policy, a.outcome) || attempt >= cfg.maxRetries then
      Run(Err(ErrorOf(a.outcome)), [a.outcome], [], ReportOf(cfg, a))
    else
      var rest := From(cfg, policy, answers, attempt + 1);
      Run(rest.result, [a.outcome] + rest.sent, [Pause(cfg, attempt, a)] + rest.pauses,
          ReportOf(cfg, a) + rest.reports)
  }

  /** What has been sent, paused and reported so far, in front of the rest of the run. */
  function After(sent: seq<Outcome>, pauses: seq<nat>, reports: seq<Report>, rest: Run): Run {
    Run(rest.result, sent + rest.sent, pauses + rest.pauses, reports + rest.reports)
  }

  lemma AfterNothing(r: Run)
    ensures After([], [], [], r) == r
  {
  }

  lemma AfterAppended(sent: seq<Outcome>, pauses: seq<nat>, reports: seq<Report>,
                      s: seq<Outcome>, p: seq<nat>, t: seq<Report>, rest: Run)
    ensures After(sent, pauses, reports, After(s, p, t, rest)) == After(sent + s, pauses + p, reports + t, rest)
  {
  }

  /** The breaker bookkeeping of one answered or failed request. */
  method ReportOutcome(cfg: Config, a: Answer) returns (report: seq<Report>)
    requires a.authenticated
    ensures report == ReportOf(cfg, a) && |report| <= 1
  {
    report := [];
    if cfg.hasBreaker {
      match a.outcome {
        case Response(status, _) =>
          report := if IsSuccess(status) || !StatusCountsAsFailure(status) then [Healthy] else [Unhealthy];
        case Failed(e) =>
          report := if TransportFailureCounts(e) then [Unhealthy] else [];
      }
    }
  }

  lemma AuthReport(cfg: Config, a: Answer)
    requires !a.authenticated
    ensures ReportOf(cfg, a) == if cfg.hasBreaker then [Unhealthy] else []
  {
  }

  /** Another attempt follows this one. */
  predicate Continues(cfg: Config, policy: Policy, a: Answer, attempt: nat) {
    && (cfg.hasBreaker ==> a.admitted) && a.authenticated && !(a.outcome.Response? && IsSuccess(a.outcome.status))
    && Retryable(policy, a.outcome) && attempt < cfg.maxRetries
  }

  lemma Continued(cfg: Config, policy: Policy, answers: nat -> Answer, attempt: nat)
    requires attempt <= cfg.maxRetries && Continues(cfg, policy, answers(attempt), attempt)
    ensures From(cfg, policy, answers, attempt)
         == After([answers(attempt).outcome], [Pause(cfg, attempt, answers(attempt))], ReportOf(cfg, answers(attempt)),
                  From(cfg, policy, answers, attempt + 1))
  {
    hide ReportOf, Pause, Retryable, IsSuccess;
  }

  /** The last attempt: refused, not authenticated, or one request that ends the run. */
  lemma Stopped(cfg: Config, policy: Policy, answers: nat -> Answer, attempt: nat)
    requires attempt <= cfg.maxRetries && !Continues(cfg, policy, answers(attempt), attempt)
    ensures var r, a := From(cfg, policy, answers, attempt), answers(attempt);
            && r.pauses == []
            && (r.result == Err(CircuitOpen) <==> cfg.hasBreaker && !a.admitted)
            && (r.result == Err(AuthFailed) <==> (cfg.hasBreaker ==> a.admitted) && !a.authenticated)
            && (r.result.Ok? <==> (cfg.hasBreaker ==> a.admitted) && a.authenticated
                                  && a.outcome.Response? && IsSuccess(a.outcome.status))
            && (r.result.Ok? ==> r.result.value == a.outcome)
            && r.sent == (if r.result == Err(CircuitOpen) || r.result == Err(AuthFailed) then [] else [a.outcome])
            && r.reports == (if r.result == Err(CircuitOpen) then [] else ReportOf(cfg, a))
  {
    assert ErrorOf(answers(attempt).outcome) != AuthFailed && ErrorOf(answers(attempt).outcome) != CircuitOpen;
    hide ReportOf, Pause, Retryable, IsSuccess;
  }

  // ---- Properties of every run -----------------------------------------------------------

  /** A run of several attempts is its first attempt followed by the run from the next one. */
  lemma AfterFirst(cfg: Config, policy: Policy, answers: nat -> Answer, attempt: nat)
    requires attempt < cfg.maxRetries
    ensures var r, rest := From(cfg, policy, answers, attempt), From(cfg, policy, answers, attempt + 1);
            |r.sent| > 1 || |r.pauses| > 0 ==>
              && r.sent == [answers(attempt).outcome] + rest.sent
              && r.pauses == [Pause(cfg, attempt, answers(attempt))] + rest.pauses
              && r.result == rest.result
              && Retryable(policy, answers(attempt).outcome)
              && !(r.sent[0].Response? && IsSuccess(r.sent[0].status))
              && (forall i :: 0 < i < |r.sent| ==> r.sent[i] == rest.sent[i - 1])
              && (forall i :: 0 < i < |r.pauses| ==> r.pauses[i] == rest.pauses[i - 1])
  {
  }

  /** At most `max_retries` repeats, and one pause between consecutive attempts only. */
  lemma {:induction false} AttemptBound(cfg: Config, policy: Policy, answers: nat -> Answer, attempt: nat)
    requires attempt <= cfg.maxRetries
    ensures var r := From(cfg, policy, answers, attempt);
            |r.pauses| <= cfg.maxRetries - attempt && |r.pauses| <= |r.sent| <= |r.pauses| + 1
    decreases cfg.maxRetries - attempt
  {
    if attempt < cfg.maxRetries {
      AttemptBound(cfg, policy, answers, attempt + 1);
    }
  }

  /**
   Retry safety: without an idempotency key every request before the last one never
   reached the provider, so at most one request can have taken effect.
   */
  lemma {:induction false} KeylessRepeatsOnlyConnectFailures(cfg: Config, answers: nat -> Answer, attempt: nat)
    requires attempt <= cfg.maxRetries
    ensures var sent := From(cfg, NonIdempotent, answers, attempt).sent;
            forall i :: 0 <= i < |sent| - 1 ==> sent[i].Failed? && sent[i].error.connect
    decreases cfg.maxRetries - attempt
  {
    if attempt < cfg.maxRetries {
      KeylessRepeatsOnlyConnectFailures(cfg, answers, attempt + 1);
      AfterFirst(cfg, NonIdempotent, answers, attempt);
    }
  }

  /** With a key, only transient statuses and transport failures are repeated. */
  lemma {:induction false} KeyedRepeatsOnlyTransient(cfg: Config, answers: nat -> Answer, attempt: nat)
    requires attempt <= cfg.maxRetries
    ensures var sent := From(cfg, Idempotent, answers, attempt).sent;
            forall i :: 0 <= i < |sent| - 1 ==>
              sent[i].Failed? || sent[i].status in {408, 425, 429, 500, 502, 503, 504}
    decreases cfg.maxRetries - attempt
  {
    if attempt < cfg.maxRetries {
      KeyedRepeatsOnlyTransient(cfg, answers, attempt + 1);
      AfterFirst(cfg, Idempotent, answers, attempt);
    }
  }

  /** A run goes on only when admitted, after an answer that is no success, and with attempts left. */
  lemma ContinuesMeans(cfg: Config, policy: Policy, a: Answer, attempt: nat)
    requires Continues(cfg, policy, a, attempt)
    ensures cfg.hasBreaker ==> a.admitted
    ensures !(a.outcome.Response? && IsSuccess(a.outcome.status))
    ensures attempt < cfg.maxRetries
  {
  }

  /** Success is reported exactly when the last request sent was answered with a 2xx, and none before was. */
  lemma {:induction false} ResultIsLastAnswer(cfg: Config, policy: Policy, answers: nat -> Answer, attempt: nat)
    requires attempt <= cfg.maxRetries
    ensures var r := From(cfg, policy, answers, attempt);
            && (r.result.Ok? <==> r.sent != [] && r.sent[|r.sent| - 1].Response?
                                  && IsSuccess(r.sent[|r.sent| - 1].status))
            && (r.result.Ok? ==> r.result.value == r.sent[|r.sent| - 1])
            && (forall i :: 0 <= i < |r.sent| - 1 ==> r.sent[i].Response? ==> !IsSuccess(r.sent[i].status))
    decreases cfg.maxRetries - attempt
  {
    hide From, Continues, IsSuccess, Retryable, Pause, ReportOf;
    if Continues(cfg, policy, answers(attempt), attempt) {
      ContinuesMeans(cfg, policy, answers(attempt), attempt);
      Continued(cfg, policy, answers, attempt);
      ResultIsLastAnswer(cfg, policy, answers, attempt + 1);
      var sent, rest := From(cfg, policy, answers, attempt).sent, From(cfg, policy, answers, attempt + 1).sent;
      assert forall i :: 0 < i < |sent| ==> sent[i] == rest[i - 1];
    } else {
      Stopped(cfg, policy, answers, attempt);
    }
  }

  /** What these attempts report, one after the other. */
  function ReportsOf(cfg: Config, answers: nat -> Answer, attempt: nat, count: nat): seq<Report>
    decreases count
  {
    if count == 0 then [] else ReportOf(cfg, answers(attempt)) + ReportsOf(cfg, answers, attempt + 1, count - 1)
  }

  function Attempts(r: Run): nat {
    |r.sent| + if r.result == Err(AuthFailed) then 1 else 0
  }

  lemma SentCounted(cfg: Config, policy: Policy, answers: nat -> Answer, attempt: nat)
    requires attempt <= cfg.maxRetries && cfg.hasBreaker && answers(attempt).authenticated
    ensures var r := From(cfg, policy, answers, attempt);
            if Continues(cfg, policy, answers(attempt), attempt)
            then attempt < cfg.maxRetries
                 && |r.sent| == 1 + |From(cfg, policy, answers, attempt + 1).sent|
                 && r.result == From(cfg, policy, answers, attempt + 1).result
            else |r.sent| == (if answers(attempt).admitted then 1 else 0)
                 && (r.result == Err(CircuitOpen) <==> !answers(attempt).admitted)
  {
    if Continues(cfg, policy, answers(attempt), attempt) {
      Continued(cfg, policy, answers, attempt);
    } else {
      Stopped(cfg, policy, answers, attempt);
    }
    hide From, Retryable, IsSuccess, Pause, ReportOf;
  }

  lemma AttemptsCounted(cfg: Config, policy: Policy, answers: nat -> Answer, attempt: nat)
    requires attempt <= cfg.maxRetries
    ensures if Continues(cfg, policy, answers(attempt), attempt)
            then attempt < cfg.maxRetries
                 && Attempts(From(cfg, policy, answers, attempt)) == 1 + Attempts(From(cfg, policy, answers, attempt + 1))
            else Attempts(From(cfg, policy, answers, attempt)) == if cfg.hasBreaker && !answers(attempt).admitted then 0 else 1
  {
    if Continues(cfg, policy, answers(attempt), attempt) {
      Continued(cfg, policy, answers, attempt);
    } else {
      Stopped(cfg, policy, answers, attempt);
    }
    hide From, Retryable, IsSuccess, Pause, ReportOf;
  }

  lemma {:induction false} SentIsAnswered(cfg: Config, policy: Policy, answers: nat -> Answer, attempt: nat, i: nat)
    requires attempt <= cfg.maxRetries && i < |From(cfg, policy, answers, attempt).sent|
    ensures From(cfg, policy, answers, attempt).sent[i] == answers(attempt + i).outcome
    decreases i
  {
    hide From, Retryable, IsSuccess, Pause, ReportOf;
    if Continues(cfg, policy, answers(attempt), attempt) {
      Continued(cfg, policy, answers, attempt);
    } else {
      Stopped(cfg, policy, answers, attempt);
    }
    if i > 0 {
      SentIsAnswered(cfg, policy, answers, attempt + 1, i - 1);
      assert attempt + 1 + (i - 1) == attempt + i;
    }
  }

  lemma {:induction false} ReportsFollowAttempts(cfg: Config, policy: Policy, answers: nat -> Answer, attempt: nat)
    requires attempt <= cfg.maxRetries && cfg.hasBreaker
    ensures var r := From(cfg, policy, answers, attempt);
            r.reports == ReportsOf(cfg, answers, attempt, Attempts(r))
    decreases cfg.maxRetries - attempt
  {
    var a := answers(attempt);
    var r := From(cfg, policy, answers, attempt);
    hide From, ReportOf, Continues, Pause;
    if Continues(cfg, policy, a, attempt) {
      Continued(cfg, policy, answers, attempt);
      ReportsFollowAttempts(cfg, policy, answers, attempt + 1);
    } else {
      Stopped(cfg, policy, answers, attempt);
      assert ReportOf(cfg, a) + [] == ReportOf(cfg, a) && ReportsOf(cfg, answers, attempt + 1, 0) == [];
    }
  }

  /** Failures that say nothing about the provider's health. */
  function Uncounted(sent: seq<Outcome>): nat {
    if sent == [] then 0
    else (if sent[0].Failed? && !TransportFailureCounts(sent[0].error) then 1 else 0) + Uncounted(sent[1..])
  }

  lemma {:induction false} ReportsCounted(cfg: Config, policy: Policy, answers: nat -> Answer, attempt: nat)
    requires attempt <= cfg.maxRetries && cfg.hasBreaker
    ensures var r := From(cfg, policy, answers, attempt); |r.reports| + Uncounted(r.sent) == Attempts(r)
    decreases cfg.maxRetries - attempt
  {
    var a := answers(attempt);
    assert Uncounted([]) == 0 && [a.outcome][1..] == [];
    if attempt < cfg.maxRetries {
      ReportsCounted(cfg, policy, answers, attempt + 1);
      var rest := From(cfg, policy, answers, attempt + 1).sent;
      assert ([a.outcome] + rest)[1..] == rest;
    }
  }

  /**
   Every admitted attempt settles with the breaker by its own outcome, in order: the
   attempts are the requests sent and a failed authentication, and each reports once, save
   for failures that say nothing about the provider.
   */
  lemma EveryAttemptSettles(cfg: Config, policy: Policy, answers: nat -> Answer, attempt: nat)
    requires attempt <= cfg.maxRetries && cfg.hasBreaker
    ensures var r := From(cfg, policy, answers, attempt);
            && r.reports == ReportsOf(cfg, answers, attempt, Attempts(r))
            && (forall i :: 0 <= i < |r.sent| ==> r.sent[i] == answers(attempt + i).outcome)
            && |r.reports| + Uncounted(r.sent) == Attempts(r)
  {
    ReportsFollowAttempts(cfg, policy, answers, attempt);
    forall i | 0 <= i < |From(cfg, policy, answers, attempt).sent| {
      SentIsAnswered(cfg, policy, answers, attempt, i);
    }
    ReportsCounted(cfg, policy, answers, attempt);
  }

  // ---- Delays -------------------------------------------------------------------------------

  lemma BackoffWithinBase(cfg: Config, attempt: nat, nanos: nat)
    ensures BackoffBase(cfg, attempt) / 2 <= BackoffMs(cfg, attempt, nanos) <= BackoffBase(cfg, attempt)
    ensures BackoffBase(cfg, attempt) <= cfg.retryBackoffMs * Pow2(attempt)
  {
    var half := BackoffBase(cfg, attempt) / 2;
    if half > 0 {
      assert nanos % (half + 1) <= half;
    }
    var p := Pow2(attempt);
    assert cfg.retryBackoffMs * Saturate(p) <= cfg.retryBackoffMs * p by {
      Scale(cfg.retryBackoffMs, Saturate(p), p);
    }
  }

  lemma Scale(k: nat, a: nat, b: nat)
    requires a <= b
    ensures k * a <= k * b
  {
  }

  lemma Distribute(k: nat, low: nat, top: int)
    ensures k * low + k * (top - 2 * low) == k * (top - low)
  {
  }

  function Sum(xs: seq<nat>): nat {
    if xs == [] then 0 else xs[0] + Sum(xs[1..])
  }

  /**
   Each pause is a capped Retry-After or jittered exponential backoff, and without
   Retry-After all pauses of a run together stay below `backoff * (2^max_retries - 1)`
   milliseconds, saturated or not.
   */
  lemma {:induction false} TotalBackoffBound(cfg: Config, policy: Policy, answers: nat -> Answer, attempt: nat)
    requires attempt <= cfg.maxRetries
    requires forall i: nat :: i <= cfg.maxRetries ==> RetryAfterMs(answers(i).outcome).None?
    ensures Sum(From(cfg, policy, answers, attempt).pauses)
         <= cfg.retryBackoffMs * (Pow2(cfg.maxRetries) - Pow2(attempt))
    decreases cfg.maxRetries - attempt
  {
    hide BackoffMs, BackoffBase, RetryAfterMs;
    Pow2Grows(attempt, cfg.maxRetries);
    var r := From(cfg, policy, answers, attempt);
    var rb, top, low := cfg.retryBackoffMs, Pow2(cfg.maxRetries), Pow2(attempt);
    if r.pauses == [] {
      Scale(rb, 0, top - low);
    } else {
      TotalBackoffBound(cfg, policy, answers, attempt + 1);
      BackoffWithinBase(cfg, attempt, answers(attempt).nanos);
      var rest := From(cfg, policy, answers, attempt + 1);
      assert r.pauses == [Pause(cfg, attempt, answers(attempt))] + rest.pauses;
      assert r.pauses[1..] == rest.pauses;
      assert RetryAfterMs(answers(attempt).outcome).None?;
      assert Pow2(attempt + 1) == 2 * low;
      Distribute(rb, low, top);
    }
  }

  lemma {:induction false} Pow2Grows(a: nat, b: nat)
    requires a <= b
    ensures 1 <= Pow2(a) <= Pow2(b)
    decreases b
  {
    if a < b {
      Pow2Grows(a, b - 1);
    } else if b > 0 {
      Pow2Grows(a - 1, b - 1);
    }
  }

  lemma RetryAfterIsCapped(outcome: Outcome)
    ensures RetryAfterMs(outcome).Some? ==> RetryAfterMs(outcome).value <= 30_000
  {
  }

  /** Every single pause: at most 30 s when the provider names it, else within its backoff window. */
  lemma {:induction false} EachPauseIsBounded(cfg: Config, policy: Policy, answers: nat -> Answer, attempt: nat)
    requires attempt <= cfg.maxRetries
    ensures var pauses := From(cfg, policy, answers, attempt).pauses;
            forall i :: 0 <= i < |pauses| ==>
              if RetryAfterMs(answers(attempt + i).outcome).Some? then pauses[i] <= 30_000
              else BackoffBase(cfg, attempt + i) / 2 <= pauses[i] <= BackoffBase(cfg, attempt + i)
    decreases cfg.maxRetries - attempt
  {
    BackoffWithinBase(cfg, attempt, answers(attempt).nanos);
    RetryAfterIsCapped(answers(attempt).outcome);
    hide BackoffMs, BackoffBase, RetryAfterMs;
    if attempt < cfg.maxRetries {
      EachPauseIsBounded(cfg, policy, answers, attempt + 1);
      AfterFirst(cfg, policy, answers, attempt);
      var rest := From(cfg, policy, answers, attempt + 1).pauses;
      var pauses := From(cfg, policy, answers, attempt).pauses;
      forall i | 0 <= i < |pauses|
        ensures if RetryAfterMs(answers(attempt + i).outcome).Some? then pauses[i] <= 30_000
                else BackoffBase(cfg, attempt + i) / 2 <= pauses[i] <= BackoffBase(cfg, attempt + i)
      {
        if i > 0 {
          assert pauses[i] == rest[i - 1];
          assert attempt + 1 + (i - 1) == attempt + i;
        } else {
          assert attempt + i == attempt && pauses[0] == Pause(cfg, attempt, answers(attempt));
        }
      }
    }
  }
}
