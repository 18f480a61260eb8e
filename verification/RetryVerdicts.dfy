/**
 The outbound retry loop judged from outside: which answers are repeated, how long each
 pause is, what the breaker is told and how the run ends, said of the answers alone.
 */
module RetryVerdicts {
  import opened Wrappers
  import opened Arithmetic
  import opened RetryClient
  import Decimal
  import Text

  predicate Succeeds(o: Outcome) {
    o.Response? && 200 <= o.status <= 299
  }

  /** A transient status or any transport failure with a key; without one, only a failure to connect. */
  predicate MayRepeat(policy: Policy, o: Outcome) {
    match o
    case Response(status, _) => policy.Idempotent? && status in {408, 425, 429, 500, 502, 503, 504}
    case Failed(e) => policy.Idempotent? || e.connect
  }

  /** The outcome speaks against the provider's health. */
  predicate Ails(o: Outcome) {
    match o
    case Response(status, _) => status in {408, 429} || 500 <= status < 600
    case Failed(e) => e.connect || e.timeout || e.request
  }

  /** An ailing provider is reported, a well answer too, and any other failure is not. */
  function Verdict(o: Outcome): seq<Report> {
    if Ails(o) then [Unhealthy] else if o.Response? then [Healthy] else []
  }

  function Verdicts(sent: seq<Outcome>): seq<Report> {
    if sent == [] then [] else Verdict(sent[0]) + Verdicts(sent[1..])
  }

  function NameOf(o: Outcome): ClientError {
    match o
    case Response(status, _) => Status(status)
    case Failed(e) => if e.timeout then Timeout else Http
  }

  // ---- Pauses ---------------------------------------------------------------------------------

  /** The text is this number of seconds as it prints, perhaps behind zeros and a plus sign, and between blanks. */
  ghost predicate Names(text: string, seconds: nat) {
    && seconds < 0x1_0000_0000_0000_0000
    && exists before: string, plus: bool, zeros: string, after: string ::
         IsNaming(text, seconds, before, plus, zeros, after)
  }

  predicate IsNaming(text: string, seconds: nat, before: string, plus: bool, zeros: string, after: string) {
    && Text.AllBlank(before) && Text.AllBlank(after) && Decimal.AllZeros(zeros)
    && text == before + (((if plus then "+" else "") + (zeros + Decimal.ShowNat(seconds))) + after)
  }

  lemma PrintedIsTight(plus: bool, zeros: string, n: nat)
    requires Decimal.AllZeros(zeros)
    ensures var s := (if plus then "+" else "") + (zeros + Decimal.ShowNat(n)); s != "" && Text.Tight(s)
  {
    var digits := Decimal.ShowNat(n);
    var s := (if plus then "+" else "") + (zeros + digits);
    assert digits[|digits| - 1] in digits && digits[0] in digits;
    assert zeros != "" ==> zeros[0] in zeros;
    assert s[|s| - 1] == digits[|digits| - 1];
  }

  /** A header value is read as that many seconds exactly when it names them. */
  lemma NamedExactly(text: string, seconds: nat)
    ensures Decimal.ParseU64(Text.Trim(text)) == Some(seconds) <==> Names(text, seconds)
  {
    if Decimal.ParseU64(Text.Trim(text)) == Some(seconds) {
      var before, after := Text.TrimSplits(text);
      var plus, zeros := Decimal.ParseU64Only(Text.Trim(text));
      hide Text.Trim, Decimal.ShowNat;
      assert IsNaming(text, seconds, before, plus, zeros, after);
    }
    if Names(text, seconds) {
      var before: string, plus: bool, zeros: string, after: string :| IsNaming(text, seconds, before, plus, zeros, after);
      PrintedIsTight(plus, zeros, seconds);
      hide Text.Trim, Decimal.ShowNat, Decimal.ParseU64;
      Text.TrimOnly(before, (if plus then "+" else "") + (zeros + Decimal.ShowNat(seconds)), after);
      Decimal.ParseU64Printed(plus, zeros, seconds);
    }
  }

  ghost predicate AsksFor(o: Outcome, seconds: nat) {
    o.Response? && o.retryAfter.Some? && Names(o.retryAfter.value, seconds)
  }

  /** The provider's wait is taken in milliseconds up to half a minute, and anything else is ignored. */
  lemma RetryAfterExactly(o: Outcome, seconds: nat)
    ensures AsksFor(o, seconds) ==> RetryAfterMs(o) == Some(Min(1000 * seconds, 30_000))
    ensures RetryAfterMs(o).Some? ==> exists n: nat :: AsksFor(o, n) && RetryAfterMs(o).value == Min(1000 * n, 30_000)
  {
    hide Names;
    if o.Response? && o.retryAfter.Some? {
      NamedExactly(o.retryAfter.value, seconds);
      var parsed := Decimal.ParseU64(Text.Trim(o.retryAfter.value));
      if parsed.Some? {
        NamedExactly(o.retryAfter.value, parsed.value);
        assert AsksFor(o, parsed.value);
      }
      hide Text.Trim, Decimal.ParseU64;
    }
  }

  /** The backoff window: the configured one, doubled at each attempt until it sticks at the largest 64-bit value. */
  function Window(ms: nat, attempt: nat): nat {
    Min(if attempt == 0 then ms else 2 * Window(ms, attempt - 1), 0xFFFF_FFFF_FFFF_FFFF)
  }

  lemma {:induction false} Product(k: nat, a: nat, b: nat)
    requires k >= 1 && a >= b
    ensures k * a >= b
    decreases k
  {
    if k > 1 {
      Product(k - 1, a, b);
      assert k * a == (k - 1) * a + a;
    }
  }

  lemma Doubled(k: nat, p: nat)
    ensures k * (2 * p) == 2 * (k * p)
  {
  }

  lemma {:induction false} WindowDoubles(cfg: Config, attempt: nat)
    ensures BackoffBase(cfg, attempt) == Window(cfg.retryBackoffMs, attempt)
    decreases attempt
  {
    var ms, top := cfg.retryBackoffMs, Decimal.U64_MAX;
    if attempt > 0 {
      WindowDoubles(cfg, attempt - 1);
      var p := Pow2(attempt - 1);
      if ms > 0 && 2 * p > top {
        Product(ms, top, top);
        Product(ms, Saturate(p), top / 2 + 1);
      } else if ms > 0 {
        Doubled(ms, p);
      }
    }
  }

  /** The wait the provider asked for; without one, half the window and a part of the other half taken from the clock. */
  ghost predicate PauseFits(cfg: Config, attempt: nat, a: Answer, pause: nat) {
    var half := Window(cfg.retryBackoffMs, attempt) / 2;
    && (forall seconds: nat :: AsksFor(a.outcome, seconds) ==> pause == Min(1000 * seconds, 30_000))
    && ((forall seconds: nat :: !AsksFor(a.outcome, seconds)) ==> pause == half + a.nanos % (half + 1))
  }

  lemma PauseIsFit(cfg: Config, attempt: nat, a: Answer)
    ensures PauseFits(cfg, attempt, a, Pause(cfg, attempt, a))
  {
    hide RetryAfterMs, AsksFor, Window, BackoffBase;
    WindowDoubles(cfg, attempt);
    RetryAfterExactly(a.outcome, 0);
    forall seconds: nat | AsksFor(a.outcome, seconds)
      ensures Pause(cfg, attempt, a) == Min(1000 * seconds, 30_000)
    {
      RetryAfterExactly(a.outcome, seconds);
    }
  }

  lemma FitsOnce(cfg: Config, attempt: nat, a: Answer, pause: nat, other: nat)
    requires PauseFits(cfg, attempt, a, pause) && PauseFits(cfg, attempt, a, other)
    ensures pause == other
  {
    hide AsksFor, Window;
  }

  // ---- Whole runs --------------------------------------------------------------------------------

  predicate Refused(cfg: Config, a: Answer) {
    cfg.hasBreaker && !a.admitted
  }

  predicate IsSent(cfg: Config, a: Answer) {
    !Refused(cfg, a) && a.authenticated
  }

  predicate StopsBefore(r: Run) {
    r.result == Err(CircuitOpen) || r.result == Err(AuthFailed)
  }

  /** How a run that made these requests may end, `left` attempts being allowed from its start. */
  predicate EndsRightly(cfg: Config, policy: Policy, r: Run, next: Answer, left: nat) {
    var k := |r.sent|;
    if StopsBefore(r) then
      && k < left && (k > 0 ==> MayRepeat(policy, r.sent[k - 1]) && !Succeeds(r.sent[k - 1]))
      && (if r.result == Err(CircuitOpen) then Refused(cfg, next) else !Refused(cfg, next) && !next.authenticated)
    else
      && k > 0
      && if Succeeds(r.sent[k - 1]) then r.result == Ok(r.sent[k - 1])
         else r.result == Err(NameOf(r.sent[k - 1])) && (!MayRepeat(policy, r.sent[k - 1]) || k == left)
  }

  function Heard(cfg: Config, r: Run): seq<Report> {
    if cfg.hasBreaker then Verdicts(r.sent) + (if r.result == Err(AuthFailed) then [Unhealthy] else []) else []
  }

  /** The request is the answered one, and another follows it only if it is worth repeating. */
  predicate RequestFits(cfg: Config, policy: Policy, a: Answer, o: Outcome, followed: bool) {
    && o == a.outcome && IsSent(cfg, a)
    && (followed ==> MayRepeat(policy, o) && !Succeeds(o))
  }

  ghost predicate RequestsFit(cfg: Config, policy: Policy, answers: nat -> Answer, n: nat, r: Run) {
    forall i :: 0 <= i < |r.sent| ==> RequestFits(cfg, policy, answers(n + i), r.sent[i], i < |r.sent| - 1)
  }

  ghost predicate PausesFit(cfg: Config, answers: nat -> Answer, n: nat, r: Run) {
    && |r.pauses| == (if StopsBefore(r) then |r.sent| else |r.sent| - 1)
    && forall i :: 0 <= i < |r.pauses| ==> PauseFits(cfg, n + i, answers(n + i), r.pauses[i])
  }

  /**
   The run, from attempt `n` on, as its answers explain it: requests follow the answers while
   they are sent; each but the last is worth repeating; the pauses fit; the breaker hears each
   verdict; and the run stops with a success, a failure not worth repeating, the last attempt
   allowed, a refusal or a failed authentication, and reports just that.
   */
  ghost predicate Explains(cfg: Config, policy: Policy, answers: nat -> Answer, n: nat, r: Run) {
    && n + |r.sent| <= cfg.maxRetries + 1
    && RequestsFit(cfg, policy, answers, n, r)
    && PausesFit(cfg, answers, n, r)
    && EndsRightly(cfg, policy, r, answers(n + |r.sent|), cfg.maxRetries + 1 - n)
    && r.reports == Heard(cfg, r)
  }

  lemma Judged(cfg: Config, policy: Policy, a: Answer)
    ensures Retryable(policy, a.outcome) <==> MayRepeat(policy, a.outcome)
    ensures a.outcome.Response? && IsSuccess(a.outcome.status) <==> Succeeds(a.outcome)
    ensures ErrorOf(a.outcome) == NameOf(a.outcome)
    ensures ReportOf(cfg, a) == if !cfg.hasBreaker then [] else if a.authenticated then Verdict(a.outcome) else [Unhealthy]
  {
  }

  lemma LastExplained(cfg: Config, policy: Policy, answers: nat -> Answer, n: nat)
    requires n <= cfg.maxRetries && !Continues(cfg, policy, answers(n), n)
    ensures Explains(cfg, policy, answers, n, From(cfg, policy, answers, n))
  {
    var r, a := From(cfg, policy, answers, n), answers(n);
    Judged(cfg, policy, a);
    Stopped(cfg, policy, answers, n);
    assert Verdicts([]) == [] && [a.outcome][1..] == [] && Verdicts([a.outcome]) == Verdict(a.outcome) + [];
    hide Retryable, IsSuccess, ReportOf, MayRepeat, Succeeds, Pause, PauseFits, Verdict, Verdicts;
    assert r.reports == Heard(cfg, r);
    assert r.sent != [] ==> r.sent == [a.outcome] && RequestFits(cfg, policy, answers(n + 0), r.sent[0], false);
    assert EndsRightly(cfg, policy, r, answers(n + |r.sent|), cfg.maxRetries + 1 - n);
  }

  lemma NextHeard(cfg: Config, o: Outcome, rest: Run, r: Run)
    requires r.result == rest.result && r.sent == [o] + rest.sent && rest.reports == Heard(cfg, rest)
    requires r.reports == (if cfg.hasBreaker then Verdict(o) else []) + rest.reports
    ensures r.reports == Heard(cfg, r)
  {
    hide Verdict;
    assert r.sent[1..] == rest.sent;
    var tail: seq<Report> := if r.result == Err(AuthFailed) then [Unhealthy] else [];
    assert Verdict(o) + (Verdicts(rest.sent) + tail) == Verdict(o) + Verdicts(rest.sent) + tail;
  }

  lemma NextEnds(cfg: Config, policy: Policy, rest: Run, r: Run, next: Answer, left: nat, more: nat)
    requires r.result == rest.result && |r.sent| == 1 + |rest.sent| && r.sent[1..] == rest.sent && more == left + 1
    requires MayRepeat(policy, r.sent[0]) && !Succeeds(r.sent[0]) && EndsRightly(cfg, policy, rest, next, left)
    ensures EndsRightly(cfg, policy, r, next, more)
  {
    hide MayRepeat, Succeeds, Refused, NameOf;
    assert |rest.sent| > 0 ==> r.sent[|r.sent| - 1] == rest.sent[|rest.sent| - 1];
  }

  lemma NextRequests(cfg: Config, policy: Policy, answers: nat -> Answer, n: nat, rest: Run, r: Run)
    requires IsSent(cfg, answers(n)) && MayRepeat(policy, answers(n).outcome) && !Succeeds(answers(n).outcome)
    requires r.sent == [answers(n).outcome] + rest.sent && RequestsFit(cfg, policy, answers, n + 1, rest)
    ensures RequestsFit(cfg, policy, answers, n, r)
  {
    hide MayRepeat, Succeeds, IsSent;
    forall i | 0 <= i < |r.sent|
      ensures RequestFits(cfg, policy, answers(n + i), r.sent[i], i < |r.sent| - 1)
    {
      if i > 0 {
        assert r.sent[i] == rest.sent[i - 1] && n + i == n + 1 + (i - 1);
      }
    }
  }

  lemma NextPauses(cfg: Config, answers: nat -> Answer, n: nat, rest: Run, r: Run)
    requires r.result == rest.result && |r.sent| == 1 + |rest.sent| && PausesFit(cfg, answers, n + 1, rest)
    requires |r.pauses| == 1 + |rest.pauses| && PauseFits(cfg, n, answers(n), r.pauses[0]) && r.pauses[1..] == rest.pauses
    ensures PausesFit(cfg, answers, n, r)
  {
    hide PauseFits;
    forall i | 0 <= i < |r.pauses|
      ensures PauseFits(cfg, n + i, answers(n + i), r.pauses[i])
    {
      if i > 0 {
        assert r.pauses[i] == rest.pauses[i - 1] && n + i == n + 1 + (i - 1);
      }
    }
  }

  /** This run is one request and a pause, and then the rest. */
  ghost predicate Prepends(cfg: Config, policy: Policy, a: Answer, n: nat, rest: Run, r: Run) {
    && IsSent(cfg, a) && MayRepeat(policy, a.outcome) && !Succeeds(a.outcome)
    && r.result == rest.result && r.sent == [a.outcome] + rest.sent && r.sent[1..] == rest.sent
    && r.reports == (if cfg.hasBreaker then Verdict(a.outcome) else []) + rest.reports
    && |r.pauses| == 1 + |rest.pauses| && PauseFits(cfg, n, a, r.pauses[0]) && r.pauses[1..] == rest.pauses
  }

  lemma FirstOfMore(cfg: Config, policy: Policy, answers: nat -> Answer, n: nat)
    requires n <= cfg.maxRetries && Continues(cfg, policy, answers(n), n)
    ensures n < cfg.maxRetries
    ensures Prepends(cfg, policy, answers(n), n, From(cfg, policy, answers, n + 1), From(cfg, policy, answers, n))
  {
    Continued(cfg, policy, answers, n);
    Judged(cfg, policy, answers(n));
    PauseIsFit(cfg, n, answers(n));
    hide From, Retryable, IsSuccess, MayRepeat, Succeeds, Pause, PauseFits, ReportOf, Verdict;
    assert From(cfg, policy, answers, n).sent[1..] == From(cfg, policy, answers, n + 1).sent;
  }

  lemma NextExplained(cfg: Config, policy: Policy, answers: nat -> Answer, n: nat, rest: Run, r: Run)
    requires n < cfg.maxRetries && Prepends(cfg, policy, answers(n), n, rest, r)
    requires Explains(cfg, policy, answers, n + 1, rest)
    ensures Explains(cfg, policy, answers, n, r)
  {
    hide MayRepeat, Succeeds, PauseFits, Verdict, Heard, EndsRightly, RequestsFit, PausesFit, IsSent;
    NextRequests(cfg, policy, answers, n, rest, r);
    NextPauses(cfg, answers, n, rest, r);
    NextHeard(cfg, answers(n).outcome, rest, r);
    assert n + |r.sent| == n + 1 + |rest.sent|;
    NextEnds(cfg, policy, rest, r, answers(n + |r.sent|), cfg.maxRetries + 1 - (n + 1), cfg.maxRetries + 1 - n);
  }

  lemma {:induction false} RunIsExplained(cfg: Config, policy: Policy, answers: nat -> Answer, n: nat)
    requires n <= cfg.maxRetries
    ensures Explains(cfg, policy, answers, n, From(cfg, policy, answers, n))
    decreases cfg.maxRetries - n
  {
    hide *;
    if Continues(cfg, policy, answers(n), n) {
      FirstOfMore(cfg, policy, answers, n);
      RunIsExplained(cfg, policy, answers, n + 1);
      NextExplained(cfg, policy, answers, n, From(cfg, policy, answers, n + 1), From(cfg, policy, answers, n));
    } else {
      LastExplained(cfg, policy, answers, n);
    }
  }

  /** A run that sends more than this many requests found no reason to stop there. */
  lemma GoesOn(cfg: Config, policy: Policy, answers: nat -> Answer, n: nat, r: Run, k: nat, last: Outcome)
    requires Explains(cfg, policy, answers, n, r) && k < |r.sent|
    requires k > 0 ==> last == answers(n + (k - 1)).outcome
    ensures IsSent(cfg, answers(n + k)) && k < cfg.maxRetries + 1 - n
    ensures k > 0 ==> MayRepeat(policy, last) && !Succeeds(last)
  {
    hide MayRepeat, Succeeds, PausesFit, Verdicts, EndsRightly;
    assert r.sent[k] == answers(n + k).outcome;
    if k > 0 {
      assert r.sent[k - 1] == answers(n + (k - 1)).outcome;
    }
  }

  /** But there is one to stop after the last. */
  lemma StopsThere(cfg: Config, policy: Policy, r: Run, next: Answer, left: nat)
    requires EndsRightly(cfg, policy, r, next, left) && IsSent(cfg, next) && |r.sent| < left
    ensures |r.sent| > 0 && (Succeeds(r.sent[|r.sent| - 1]) || !MayRepeat(policy, r.sent[|r.sent| - 1]))
  {
  }

  lemma NoShorter(cfg: Config, policy: Policy, answers: nat -> Answer, n: nat, r: Run, other: Run)
    requires Explains(cfg, policy, answers, n, r) && Explains(cfg, policy, answers, n, other)
    ensures |r.sent| >= |other.sent|
  {
    hide MayRepeat, Succeeds, PausesFit, Verdicts, EndsRightly;
    var k := |r.sent|;
    if k < |other.sent| {
      var last := if k > 0 then r.sent[k - 1] else answers(n).outcome;
      GoesOn(cfg, policy, answers, n, other, k, last);
      StopsThere(cfg, policy, r, answers(n + k), cfg.maxRetries + 1 - n);
    }
  }

  lemma EndsOnce(cfg: Config, policy: Policy, r: Run, other: Run, next: Answer, left: nat)
    requires EndsRightly(cfg, policy, r, next, left) && EndsRightly(cfg, policy, other, next, left)
    requires r.sent == other.sent
    ensures r.result == other.result
  {
  }

  lemma ExplainedOnce(cfg: Config, policy: Policy, answers: nat -> Answer, n: nat, r: Run, other: Run)
    requires Explains(cfg, policy, answers, n, r) && Explains(cfg, policy, answers, n, other)
    ensures r == other
  {
    NoShorter(cfg, policy, answers, n, r, other);
    NoShorter(cfg, policy, answers, n, other, r);
    hide EndsRightly, MayRepeat, Succeeds, PauseFits, Verdicts;
    assert r.sent == other.sent;
    EndsOnce(cfg, policy, r, other, answers(n + |r.sent|), cfg.maxRetries + 1 - n);
    forall i | 0 <= i < |r.pauses|
      ensures r.pauses[i] == other.pauses[i]
    {
      FitsOnce(cfg, n + i, answers(n + i), r.pauses[i], other.pauses[i]);
    }
    assert r.pauses == other.pauses;
  }

  /** The loop's run is the one and only run that its answers explain. */
  lemma RunExactly(cfg: Config, policy: Policy, answers: nat -> Answer, r: Run)
    ensures r == From(cfg, policy, answers, 0) <==> Explains(cfg, policy, answers, 0, r)
  {
    hide From, Explains;
    RunIsExplained(cfg, policy, answers, 0);
    if Explains(cfg, policy, answers, 0, r) {
      ExplainedOnce(cfg, policy, answers, 0, r, From(cfg, policy, answers, 0));
    }
  }

  /**
   With a key, a run gives up after a transient status or a transport failure only when all
   its attempts are spent, or the breaker or the authentication stops the next one.
   */
  lemma KeyedGivesUpOnlyWhenSpent(cfg: Config, answers: nat -> Answer)
    ensures var r := From(cfg, Idempotent, answers, 0);
            var k := |r.sent|;
            k > 0 && (r.sent[k - 1].Failed? || r.sent[k - 1].status in {408, 425, 429, 500, 502, 503, 504}) ==>
              || (k == cfg.maxRetries + 1 && r.result.Err?)
              || (k <= cfg.maxRetries && cfg.hasBreaker && !answers(k).admitted && r.result == Err(CircuitOpen))
              || (k <= cfg.maxRetries && !answers(k).authenticated && r.result == Err(AuthFailed))
  {
    RunIsExplained(cfg, Idempotent, answers, 0);
    hide From, PausesFit, Verdicts;
  }

  /** Without a key the same holds of a failure to connect, and of nothing else: any other failure ends the run at once. */
  lemma KeylessGivesUpOnlyWhenSpent(cfg: Config, answers: nat -> Answer)
    ensures var r := From(cfg, NonIdempotent, answers, 0);
            var k := |r.sent|;
            && (k > 0 && r.sent[k - 1].Failed? && r.sent[k - 1].error.connect ==>
                  || (k == cfg.maxRetries + 1 && r.result.Err?)
                  || (k <= cfg.maxRetries && cfg.hasBreaker && !answers(k).admitted && r.result == Err(CircuitOpen))
                  || (k <= cfg.maxRetries && !answers(k).authenticated && r.result == Err(AuthFailed)))
            && (forall i :: 0 <= i < k && (r.sent[i].Response? || !r.sent[i].error.connect) ==> i == k - 1 && |r.pauses| == k - 1)
  {
    RunIsExplained(cfg, NonIdempotent, answers, 0);
    hide From, PausesFit, Verdicts;
  }
}
