/**
 The retry loop on a circuit breaker that it shares with other callers: each attempt asks
 the breaker, and each outcome is reported back to it.
 */
module GuardedClient {
  import opened Wrappers
  import opened RetryClient
  import CB = CircuitBreaker
  import Verdicts = RetryVerdicts

  /**
   When one attempt asks the breaker and when it reports, and what other callers do to
   the breaker before it asks and while its request is under way.
   */
  datatype Moment = Moment(before: seq<CB.Event>, asked: int, during: seq<CB.Event>, settled: int)

  function Told(report: seq<Report>, at: int): seq<CB.Event> {
    if report == [] then [] else if report[0] == Healthy then [CB.Success(at)] else [CB.Failure(at)]
  }

  predicate Admits(bcfg: CB.Config, s: CB.Internal, m: Moment) {
    CB.AcquireNext(bcfg, CB.Run(bcfg, s, m.before), m.asked).1
  }

  /** What the breaker sees during one attempt that finds it in state `s`. */
  function Attempted(cfg: Config, bcfg: CB.Config, s: CB.Internal, m: Moment, a: Answer): seq<CB.Event> {
    m.before + [CB.Acquire(m.asked)]
    + (if Admits(bcfg, s, m) then m.during + Told(ReportOf(cfg, a), m.settled) else [])
  }

  /** What the breaker sees during the first `n` attempts. */
  function Trace(cfg: Config, bcfg: CB.Config, s: CB.Internal, answers: nat -> Answer, moments: nat -> Moment, n: nat)
    : seq<CB.Event>
  {
    if n == 0 then []
    else
      var front := Trace(cfg, bcfg, s, answers, moments, n - 1);
      front + Attempted(cfg, bcfg, CB.Run(bcfg, s, front), moments(n - 1), answers(n - 1))
  }

  /** The breaker as attempt `n` finds it. */
  function StateAt(cfg: Config, bcfg: CB.Config, s: CB.Internal, answers: nat -> Answer, moments: nat -> Moment, n: nat)
    : CB.Internal
  {
    CB.Run(bcfg, s, Trace(cfg, bcfg, s, answers, moments, n))
  }

  /** The outside world's answers, with admission decided by the breaker. */
  function Guarded(cfg: Config, bcfg: CB.Config, s: CB.Internal, answers: nat -> Answer, moments: nat -> Moment)
    : nat -> Answer
  {
    (i: nat) => answers(i).(admitted := Admits(bcfg, StateAt(cfg, bcfg, s, answers, moments, i), moments(i)))
  }

  lemma GuardedIs(cfg: Config, bcfg: CB.Config, s: CB.Internal, answers: nat -> Answer, moments: nat -> Moment, n: nat)
    ensures var h, a := Guarded(cfg, bcfg, s, answers, moments)(n), answers(n);
            && h.authenticated == a.authenticated && h.outcome == a.outcome && h.nanos == a.nanos
            && h.admitted == Admits(bcfg, StateAt(cfg, bcfg, s, answers, moments, n), moments(n))
            && ReportOf(cfg, h) == ReportOf(cfg, a) && Pause(cfg, n, h) == Pause(cfg, n, a)
  {
    hide StateAt, Admits, RetryAfterMs, BackoffMs;
  }

  /** The attempts that asked the breaker. */
  function Tried(r: Run): nat {
    Attempts(r) + if r.result == Err(CircuitOpen) then 1 else 0
  }

  lemma {:induction false} RunAppend(bcfg: CB.Config, s: CB.Internal, a: seq<CB.Event>, b: seq<CB.Event>)
    ensures CB.Run(bcfg, s, a + b) == CB.Run(bcfg, CB.Run(bcfg, s, a), b)
    decreases |a|
  {
    hide CB.Next;
    if a == [] {
      assert a + b == b;
    } else {
      assert (a + b)[1..] == a[1..] + b;
      RunAppend(bcfg, CB.Next(bcfg, s, a[0]), a[1..], b);
    }
  }

  lemma RunOne(bcfg: CB.Config, s: CB.Internal, e: CB.Event)
    ensures CB.Run(bcfg, s, [e]) == CB.Next(bcfg, s, e)
  {
    hide CB.Next;
    assert [e][1..] == [];
  }

  /** One attempt, seen from the breaker: what others did, the question, what others did, the report. */
  lemma AttemptedState(cfg: Config, bcfg: CB.Config, s: CB.Internal, m: Moment, a: Answer)
    ensures var met := CB.Run(bcfg, s, m.before);
            var (asked, admitted) := CB.AcquireNext(bcfg, met, m.asked);
            CB.Run(bcfg, s, Attempted(cfg, bcfg, s, m, a))
            == if admitted then CB.Run(bcfg, CB.Run(bcfg, asked, m.during), Told(ReportOf(cfg, a), m.settled)) else asked
  {
    hide CB.Run, CB.AcquireNext, ReportOf, Told;
    var met := CB.Run(bcfg, s, m.before);
    RunAppend(bcfg, s, m.before, [CB.Acquire(m.asked)]);
    RunOne(bcfg, met, CB.Acquire(m.asked));
    if Admits(bcfg, s, m) {
      var told := Told(ReportOf(cfg, a), m.settled);
      RunAppend(bcfg, s, m.before + [CB.Acquire(m.asked)], m.during + told);
      RunAppend(bcfg, CB.Run(bcfg, s, m.before + [CB.Acquire(m.asked)]), m.during, told);
    } else {
      assert m.before + [CB.Acquire(m.asked)] + [] == m.before + [CB.Acquire(m.asked)];
    }
  }

  lemma NextState(cfg: Config, bcfg: CB.Config, s: CB.Internal, answers: nat -> Answer, moments: nat -> Moment, n: nat)
    ensures StateAt(cfg, bcfg, s, answers, moments, 0) == s
    ensures var now := StateAt(cfg, bcfg, s, answers, moments, n);
            StateAt(cfg, bcfg, s, answers, moments, n + 1)
            == CB.Run(bcfg, now, Attempted(cfg, bcfg, now, moments(n), answers(n)))
  {
    hide Attempted;
    var front := Trace(cfg, bcfg, s, answers, moments, n);
    RunAppend(bcfg, s, front, Attempted(cfg, bcfg, CB.Run(bcfg, s, front), moments(n), answers(n)));
  }

  /** What other callers do to the breaker. */
  method Others(breaker: CB.Breaker, events: seq<CB.Event>)
    modifies breaker
    ensures breaker.state == CB.Run(breaker.config, old(breaker.state), events)
  {
    var i := 0;
    assert events[0..] == events;
    while i < |events|
      invariant 0 <= i <= |events|
      invariant CB.Run(breaker.config, old(breaker.state), events) == CB.Run(breaker.config, breaker.state, events[i..])
    {
      assert events[i..][1..] == events[i + 1..];
      match events[i] {
        case Acquire(at) =>
          var _ := breaker.Acquire(at);
        case Success(_) =>
          breaker.OnSuccess();
        case Failure(at) =>
          breaker.OnFailure(at);
      }
      i := i + 1;
    }
  }

  /** Tell the breaker about one attempt. */
  method Settle(breaker: CB.Breaker, report: seq<Report>, at: int)
    requires |report| <= 1
    modifies breaker
    ensures breaker.state == CB.Run(breaker.config, old(breaker.state), Told(report, at))
  {
    if report != [] {
      if report[0] == Healthy {
        RunOne(breaker.config, breaker.state, CB.Success(at));
        breaker.OnSuccess();
      } else {
        RunOne(breaker.config, breaker.state, CB.Failure(at));
        breaker.OnFailure(at);
      }
    }
  }

  /** Ask the breaker, when there is one. */
  method Ask(breaker: CB.Breaker?, m: Moment) returns (admitted: bool)
    modifies breaker
    ensures breaker == null ==> admitted
    ensures breaker != null ==>
              && admitted == Admits(breaker.config, old(breaker.state), m)
              && breaker.state == CB.AcquireNext(breaker.config, CB.Run(breaker.config, old(breaker.state), m.before), m.asked).0
  {
    if breaker == null {
      return true;
    }
    Others(breaker, m.before);
    admitted := breaker.Acquire(m.asked);
  }

  /** Report an admitted attempt, when there is a breaker. */
  method Report(breaker: CB.Breaker?, m: Moment, report: seq<Report>)
    requires |report| <= 1
    modifies breaker
    ensures breaker != null ==>
              breaker.state == CB.Run(breaker.config, CB.Run(breaker.config, old(breaker.state), m.during), Told(report, m.settled))
  {
    if breaker != null {
      Others(breaker, m.during);
      Settle(breaker, report, m.settled);
    }
  }

  /** What the loop hears: the breaker's own answers when there is one. */
  ghost function Heard(breaker: CB.Breaker?, s: CB.Internal, cfg: Config, answers: nat -> Answer, moments: nat -> Moment)
    : nat -> Answer
  {
    if breaker == null then answers else Guarded(cfg, breaker.config, s, answers, moments)
  }

  lemma HeardIs(breaker: CB.Breaker?, s: CB.Internal, cfg: Config, answers: nat -> Answer, moments: nat -> Moment, n: nat)
    ensures var h, a := Heard(breaker, s, cfg, answers, moments)(n), answers(n);
            && h.authenticated == a.authenticated && h.outcome == a.outcome && h.nanos == a.nanos
            && (breaker != null ==>
                  h.admitted == Admits(breaker.config, StateAt(cfg, breaker.config, s, answers, moments, n), moments(n)))
            && ReportOf(cfg, h) == ReportOf(cfg, a) && Pause(cfg, n, h) == Pause(cfg, n, a)
  {
    if breaker != null {
      GuardedIs(cfg, breaker.config, s, answers, moments, n);
    }
    hide Guarded;
  }

  /** The breaker after one attempt is the breaker the next one finds. */
  lemma StateAfter(cfg: Config, bcfg: CB.Config, s: CB.Internal, answers: nat -> Answer, moments: nat -> Moment, n: nat)
    ensures StateAt(cfg, bcfg, s, answers, moments, 0) == s
    ensures var now, m := StateAt(cfg, bcfg, s, answers, moments, n), moments(n);
            var asked := CB.AcquireNext(bcfg, CB.Run(bcfg, now, m.before), m.asked).0;
            StateAt(cfg, bcfg, s, answers, moments, n + 1)
            == if Admits(bcfg, now, m)
               then CB.Run(bcfg, CB.Run(bcfg, asked, m.during), Told(ReportOf(cfg, answers(n)), m.settled))
               else asked
  {
    NextState(cfg, bcfg, s, answers, moments, n);
    AttemptedState(cfg, bcfg, StateAt(cfg, bcfg, s, answers, moments, n), moments(n), answers(n));
    hide StateAt, Attempted, CB.Run, CB.AcquireNext, Told, ReportOf;
  }

  /** How the run ends when attempt `n` is its last one. */
  lemma RunEnds(cfg: Config, policy: Policy, heard: nat -> Answer, n: nat, sent: seq<Outcome>, pauses: seq<nat>,
                reports: seq<Report>)
    requires n <= cfg.maxRetries && !Continues(cfg, policy, heard(n), n)
    requires From(cfg, policy, heard, 0) == After(sent, pauses, reports, From(cfg, policy, heard, n))
    ensures var r, a := From(cfg, policy, heard, 0), heard(n);
            r == if cfg.hasBreaker && !a.admitted then Run(Err(CircuitOpen), sent, pauses, reports)
                 else if !a.authenticated then Run(Err(AuthFailed), sent, pauses, reports + ReportOf(cfg, a))
                 else Run(if a.outcome.Response? && IsSuccess(a.outcome.status) then Ok(a.outcome) else Err(ErrorOf(a.outcome)),
                          sent + [a.outcome], pauses, reports + ReportOf(cfg, a))
  {
    var a, rest := heard(n), From(cfg, policy, heard, n);
    hide IsSuccess, Retryable, ReportOf, ErrorOf, Pause;
    assert sent + [] == sent && pauses + [] == pauses && reports + [] == reports;
  }

  /** The run so far when another attempt follows attempt `n`. */
  lemma RunGoesOn(cfg: Config, policy: Policy, heard: nat -> Answer, n: nat, sent: seq<Outcome>, pauses: seq<nat>,
                  reports: seq<Report>)
    requires n <= cfg.maxRetries && Continues(cfg, policy, heard(n), n)
    requires From(cfg, policy, heard, 0) == After(sent, pauses, reports, From(cfg, policy, heard, n))
    ensures n < cfg.maxRetries
    ensures From(cfg, policy, heard, 0)
         == After(sent + [heard(n).outcome], pauses + [Pause(cfg, n, heard(n))], reports + ReportOf(cfg, heard(n)),
                  From(cfg, policy, heard, n + 1))
  {
    ContinuesMeans(cfg, policy, heard(n), n);
    hide From, Continues, ReportOf, Pause, After;
    Continued(cfg, policy, heard, n);
    AfterAppended(sent, pauses, reports, [heard(n).outcome], [Pause(cfg, n, heard(n))], ReportOf(cfg, heard(n)),
                  From(cfg, policy, heard, n + 1));
  }

  /**
   The loop as it runs on a breaker that other callers use too: it does what the retry
   loop does with the breaker's own answers, and leaves the breaker as all these calls
   leave it.
   */
  method ExecuteWithRetry(breaker: CB.Breaker?, cfg: Config, policy: Policy, answers: nat -> Answer, moments: nat -> Moment)
    returns (result: Result<Outcome, ClientError>, sent: seq<Outcome>, pauses: seq<nat>, reports: seq<Report>)
    requires cfg.hasBreaker <==> breaker != null
    modifies breaker
    ensures breaker == null ==>
              var r := Run(result, sent, pauses, reports);
              r == From(cfg, policy, answers, 0) && Verdicts.Explains(cfg, policy, answers, 0, r)
    ensures breaker != null ==>
              var r := Run(result, sent, pauses, reports);
              && r == From(cfg, policy, Guarded(cfg, breaker.config, old(breaker.state), answers, moments), 0)
              && Verdicts.Explains(cfg, policy, Guarded(cfg, breaker.config, old(breaker.state), answers, moments), 0, r)
              && breaker.state == StateAt(cfg, breaker.config, old(breaker.state), answers, moments, Tried(r))
  {
    hide From, After, ReportOf, BackoffMs, RetryAfterMs, IsSuccess, StatusIsRetryable, Guarded, StateAt, Admits, Told,
         CB.Run, CB.AcquireNext, Verdicts.Explains;
    ghost var s := if breaker == null then CB.Closed(0) else breaker.state;
    ghost var heard := Heard(breaker, s, cfg, answers, moments);
    Verdicts.RunIsExplained(cfg, policy, heard, 0);
    sent, pauses, reports := [], [], [];
    AfterNothing(From(cfg, policy, heard, 0));
    if breaker != null {
      StateAfter(cfg, breaker.config, s, answers, moments, 0);
    }
    var lastError: Option<ClientError> := None;
    var attempt := 0;
    while attempt <= cfg.maxRetries
      invariant 0 <= attempt <= cfg.maxRetries && |sent| == attempt
      invariant From(cfg, policy, heard, 0) == After(sent, pauses, reports, From(cfg, policy, heard, attempt))
      invariant breaker != null ==> breaker.state == StateAt(cfg, breaker.config, s, answers, moments, attempt)
      decreases cfg.maxRetries - attempt
    {
      var a := answers(attempt);
      HeardIs(breaker, s, cfg, answers, moments, attempt);
      if breaker != null {
        StateAfter(cfg, breaker.config, s, answers, moments, attempt);
      }
      var admitted := Ask(breaker, moments(attempt));
      if !admitted {
        RunEnds(cfg, policy, heard, attempt, sent, pauses, reports);
        return Err(CircuitOpen), sent, pauses, reports;
      }
      if !a.authenticated {
        var report: seq<RetryClient.Report> := if cfg.hasBreaker then [Unhealthy] else [];
        AuthReport(cfg, a);
        Report(breaker, moments(attempt), report);
        RunEnds(cfg, policy, heard, attempt, sent, pauses, reports);
        return Err(AuthFailed), sent, pauses, reports + report;
      }
      var report := ReportOutcome(cfg, a);
      Report(breaker, moments(attempt), report);
      if a.outcome.Response? && IsSuccess(a.outcome.status) {
        RunEnds(cfg, policy, heard, attempt, sent, pauses, reports);
        return Ok(a.outcome), sent + [a.outcome], pauses, reports + report;
      }
      lastError := Some(ErrorOf(a.outcome));
      if !Retryable(policy, a.outcome) || attempt >= cfg.maxRetries {
        RunEnds(cfg, policy, heard, attempt, sent, pauses, reports);
        sent, reports := sent + [a.outcome], reports + report;
        break;
      }
      RunGoesOn(cfg, policy, heard, attempt, sent, pauses, reports);
      var retryAfter := RetryAfterMs(a.outcome);
      var pause := if retryAfter.Some? then retryAfter.value else BackoffMs(cfg, attempt, a.nanos);
      sent, pauses, reports := sent + [a.outcome], pauses + [pause], reports + report;
      attempt := attempt + 1;
    }
    result := Err(if lastError.Some? then lastError.value else NoResponse);
  }

  // ---- Properties of every guarded run -----------------------------------------------------

  /** One failure more, or an open circuit from this moment on. */
  predicate OneWorse(bcfg: CB.Config, s: CB.Internal, v: CB.Internal, at: int) {
    if s.Closed? && s.consecutiveFailures + 1 < bcfg.failureThreshold then v == CB.Closed(s.consecutiveFailures + 1)
    else v == CB.Open(at + bcfg.openDuration)
  }

  /**
   What one attempt leaves: a refused one nothing but what others did; a healthy answer a
   closed circuit with no failures; an ailing one, or a failed authentication, one failure
   more; and any other failure to send what others left meanwhile.
   */
  lemma AttemptLeaves(cfg: Config, bcfg: CB.Config, s: CB.Internal, answers: nat -> Answer, moments: nat -> Moment, n: nat)
    requires cfg.hasBreaker && bcfg.enabled && bcfg.failureThreshold <= CB.U32_MAX
    ensures var now, next := StateAt(cfg, bcfg, s, answers, moments, n), StateAt(cfg, bcfg, s, answers, moments, n + 1);
            var (a, m) := (answers(n), moments(n));
            var (asked, admitted) := CB.AcquireNext(bcfg, CB.Run(bcfg, now, m.before), m.asked);
            var met := CB.Run(bcfg, asked, m.during);
            && (!admitted ==> next == CB.Run(bcfg, now, m.before))
            && (admitted && a.authenticated && a.outcome.Response? && !Verdicts.Ails(a.outcome) ==> next == CB.Closed(0))
            && (admitted && (!a.authenticated || Verdicts.Ails(a.outcome)) ==> OneWorse(bcfg, met, next, m.settled))
            && (admitted && a.authenticated && a.outcome.Failed? && !Verdicts.Ails(a.outcome) ==> next == met)
  {
    var now, a, m := StateAt(cfg, bcfg, s, answers, moments, n), answers(n), moments(n);
    StateAfter(cfg, bcfg, s, answers, moments, n);
    Verdicts.Judged(cfg, Idempotent, a);
    var asked := CB.AcquireNext(bcfg, CB.Run(bcfg, now, m.before), m.asked).0;
    var met := CB.Run(bcfg, asked, m.during);
    RunOne(bcfg, met, CB.Success(m.settled));
    RunOne(bcfg, met, CB.Failure(m.settled));
    assert CB.Run(bcfg, met, []) == met;
    hide StateAt, CB.Run, ReportOf, Verdicts.Ails;
  }

  /** A refused run was refused by the answer to its first attempt that sent nothing. */
  lemma {:induction false} RefusedAt(cfg: Config, policy: Policy, heard: nat -> Answer, n: nat)
    requires n <= cfg.maxRetries && From(cfg, policy, heard, n).result == Err(CircuitOpen)
    ensures var k := n + |From(cfg, policy, heard, n).sent|;
            cfg.hasBreaker && k <= cfg.maxRetries && !heard(k).admitted
    decreases cfg.maxRetries - n
  {
    hide From, Retryable, IsSuccess, Pause, ReportOf;
    if Continues(cfg, policy, heard(n), n) {
      Continued(cfg, policy, heard, n);
      RefusedAt(cfg, policy, heard, n + 1);
    } else {
      Stopped(cfg, policy, heard, n);
    }
  }

  /**
   No needless refusal: a run ends with an open circuit only if, counting this run's own
   reports and those of all other callers, at least the threshold of failures has been
   reported since the last success, and the breaker's window has not passed.
   */
  lemma RefusedOnlyPastThreshold(cfg: Config, bcfg: CB.Config, s: CB.Internal, failures: nat, policy: Policy,
                                 answers: nat -> Answer, moments: nat -> Moment)
    requires bcfg.failureThreshold <= CB.U32_MAX && CB.Reflects(bcfg, s, failures)
    ensures var r := From(cfg, policy, Guarded(cfg, bcfg, s, answers, moments), 0);
            var k := |r.sent|;
            var seen := Trace(cfg, bcfg, s, answers, moments, k) + moments(k).before;
            r.result == Err(CircuitOpen) ==>
              && bcfg.enabled && CB.FailuresSince(failures, seen) >= CB.Effective(bcfg)
              && var met := CB.Run(bcfg, s, seen); !met.Closed? && moments(k).asked < met.until
  {
    var heard := Guarded(cfg, bcfg, s, answers, moments);
    var r := From(cfg, policy, heard, 0);
    if r.result == Err(CircuitOpen) {
      RefusedAt(cfg, policy, heard, 0);
      var k := |r.sent|;
      var front := Trace(cfg, bcfg, s, answers, moments, k);
      hide From, Trace, CB.Run, CB.FailuresSince;
      RunAppend(bcfg, s, front, moments(k).before);
      assert !Admits(bcfg, StateAt(cfg, bcfg, s, answers, moments, k), moments(k));
      CB.ReflectsHistory(bcfg, s, failures, front + moments(k).before);
    }
  }

  /** Other callers report no success, and everybody's clock stays in this window. */
  predicate Quiet(events: seq<CB.Event>, from: int, end: int) {
    forall i :: 0 <= i < |events| ==> !events[i].Success? && from <= events[i].at < end
  }

  predicate Within(m: Moment, from: int, end: int) {
    Quiet(m.before, from, end) && Quiet(m.during, from, end) && from <= m.asked < end && from <= m.settled < end
  }

  /** At least this many failures have been counted, or the circuit is open until the end of the window. */
  predicate Worn(bcfg: CB.Config, s: CB.Internal, failures: nat, end: int) {
    match s
    case Closed(n) => failures <= n < CB.Effective(bcfg)
    case Open(until) => until >= end
    case HalfOpen(_) => false
  }

  lemma FailureWears(bcfg: CB.Config, s: CB.Internal, failures: nat, at: int, end: int)
    requires bcfg.enabled && bcfg.failureThreshold <= CB.U32_MAX && at + bcfg.openDuration >= end
    requires Worn(bcfg, s, failures, end)
    ensures Worn(bcfg, CB.FailureNext(bcfg, s, at), failures + 1, end)
  {
  }

  lemma WornWeakens(bcfg: CB.Config, s: CB.Internal, failures: nat, more: nat, end: int)
    requires Worn(bcfg, s, more, end) && failures <= more
    ensures Worn(bcfg, s, failures, end)
  {
  }

  lemma {:induction false} QuietKeepsWorn(bcfg: CB.Config, s: CB.Internal, failures: nat, events: seq<CB.Event>, from: int, end: int)
    requires bcfg.enabled && bcfg.failureThreshold <= CB.U32_MAX && from + bcfg.openDuration >= end
    requires Worn(bcfg, s, failures, end) && Quiet(events, from, end)
    ensures Worn(bcfg, CB.Run(bcfg, s, events), failures, end)
    decreases |events|
  {
    if events != [] {
      var e := events[0];
      assert forall i :: 0 <= i < |events| - 1 ==> events[1..][i] == events[i + 1];
      if e.Failure? {
        FailureWears(bcfg, s, failures, e.at, end);
        WornWeakens(bcfg, CB.FailureNext(bcfg, s, e.at), failures, failures + 1, end);
      }
      QuietKeepsWorn(bcfg, CB.Next(bcfg, s, e), failures, events[1..], from, end);
    }
  }

  /** A failing attempt inside the window leaves the breaker one failure further, unless it was refused. */
  lemma AttemptWears(cfg: Config, bcfg: CB.Config, s: CB.Internal, answers: nat -> Answer, moments: nat -> Moment, n: nat,
                     failures: nat, from: int, end: int)
    requires bcfg.enabled && bcfg.failureThreshold <= CB.U32_MAX && from + bcfg.openDuration >= end
    requires Within(moments(n), from, end) && ReportOf(cfg, answers(n)) == [Unhealthy]
    requires Worn(bcfg, StateAt(cfg, bcfg, s, answers, moments, n), failures, end)
    ensures Admits(bcfg, StateAt(cfg, bcfg, s, answers, moments, n), moments(n)) ==>
              failures < CB.Effective(bcfg) && Worn(bcfg, StateAt(cfg, bcfg, s, answers, moments, n + 1), failures + 1, end)
  {
    var now, m := StateAt(cfg, bcfg, s, answers, moments, n), moments(n);
    StateAfter(cfg, bcfg, s, answers, moments, n);
    hide StateAt, CB.Run, ReportOf, Quiet;
    QuietKeepsWorn(bcfg, now, failures, m.before, from, end);
    if Admits(bcfg, now, m) {
      var asked := CB.AcquireNext(bcfg, CB.Run(bcfg, now, m.before), m.asked).0;
      QuietKeepsWorn(bcfg, asked, failures, m.during, from, end);
      var met := CB.Run(bcfg, asked, m.during);
      RunOne(bcfg, met, CB.Failure(m.settled));
      FailureWears(bcfg, met, failures, m.settled, end);
    }
  }

  /** Every attempt of this run fails inside the window, and so does everything others report. */
  ghost predicate AllFail(cfg: Config, answers: nat -> Answer, moments: nat -> Moment, from: int, end: int) {
    forall i: nat :: i <= cfg.maxRetries ==> Within(moments(i), from, end) && ReportOf(cfg, answers(i)) == [Unhealthy]
  }

  lemma FailsAt(cfg: Config, answers: nat -> Answer, moments: nat -> Moment, from: int, end: int, n: nat)
    requires AllFail(cfg, answers, moments, from, end) && n <= cfg.maxRetries
    ensures Within(moments(n), from, end) && ReportOf(cfg, answers(n)) == [Unhealthy]
  {
  }

  /**
   Cut off: inside one open window, with every attempt failing and no other caller
   reporting success, a run gets no more attempts than the failures that were missing to
   the threshold, however many retries it is allowed and whatever others do.
   */
  lemma {:induction false} CutOff(cfg: Config, bcfg: CB.Config, s: CB.Internal, policy: Policy, answers: nat -> Answer,
                                  moments: nat -> Moment, n: nat, failures: nat, from: int, end: int)
    requires cfg.hasBreaker && bcfg.enabled && bcfg.failureThreshold <= CB.U32_MAX && from + bcfg.openDuration >= end
    requires n <= cfg.maxRetries && failures <= CB.Effective(bcfg)
    requires AllFail(cfg, answers, moments, from, end)
    requires Worn(bcfg, StateAt(cfg, bcfg, s, answers, moments, n), failures, end)
    ensures Attempts(From(cfg, policy, Guarded(cfg, bcfg, s, answers, moments), n)) <= CB.Effective(bcfg) - failures
    decreases cfg.maxRetries - n
  {
    hide *;
    var heard := Guarded(cfg, bcfg, s, answers, moments);
    FailsAt(cfg, answers, moments, from, end, n);
    AttemptWears(cfg, bcfg, s, answers, moments, n, failures, from, end);
    AttemptsCounted(cfg, policy, heard, n);
    GuardedIs(cfg, bcfg, s, answers, moments, n);
    if Continues(cfg, policy, heard(n), n) {
      ContinuesMeans(cfg, policy, heard(n), n);
      CutOff(cfg, bcfg, s, policy, answers, moments, n + 1, failures + 1, from, end);
    }
  }

  /** Nobody else uses the breaker, and every attempt fails in a way that may be repeated. */
  ghost predicate AloneAndRetryable(cfg: Config, policy: Policy, answers: nat -> Answer, moments: nat -> Moment) {
    forall i: nat :: i <= cfg.maxRetries ==>
      && moments(i).before == [] && moments(i).during == [] && answers(i).authenticated
      && Retryable(policy, answers(i).outcome)
      && !(answers(i).outcome.Response? && IsSuccess(answers(i).outcome.status))
  }

  lemma AloneAt(cfg: Config, policy: Policy, answers: nat -> Answer, moments: nat -> Moment, n: nat)
    requires AloneAndRetryable(cfg, policy, answers, moments) && n <= cfg.maxRetries
    ensures moments(n).before == [] && moments(n).during == [] && answers(n).authenticated
    ensures Retryable(policy, answers(n).outcome) && !(answers(n).outcome.Response? && IsSuccess(answers(n).outcome.status))
  {
  }

  /** Alone, the breaker counts this run's failures and opens when the threshold is met. */
  lemma {:induction false} AloneCounts(cfg: Config, bcfg: CB.Config, policy: Policy, answers: nat -> Answer,
                                       moments: nat -> Moment, had: nat, n: nat, from: int, end: int)
    requires bcfg.enabled && bcfg.failureThreshold <= CB.U32_MAX && from + bcfg.openDuration >= end
    requires AllFail(cfg, answers, moments, from, end) && AloneAndRetryable(cfg, policy, answers, moments)
    requires had + n <= CB.Effective(bcfg) && had < CB.Effective(bcfg) && n <= cfg.maxRetries + 1
    ensures var now := StateAt(cfg, bcfg, CB.Closed(had), answers, moments, n);
            if had + n < CB.Effective(bcfg) then now == CB.Closed(had + n) else now.Open? && now.until >= end
  {
    hide AllFail, AloneAndRetryable, StateAt, ReportOf, Retryable, Within, CB.Run;
    var s := CB.Closed(had);
    if n == 0 {
      StateAfter(cfg, bcfg, s, answers, moments, 0);
    } else {
      AloneCounts(cfg, bcfg, policy, answers, moments, had, n - 1, from, end);
      FailsAt(cfg, answers, moments, from, end, n - 1);
      AloneAt(cfg, policy, answers, moments, n - 1);
      AloneFailure(bcfg, had + (n - 1), moments(n - 1));
      SettledInside(moments(n - 1), from, end);
      StateAfter(cfg, bcfg, s, answers, moments, n - 1);
    }
  }

  lemma SettledInside(m: Moment, from: int, end: int)
    requires Within(m, from, end)
    ensures from <= m.settled && m.asked < end
  {
  }

  lemma AloneFailure(bcfg: CB.Config, n: nat, m: Moment)
    requires bcfg.enabled && m.before == [] && m.during == []
    ensures CB.Run(bcfg, CB.Closed(n), m.before) == CB.Closed(n)
    ensures CB.AcquireNext(bcfg, CB.Closed(n), m.asked) == (CB.Closed(n), true) && Admits(bcfg, CB.Closed(n), m)
    ensures CB.Run(bcfg, CB.Run(bcfg, CB.Closed(n), m.during), Told([Unhealthy], m.settled))
         == CB.FailureNext(bcfg, CB.Closed(n), m.settled)
  {
    RunOne(bcfg, CB.Closed(n), CB.Failure(m.settled));
  }

  lemma OpenRefuses(bcfg: CB.Config, s: CB.Internal, m: Moment, from: int, end: int)
    requires bcfg.enabled && s.Open? && s.until >= end && Within(m, from, end) && m.before == []
    ensures !Admits(bcfg, s, m)
  {
  }

  lemma AloneStep(cfg: Config, bcfg: CB.Config, policy: Policy, answers: nat -> Answer, moments: nat -> Moment,
                  had: nat, n: nat, from: int, end: int)
    requires bcfg.enabled && bcfg.failureThreshold <= CB.U32_MAX && from + bcfg.openDuration >= end
    requires AllFail(cfg, answers, moments, from, end) && AloneAndRetryable(cfg, policy, answers, moments)
    requires had + n <= CB.Effective(bcfg) && had < CB.Effective(bcfg) && n <= cfg.maxRetries && cfg.hasBreaker
    ensures var a := Guarded(cfg, bcfg, CB.Closed(had), answers, moments)(n);
            && a.authenticated && (a.admitted <==> had + n < CB.Effective(bcfg))
            && (Continues(cfg, policy, a, n) <==> had + n < CB.Effective(bcfg) && n < cfg.maxRetries)
  {
    AloneCounts(cfg, bcfg, policy, answers, moments, had, n, from, end);
    FailsAt(cfg, answers, moments, from, end, n);
    AloneAt(cfg, policy, answers, moments, n);
    GuardedIs(cfg, bcfg, CB.Closed(had), answers, moments, n);
    hide AllFail, AloneAndRetryable, StateAt, Admits, ReportOf, Retryable, IsSuccess, Within, Guarded;
    if had + n < CB.Effective(bcfg) {
      AloneFailure(bcfg, had + n, moments(n));
    } else {
      OpenRefuses(bcfg, StateAt(cfg, bcfg, CB.Closed(had), answers, moments, n), moments(n), from, end);
    }
  }

  /**
   Trips exactly: alone on a closed breaker with `had` failures counted, and all within
   one window, a run whose every attempt fails makes as many requests as failures were
   missing to the threshold, or all it is allowed if that is fewer; and it ends with an
   open circuit exactly when the threshold cut it short.
   */
  lemma {:induction false} TripsExactly(cfg: Config, bcfg: CB.Config, policy: Policy, answers: nat -> Answer,
                                        moments: nat -> Moment, had: nat, n: nat, from: int, end: int)
    requires cfg.hasBreaker && bcfg.enabled && bcfg.failureThreshold <= CB.U32_MAX && from + bcfg.openDuration >= end
    requires AllFail(cfg, answers, moments, from, end) && AloneAndRetryable(cfg, policy, answers, moments)
    requires had + n <= CB.Effective(bcfg) && had < CB.Effective(bcfg) && n <= cfg.maxRetries
    ensures var r := From(cfg, policy, Guarded(cfg, bcfg, CB.Closed(had), answers, moments), n);
            && |r.sent| == (if CB.Effective(bcfg) - had <= cfg.maxRetries then CB.Effective(bcfg) - had - n
                            else cfg.maxRetries + 1 - n)
            && (r.result == Err(CircuitOpen) <==> CB.Effective(bcfg) - had <= cfg.maxRetries)
    decreases cfg.maxRetries - n
  {
    hide *;
    var heard := Guarded(cfg, bcfg, CB.Closed(had), answers, moments);
    AloneStep(cfg, bcfg, policy, answers, moments, had, n, from, end);
    SentCounted(cfg, policy, heard, n);
    if had + n < CB.Effective(bcfg) && n < cfg.maxRetries {
      TripsExactly(cfg, bcfg, policy, answers, moments, had, n + 1, from, end);
    }
  }
}
