/** The per-provider circuit breaker: a timed three-state machine. */
module CircuitBreaker {
  import opened Arithmetic

  datatype CircuitState = ClosedCircuit | OpenCircuit | HalfOpenCircuit

  const U32_MAX := 0xFFFF_FFFF

  datatype Config = Config(enabled: bool, failureThreshold: nat, openDuration: nat, probeTimeout: nat)

  datatype Internal =
    | Closed(consecutiveFailures: nat)
    | Open(until: int)
    | HalfOpen(until: int)

  /** State after asking permission at time `now`, and whether it was given. */
  function AcquireNext(cfg: Config, s: Internal, now: int): (Internal, bool) {
    if !cfg.enabled then (s, true) else
      match s
      case Closed(_) => (s, true)
      case HalfOpen(until) => if now >= until then (HalfOpen(now + cfg.probeTimeout), true) else (s, false)
      case Open(until) => if now >= until then (HalfOpen(now + cfg.probeTimeout), true) else (s, false)
  }

  function SuccessNext(cfg: Config, s: Internal): Internal {
    if cfg.enabled then Closed(0) else s
  }

  function FailureNext(cfg: Config, s: Internal, now: int): Internal {
    if !cfg.enabled then s else
      match s
      case Closed(n) =>
        var failures := if n < U32_MAX then n + 1 else U32_MAX;
        if failures >= cfg.failureThreshold then Open(now + cfg.openDuration) else Closed(failures)
      case _ => Open(now + cfg.openDuration)
  }

  /** One breaker shared by every call to a provider. */
  class Breaker {
    const config: Config
    var state: Internal

    constructor (config: Config)
      ensures this.config == config && state == Closed(0)
    {
      this.config := config;
      state := Closed(0);
    }

    /** The observable state; an elapsed open window already shows as half-open. */
    method State(now: int) returns (r: CircuitState)
      ensures r == ClosedCircuit <==> state.Closed?
      ensures r == OpenCircuit <==> state.Open? && now < state.until
    {
      match state {
        case Closed(_) => r := ClosedCircuit;
        case HalfOpen(_) => r := HalfOpenCircuit;
        case Open(until) => r := if now >= until then HalfOpenCircuit else OpenCircuit;
      }
    }

    method Acquire(now: int) returns (admitted: bool)
      modifies this
      ensures (state, admitted) == AcquireNext(config, old(state), now)
    {
      if !config.enabled {
        return true;
      }
      match state {
        case Closed(_) =>
          admitted := true;
        case HalfOpen(until) =>
          admitted := now >= until;
          if admitted {
            state := HalfOpen(now + config.probeTimeout);
          }
        case Open(until) =>
          admitted := now >= until;
          if admitted {
            state := HalfOpen(now + config.probeTimeout);
          }
      }
    }

    method OnSuccess()
      modifies this
      ensures state == SuccessNext(config, old(state))
    {
      if config.enabled {
        state := Closed(0);
      }
    }

    method OnFailure(now: int)
      modifies this
      ensures state == FailureNext(config, old(state), now)
    {
      if !config.enabled {
        return;
      }
      var shouldOpen := true;
      if state.Closed? {
        var n := state.consecutiveFailures;
        var failures := if n < U32_MAX then n + 1 else U32_MAX;
        shouldOpen := failures >= config.failureThreshold;
        if !shouldOpen {
          state := Closed(failures);
        }
      }
      if shouldOpen {
        state := Open(now + config.openDuration);
      }
    }
  }

  // ---- Traces ---------------------------------------------------------------------------

  /** A call into the breaker, with the clock reading it saw. */
  datatype Event = Acquire(at: int) | Success(at: int) | Failure(at: int)

  function Next(cfg: Config, s: Internal, e: Event): Internal {
    match e
    case Acquire(at) => AcquireNext(cfg, s, at).0
    case Success(_) => SuccessNext(cfg, s)
    case Failure(at) => FailureNext(cfg, s, at)
  }

  function Run(cfg: Config, s: Internal, trace: seq<Event>): Internal
    decreases |trace|
  {
    if trace == [] then s else Run(cfg, Next(cfg, s, trace[0]), trace[1..])
  }

  /** Failures reported since the last success, counted from `n`. */
  function FailuresSince(n: nat, trace: seq<Event>): nat
    decreases |trace|
  {
    if trace == [] then n
    else FailuresSince(match trace[0] case Acquire(_) => n case Success(_) => 0 case Failure(_) => n + 1, trace[1..])
  }

  /** A threshold of zero behaves as one. */
  function Effective(cfg: Config): nat {
    if cfg.failureThreshold == 0 then 1 else cfg.failureThreshold
  }

  predicate Reflects(cfg: Config, s: Internal, failures: nat) {
    && (s.Closed? <==> failures < Effective(cfg))
    && (s.Closed? ==> s.consecutiveFailures == failures)
  }

  /**
   The breaker refines its history: after any calls whatever, it is closed exactly when
   fewer than the threshold failures were reported since the last success, and its
   counter is that number.
   */
  lemma {:induction false} ReflectsHistory(cfg: Config, s: Internal, failures: nat, trace: seq<Event>)
    requires cfg.enabled && cfg.failureThreshold <= U32_MAX
    requires Reflects(cfg, s, failures)
    ensures Reflects(cfg, Run(cfg, s, trace), FailuresSince(failures, trace))
    decreases |trace|
  {
    if trace != [] {
      var count := match trace[0] case Acquire(_) => failures case Success(_) => 0 case Failure(_) => failures + 1;
      ReflectsHistory(cfg, Next(cfg, s, trace[0]), count, trace[1..]);
    }
  }

  /** A disabled breaker admits every call and never changes. */
  lemma {:induction false} DisabledIsTransparent(cfg: Config, s: Internal, trace: seq<Event>, now: int)
    requires !cfg.enabled
    ensures Run(cfg, s, trace) == s && AcquireNext(cfg, s, now).1
    decreases |trace|
  {
    if trace != [] {
      DisabledIsTransparent(cfg, s, trace[1..], now);
    }
  }

  /** The clock never runs backwards. */
  predicate Monotone(from: int, trace: seq<Event>) {
    && (forall i :: 0 <= i < |trace| ==> from <= trace[i].at)
    && (forall i, j :: 0 <= i < j < |trace| ==> trace[i].at <= trace[j].at)
  }

  /** Times at which calls were let through, in order. */
  function Admissions(cfg: Config, s: Internal, trace: seq<Event>): seq<int>
    decreases |trace|
  {
    if trace == [] then [] else
      (match trace[0]
       case Acquire(at) => if AcquireNext(cfg, s, at).1 then [at] else []
       case _ => [])
      + Admissions(cfg, Next(cfg, s, trace[0]), trace[1..])
  }

  /**
   Rate bound, from any non-closed state whose window ends no earlier than one gap
   after `now`: without a success, admissions are at least a gap apart, however many
   failures are reported by stale calls.
   */
  lemma {:induction false} AdmissionsAreSpaced(cfg: Config, s: Internal, base: int, now: int, trace: seq<Event>)
    requires cfg.enabled && !s.Closed? && base <= now
    requires s.until >= base + Min(cfg.openDuration, cfg.probeTimeout)
    requires Monotone(now, trace) && forall e :: e in trace ==> !e.Success?
    ensures forall k :: 0 <= k < |Admissions(cfg, s, trace)| ==>
              Admissions(cfg, s, trace)[k] >= base + (k + 1) * Min(cfg.openDuration, cfg.probeTimeout)
    decreases |trace|
  {
    if trace != [] {
      var e, rest := trace[0], trace[1..];
      var gap := Min(cfg.openDuration, cfg.probeTimeout);
      var next := Next(cfg, s, e);
      assert e in trace;
      assert forall x :: x in rest ==> x in trace;
      assert Monotone(e.at, rest);
      if e.Acquire? && AcquireNext(cfg, s, e.at).1 {
        AdmissionsAreSpaced(cfg, next, base + gap, e.at, rest);
        var later := Admissions(cfg, next, rest);
        assert Admissions(cfg, s, trace) == [e.at] + later;
        forall k | 0 <= k < |[e.at] + later|
          ensures ([e.at] + later)[k] >= base + (k + 1) * gap
        {
          if k > 0 {
            assert later[k - 1] >= base + gap + k * gap;
            assert gap + k * gap == (k + 1) * gap;
          }
        }
      } else {
        AdmissionsAreSpaced(cfg, next, base, e.at, rest);
        assert Admissions(cfg, s, trace) == Admissions(cfg, next, rest);
      }
    }
  }

  /** After the failure that opens the circuit at `t0`, the k-th admission waits k gaps. */
  lemma RateBound(cfg: Config, before: Internal, t0: int, trace: seq<Event>)
    requires cfg.enabled && FailureNext(cfg, before, t0).Open?
    requires Monotone(t0, trace) && forall e :: e in trace ==> !e.Success?
    ensures var times := Admissions(cfg, FailureNext(cfg, before, t0), trace);
            forall k :: 0 <= k < |times| ==> times[k] >= t0 + (k + 1) * Min(cfg.openDuration, cfg.probeTimeout)
  {
    AdmissionsAreSpaced(cfg, FailureNext(cfg, before, t0), t0, t0, trace);
  }

  /** The clock reading after a trace. */
  function LastTime(from: int, trace: seq<Event>): int {
    if trace == [] then from else trace[|trace| - 1].at
  }

  lemma {:induction false} WindowsAreShort(cfg: Config, s: Internal, from: int, trace: seq<Event>)
    requires Monotone(from, trace)
    requires !s.Closed? ==> s.until <= from + Max(cfg.openDuration, cfg.probeTimeout)
    ensures var r := Run(cfg, s, trace);
            !r.Closed? ==> r.until <= LastTime(from, trace) + Max(cfg.openDuration, cfg.probeTimeout)
    decreases |trace|
  {
    if trace != [] {
      var rest := trace[1..];
      assert Monotone(trace[0].at, rest);
      assert LastTime(trace[0].at, rest) == LastTime(from, trace);
      WindowsAreShort(cfg, Next(cfg, s, trace[0]), trace[0].at, rest);
    }
  }

  /**
   Never wedged: from every reachable state, once the longer of the two windows has
   passed without events, the next call is admitted.
   */
  lemma NeverWedged(cfg: Config, from: int, trace: seq<Event>, now: int)
    requires Monotone(from, trace)
    requires now >= LastTime(from, trace) + Max(cfg.openDuration, cfg.probeTimeout)
    ensures AcquireNext(cfg, Run(cfg, Closed(0), trace), now).1
  {
    WindowsAreShort(cfg, Closed(0), from, trace);
  }

  /**
   A breaker that is not closed is one deadline: an admitted call moves it one probe window
   past itself, a failure one open window past itself, and nothing else does.
   */
  function Deadline(cfg: Config, gate: int, trace: seq<Event>): int
    decreases |trace|
  {
    if trace == [] then gate
    else
      var next := match trace[0]
                  case Acquire(at) => if at < gate then gate else at + cfg.probeTimeout
                  case Failure(at) => at + cfg.openDuration
                  case Success(_) => gate;
      Deadline(cfg, next, trace[1..])
  }

  /** From any state that is not closed, until the next success, a call is admitted exactly from the deadline on. */
  lemma {:induction false} NotClosedIsDeadline(cfg: Config, s: Internal, trace: seq<Event>, now: int)
    requires cfg.enabled && !s.Closed? && forall e :: e in trace ==> !e.Success?
    ensures var r := Run(cfg, s, trace);
            !r.Closed? && (AcquireNext(cfg, r, now).1 <==> now >= Deadline(cfg, s.until, trace))
    decreases |trace|
  {
    if trace != [] {
      assert trace[0] in trace && forall e :: e in trace[1..] ==> e in trace;
      NotClosedIsDeadline(cfg, Next(cfg, s, trace[0]), trace[1..], now);
    }
  }

  /**
   Admission, exactly: after any calls that leave the circuit closed, a failure that opens it
   shuts it for the open window, and from then until the next success each call is admitted
   if and only if the deadline that the earlier ones set has passed.
   */
  lemma AdmittedExactly(cfg: Config, before: Internal, t0: int, trace: seq<Event>, now: int)
    requires cfg.enabled && before.Closed? && before.consecutiveFailures + 1 >= cfg.failureThreshold
    requires before.consecutiveFailures < U32_MAX && forall e :: e in trace ==> !e.Success?
    ensures AcquireNext(cfg, before, t0) == (before, true)
    ensures AcquireNext(cfg, Run(cfg, FailureNext(cfg, before, t0), trace), now).1
            <==> now >= Deadline(cfg, t0 + cfg.openDuration, trace)
    ensures Run(cfg, FailureNext(cfg, before, t0), trace + [Success(now)]) == Closed(0)
  {
    var s := FailureNext(cfg, before, t0);
    NotClosedIsDeadline(cfg, s, trace, now);
    RunThen(cfg, s, trace, Success(now));
  }

  lemma {:induction false} RunThen(cfg: Config, s: Internal, trace: seq<Event>, e: Event)
    ensures Run(cfg, s, trace + [e]) == Next(cfg, Run(cfg, s, trace), e)
    decreases |trace|
  {
    hide Next;
    if trace == [] {
      assert [e][1..] == [] && trace + [e] == [e];
    } else {
      assert (trace + [e])[1..] == trace[1..] + [e];
      RunThen(cfg, Next(cfg, s, trace[0]), trace[1..], e);
    }
  }
}
