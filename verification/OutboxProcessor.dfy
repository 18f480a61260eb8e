/** The background loop that drains the in-process queue, and the pauses it takes. */
module OutboxProcessor {
  import opened Arithmetic
  import opened OutboxStores
  import opened InProcessQueue

  // ---- Pauses between failed deliveries ------------------------------------------------------------

  /** The pause after a failure that brought the count to `attempts`; the doubling stops at 2^16. */
  function RetryDelay(backoff: nat, cap: nat, attempts: nat): nat {
    Min(backoff * Pow2(Min(if attempts == 0 then 0 else attempts - 1, 16)), cap)
  }

  /** The first pause is the configured one; each further failure doubles it up to the cap, until the shift saturates. */
  lemma RetryDelayDoubles(backoff: nat, cap: nat, attempts: nat)
    ensures RetryDelay(backoff, cap, 1) == Min(backoff, cap)
    ensures RetryDelay(backoff, cap, attempts + 1)
            == if 1 <= attempts <= 16 then Min(2 * RetryDelay(backoff, cap, attempts), cap)
               else RetryDelay(backoff, cap, attempts)
  {
    assert Pow2(0) == 1;
    if 1 <= attempts <= 16 {
      assert backoff * Pow2(attempts) == 2 * (backoff * Pow2(attempts - 1));
    }
  }

  /** One pause for each pass whose message will be retried, in order, by the failures that message then has. */
  function Pauses(s: State, maxAttempts: nat, oks: seq<bool>, backoff: nat, cap: nat): seq<nat> {
    if oks == [] then []
    else
      var front, last := oks[..|oks| - 1], oks[|oks| - 1];
      Pauses(s, maxAttempts, front, backoff, cap) +
      match PassOutcome(Run(s, maxAttempts, Passes(front)), maxAttempts, last)
      case Retrying(attempts) => [RetryDelay(backoff, cap, attempts)]
      case _ => []
  }

  lemma NextRound(round: nat, rounds: nat, batchSize: nat)
    requires round < rounds
    ensures (round + 1) * batchSize == round * batchSize + batchSize <= rounds * batchSize
  {
  }

  lemma RunFurther(s: State, maxAttempts: nat, oks: seq<bool>, done: nat, more: nat)
    requires done + more <= |oks|
    ensures Run(Run(s, maxAttempts, Passes(oks[..done])), maxAttempts, Passes(oks[done..][..more]))
         == Run(s, maxAttempts, Passes(oks[..done + more]))
  {
    assert oks[done..][..more] == oks[done..done + more];
    assert Passes(oks[..done + more]) == Passes(oks[..done]) + Passes(oks[done..done + more]);
    RunAppend(s, maxAttempts, Passes(oks[..done]), Passes(oks[done..done + more]));
  }

  // ---- The loop ----------------------------------------------------------------------------------------

  class Processor {
    const maxAttempts: nat
    const batchSize: nat
    const retryBackoff: nat
    const maxRetryBackoff: nat
    var queue: seq<Message>
    var dead: DeadLetters
    ghost var delivered: seq<MessageId>
    ghost var log: seq<Attempt>

    constructor (maxAttempts: nat, batchSize: nat, retryBackoff: nat, maxRetryBackoff: nat)
      ensures Contents() == START
      ensures this.maxAttempts == maxAttempts && this.batchSize == batchSize
      ensures this.retryBackoff == retryBackoff && this.maxRetryBackoff == maxRetryBackoff
    {
      this.maxAttempts, this.batchSize := maxAttempts, batchSize;
      this.retryBackoff, this.maxRetryBackoff := retryBackoff, maxRetryBackoff;
      queue, dead, delivered, log := [], map[], [], [];
    }

    ghost function Contents(): State
      reads this
    {
      State(queue, dead, delivered, log)
    }

    method Enqueue(m: Message)
      modifies this
      ensures Contents() == Next(old(Contents()), maxAttempts, Event.Enqueue(m))
    {
      queue := queue + [m];
    }

    /** Claim one message, try it, and settle it; `ok` is how the delivery ends. */
    method ProcessOnce(ok: bool) returns (outcome: Outcome)
      modifies this
      ensures Contents() == Passed(old(Contents()), maxAttempts, ok)
      ensures outcome == PassOutcome(old(Contents()), maxAttempts, ok)
    {
      if queue == [] {
        return Idle;
      }
      var m := queue[0];
      queue := queue[1..];
      log := log + [Attempt(m.id, ok)];
      if !ok {
        m := m.(attempts := m.attempts + 1);
        if m.attempts > maxAttempts {
          dead := dead[m.id := m];
          return DeadLettered;
        }
        queue := queue + [m];
        return Retrying(m.attempts);
      }
      delivered := delivered + [m.id];
      return Delivered;
    }

    /** Handle up to one batch, pausing after each delivery that will be retried. */
    method ProcessBatch(oks: seq<bool>) returns (handled: nat, pauses: seq<nat>)
      requires |oks| >= batchSize
      modifies this
      ensures handled <= batchSize && (queue == [] || handled == batchSize)
      ensures Contents() == Run(old(Contents()), maxAttempts, Passes(oks[..handled]))
      ensures handled == 0 <==> old(queue) == [] || batchSize == 0
      ensures pauses == Pauses(old(Contents()), maxAttempts, oks[..handled], retryBackoff, maxRetryBackoff)
    {
      handled, pauses := 0, [];
      assert Passes(oks[..0]) == [];
      while handled < batchSize
        invariant handled <= batchSize
        invariant Contents() == Run(old(Contents()), maxAttempts, Passes(oks[..handled]))
        invariant if handled == 0 then queue == old(queue) else old(queue) != []
        invariant pauses == Pauses(old(Contents()), maxAttempts, oks[..handled], retryBackoff, maxRetryBackoff)
        decreases batchSize - handled
      {
        if |queue| == 0 {
          break;
        }
        ghost var before := Contents();
        var outcome := ProcessOnce(oks[handled]);
        if outcome.Retrying? {
          pauses := pauses + [RetryDelay(retryBackoff, maxRetryBackoff, outcome.attempts)];
        }
        RunAppend(old(Contents()), maxAttempts, Passes(oks[..handled]), [Pass(oks[handled])]);
        assert Passes(oks[..handled + 1]) == Passes(oks[..handled]) + [Pass(oks[handled])];
        assert Run(before, maxAttempts, [Pass(oks[handled])]) == Next(before, maxAttempts, Pass(oks[handled]));
        assert oks[..handled + 1][..handled] == oks[..handled];
        handled := handled + 1;
      }
    }

    /**
     Batch after batch until nothing is left or the clock, which allows `rounds` batches,
     runs out. Given time for as many deliveries as there is budget, nothing is left
     whatever the deliveries do.
     */
    method Drain(rounds: nat, oks: seq<bool>) returns (handled: nat)
      requires |oks| >= rounds * batchSize
      modifies this
      ensures handled <= rounds * batchSize && (queue == [] || handled == rounds * batchSize)
      ensures Contents() == Run(old(Contents()), maxAttempts, Passes(oks[..handled]))
      ensures rounds * batchSize >= TotalBudget(old(queue), maxAttempts) ==> queue == []
    {
      handled := 0;
      var round := 0;
      assert Passes(oks[..0]) == [];
      assert Contents() == Run(old(Contents()), maxAttempts, Passes(oks[..0]));
      hide Run, Passes, Passed, TotalBudget, Pauses, RetryDelay;
      while round < rounds
        invariant round <= rounds && handled <= round * batchSize <= rounds * batchSize
        invariant queue == [] || handled == round * batchSize
        invariant Contents() == Run(old(Contents()), maxAttempts, Passes(oks[..handled]))
        decreases rounds - round
      {
        NextRound(round, rounds, batchSize);
        var processed, _ := ProcessBatch(oks[handled..]);
        if processed == 0 {
          break;
        }
        RunFurther(old(Contents()), maxAttempts, oks, handled, processed);
        handled := handled + processed;
        round := round + 1;
      }
      if handled == rounds * batchSize >= TotalBudget(old(queue), maxAttempts) {
        QueueEmpties(old(Contents()), maxAttempts, oks[..handled]);
      }
    }
  }
}
