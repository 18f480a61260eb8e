/**
 What outbox stores hold: every message that is waiting, leased, buried or on its way back
 is one that somebody produced, letter by letter, but for its count of attempts.
 */
module OutboxContents {
  import opened Wrappers
  import opened OutboxStores
  import Protocol = DeliveryProtocol
  import Queue = InProcessQueue

  /** The same message but for its attempts. */
  predicate SameMessage(a: Message, b: Message) {
    && a.id == b.id && a.topic == b.topic && a.payload == b.payload && a.correlationId == b.correlationId
    && a.tenantId == b.tenantId
  }

  predicate IsOneOf(sources: set<Message>, m: Message) {
    exists s :: s in sources && SameMessage(s, m)
  }

  // ---- The leased table --------------------------------------------------------------------------

  /** The message a worker carries, if it still carries one. */
  function Carried(stage: Protocol.Stage): Option<Message> {
    match stage
    case Holding(m) => Some(m)
    case ToRelease(m) => Some(m)
    case ToReinsert(m) => Some(m)
    case ToBury(m) => Some(m)
    case _ => None
  }

  /** Everything in the world is one of these messages. */
  predicate AllFrom(w: Protocol.World, sources: set<Message>) {
    && (forall id :: id in w.table.rows ==> IsOneOf(sources, w.table.rows[id].message))
    && (forall id :: id in w.dead ==> IsOneOf(sources, w.dead[id]))
    && (forall k :: k in w.workers && Carried(w.workers[k].stage).Some? ==> IsOneOf(sources, Carried(w.workers[k].stage).value))
    && (forall op :: op in w.operators ==> IsOneOf(sources, w.operators[op]))
  }

  function Produced(e: Protocol.Event): set<Message> {
    if e.Produce? then {e.message} else {}
  }

  function AllProduced(events: seq<Protocol.Event>): set<Message> {
    set i | 0 <= i < |events| && events[i].Produce? :: events[i].message
  }

  lemma MoreSources(w: Protocol.World, sources: set<Message>, more: set<Message>)
    requires AllFrom(w, sources) && sources <= more
    ensures AllFrom(w, more)
  {
  }

  lemma Retried(sources: set<Message>, m: Message, attempts: nat)
    requires IsOneOf(sources, m)
    ensures IsOneOf(sources, m.(attempts := attempts))
  {
    var s :| s in sources && SameMessage(s, m);
    assert SameMessage(s, m.(attempts := attempts));
  }

  lemma EnqueuedFrom(t: Table, m: Message, sources: set<Message>)
    requires forall id :: id in t.rows ==> IsOneOf(sources, t.rows[id].message)
    requires IsOneOf(sources, m)
    ensures forall id :: id in Enqueued(t, m).rows ==> IsOneOf(sources, Enqueued(t, m).rows[id].message)
    ensures forall id :: id in ReleasedRow(t, m).rows ==> IsOneOf(sources, ReleasedRow(t, m).rows[id].message)
  {
    EnqueuedWaits(t, m);
    hide Enqueued, ReleasedRow, IsOneOf;
  }

  lemma SettleFrom(w: Protocol.World, worker: Protocol.Worker, sources: set<Message>)
    requires AllFrom(w, sources)
    ensures AllFrom(Protocol.Next(w, Protocol.Settle(worker)), sources)
  {
    hide IsOneOf;
    if worker in w.workers {
      var stage := w.workers[worker].stage;
      if Carried(stage).Some? {
        EnqueuedFrom(w.table, Carried(stage).value, sources);
      }
      hide Enqueued, ReleasedRow;
      match stage
      case Holding(_) =>
      case ToAck(_) =>
      case ToAckBuried(_) =>
      case ToRelease(_) =>
      case ToReinsert(_) =>
      case ToBury(_) =>
    }
  }

  lemma StepFrom(w: Protocol.World, e: Protocol.Event, sources: set<Message>)
    requires AllFrom(w, sources)
    ensures AllFrom(Protocol.Next(w, e), sources + Produced(e))
  {
    var all := sources + Produced(e);
    MoreSources(w, sources, all);
    match e
    case Produce(m) =>
      assert m in all && SameMessage(m, m);
      hide IsOneOf;
      EnqueuedFrom(w.table, m, all);
      hide Enqueued;
    case Deliver(worker, ok) =>
      if worker in w.workers && w.workers[worker].stage.Holding? {
        var m := w.workers[worker].stage.message;
        Retried(all, m, m.attempts + 1);
      }
      hide IsOneOf;
    case ReplayTake(op, id) =>
      if id in w.dead {
        Retried(all, w.dead[id], 0);
      }
      hide IsOneOf;
    case ReplayPut(op) =>
      hide IsOneOf;
      if op in w.operators {
        EnqueuedFrom(w.table, w.operators[op], all);
      }
      hide Enqueued;
    case Settle(worker) =>
      assert all == sources;
      hide IsOneOf, AllFrom;
      SettleFrom(w, worker, sources);
    case _ =>
      hide IsOneOf;
  }

  lemma {:induction false} RunFrom(w: Protocol.World, events: seq<Protocol.Event>, sources: set<Message>)
    requires AllFrom(w, sources)
    ensures AllFrom(Protocol.Run(w, events), sources + AllProduced(events))
    decreases |events|
  {
    hide AllFrom, Protocol.Next;
    if events == [] {
      assert sources + AllProduced([]) == sources;
    } else {
      StepFrom(w, events[0], sources);
      RunFrom(Protocol.Next(w, events[0]), events[1..], sources + Produced(events[0]));
      assert sources + Produced(events[0]) + AllProduced(events[1..]) == sources + AllProduced(events) by {
        AllProducedSplit(events);
      }
    }
  }

  lemma AllProducedSplit(events: seq<Protocol.Event>)
    requires events != []
    ensures AllProduced(events) == Produced(events[0]) + AllProduced(events[1..])
  {
    assert forall i :: 0 < i < |events| ==> events[i] == events[1..][i - 1];
    forall m | m in AllProduced(events)
      ensures m in Produced(events[0]) + AllProduced(events[1..])
    {
      var i :| 0 <= i < |events| && events[i].Produce? && events[i].message == m;
      if i > 0 {
        assert events[1..][i - 1].Produce? && events[1..][i - 1].message == m;
      }
    }
    forall m | m in AllProduced(events[1..])
      ensures m in AllProduced(events)
    {
      var i :| 0 <= i < |events| - 1 && events[1..][i].Produce? && events[1..][i].message == m;
      assert events[i + 1].Produce? && events[i + 1].message == m;
    }
    if events[0].Produce? {
      assert events[0].message in AllProduced(events);
    }
  }

  /**
   Contents: in every interleaving, every waiting row, every message a worker holds, every
   dead letter and every message in replay is one that was produced earlier in the run,
   with its identifier, topic, payload, correlation and tenant.
   */
  lemma ContentsAreProduced(maxAttempts: nat, events: seq<Protocol.Event>)
    ensures AllFrom(Protocol.Run(Protocol.Begin(maxAttempts), events), AllProduced(events))
  {
    RunFrom(Protocol.Begin(maxAttempts), events, {});
    assert {} + AllProduced(events) == AllProduced(events);
  }

  /** Dead letters have used up their attempts, and messages on their way back to the table have not. */
  predicate SpentRightly(w: Protocol.World) {
    && (forall id :: id in w.dead ==> w.dead[id].attempts > w.maxAttempts)
    && (forall k :: k in w.workers && w.workers[k].stage.ToBury? ==> w.workers[k].stage.message.attempts > w.maxAttempts)
    && (forall k :: k in w.workers && (w.workers[k].stage.ToRelease? || w.workers[k].stage.ToReinsert?) ==>
          0 < w.workers[k].stage.message.attempts <= w.maxAttempts)
    && (forall op :: op in w.operators ==> w.operators[op].attempts == 0)
  }

  lemma SettleSpends(w: Protocol.World, worker: Protocol.Worker)
    requires SpentRightly(w) && worker in w.workers
    ensures SpentRightly(Protocol.SettleStep(w, worker)) && Protocol.SettleStep(w, worker).maxAttempts == w.maxAttempts
  {
    hide Enqueued, ReleasedRow, Acked;
    match w.workers[worker].stage
    case Holding(_) =>
    case ToAck(_) =>
    case ToAckBuried(_) =>
    case ToRelease(_) =>
    case ToReinsert(_) =>
    case ToBury(_) =>
  }

  lemma StepSpends(w: Protocol.World, e: Protocol.Event)
    requires SpentRightly(w)
    ensures SpentRightly(Protocol.Next(w, e)) && Protocol.Next(w, e).maxAttempts == w.maxAttempts
  {
    hide Enqueued, Leased, Claimable, Protocol.SettleStep;
    if e.Settle? && e.worker in w.workers {
      SettleSpends(w, e.worker);
      hide SpentRightly;
    }
  }

  lemma {:induction false} RunSpends(w: Protocol.World, events: seq<Protocol.Event>)
    requires SpentRightly(w)
    ensures SpentRightly(Protocol.Run(w, events))
    decreases |events|
  {
    hide SpentRightly, Protocol.Next;
    if events != [] {
      StepSpends(w, events[0]);
      RunSpends(Protocol.Next(w, events[0]), events[1..]);
    }
  }

  /** In every run a message is buried only past its attempts, goes back to the table only within them, and is replayed with none. */
  lemma BuriedPastBudget(maxAttempts: nat, events: seq<Protocol.Event>)
    ensures SpentRightly(Protocol.Run(Protocol.Begin(maxAttempts), events))
  {
    RunSpends(Protocol.Begin(maxAttempts), events);
  }

  // ---- The in-process queue ------------------------------------------------------------------------

  predicate QueueFrom(s: Queue.State, sources: set<Message>) {
    && (forall m :: m in s.queue ==> IsOneOf(sources, m))
    && (forall id :: id in s.dead ==> IsOneOf(sources, s.dead[id]))
  }

  function Enqueues(events: seq<Queue.Event>): set<Message> {
    set i | 0 <= i < |events| && events[i].Enqueue? :: events[i].message
  }

  lemma QueueStepFrom(s: Queue.State, maxAttempts: nat, e: Queue.Event, sources: set<Message>)
    requires QueueFrom(s, sources) && (e.Enqueue? ==> e.message in sources)
    ensures QueueFrom(Queue.Next(s, maxAttempts, e), sources)
  {
    if e.Enqueue? {
      assert SameMessage(e.message, e.message);
    } else if s.queue != [] {
      assert s.queue[0] in s.queue;
      Retried(sources, s.queue[0], s.queue[0].attempts + 1);
    }
    hide IsOneOf;
  }

  lemma {:induction false} QueueRunFrom(s: Queue.State, maxAttempts: nat, events: seq<Queue.Event>, sources: set<Message>)
    requires QueueFrom(s, sources) && Enqueues(events) <= sources
    ensures QueueFrom(Queue.Run(s, maxAttempts, events), sources)
    decreases |events|
  {
    hide QueueFrom, Queue.Next;
    if events != [] {
      forall i | 0 <= i < |events| && events[i].Enqueue?
        ensures events[i].message in sources
      {
        assert events[i].message in Enqueues(events);
      }
      forall i | 0 <= i < |events| - 1 && events[1..][i].Enqueue?
        ensures events[1..][i].message in sources
      {
        assert events[1..][i] == events[i + 1];
      }
      QueueStepFrom(s, maxAttempts, events[0], sources);
      QueueRunFrom(Queue.Next(s, maxAttempts, events[0]), maxAttempts, events[1..], sources);
    }
  }

  /** The in-process queue and its dead letters hold only messages that were enqueued, letter by letter but for their attempts. */
  lemma QueueHoldsEnqueued(maxAttempts: nat, events: seq<Queue.Event>)
    ensures QueueFrom(Queue.Run(Queue.START, maxAttempts, events), Enqueues(events))
  {
    QueueRunFrom(Queue.START, maxAttempts, events, Enqueues(events));
  }

  /** First in, first out: passes that all succeed deliver the front of the queue in order. */
  lemma {:induction false} DeliveredInOrder(s: Queue.State, maxAttempts: nat, oks: seq<bool>)
    requires |oks| <= |s.queue| && forall i :: 0 <= i < |oks| ==> oks[i]
    ensures var t := Queue.Run(s, maxAttempts, Queue.Passes(oks));
            t.queue == s.queue[|oks|..] && t.delivered == s.delivered + Queue.Ids(s.queue[..|oks|]) && t.dead == s.dead
    decreases |oks|
  {
    if oks == [] {
      assert Queue.Ids(s.queue[..0]) == [];
    } else {
      assert Queue.Passes(oks)[1..] == Queue.Passes(oks[1..]);
      var t := Queue.Next(s, maxAttempts, Queue.Pass(oks[0]));
      DeliveredInOrder(t, maxAttempts, oks[1..]);
      assert Queue.Ids(s.queue[..|oks|]) == [s.queue[0].id] + Queue.Ids(s.queue[1..][..|oks| - 1]);
      assert s.queue[1..][|oks| - 1..] == s.queue[|oks|..];
    }
  }

  /** The same messages in the same order, each tried once more. */
  function OnceMore(queue: seq<Message>): seq<Message> {
    seq(|queue|, i requires 0 <= i < |queue| => queue[i].(attempts := queue[i].attempts + 1))
  }

  /** One failed pass and the rest of the round, put together. */
  lemma RoundShifts(queue: seq<Message>, tried: Message, n: nat)
    requires 0 < n <= |queue| && tried == queue[0].(attempts := queue[0].attempts + 1)
    ensures var next := queue[1..] + [tried];
            next[n - 1..] + OnceMore(next[..n - 1]) == queue[n..] + OnceMore(queue[..n])
  {
    var next := queue[1..] + [tried];
    assert next[..n - 1] == queue[1..n] && next[n - 1..] == queue[n..] + [tried];
    assert OnceMore(queue[..n]) == [tried] + OnceMore(queue[1..n]);
    hide OnceMore;
    assert queue[n..] + [tried] + OnceMore(queue[1..n]) == queue[n..] + ([tried] + OnceMore(queue[1..n]));
  }

  /**
   A message that fails goes behind all others: when every pass of a round fails, and none
   exhausts its message, the queue is as it was with one attempt more for each message tried,
   those at the end.
   */
  lemma {:induction false} FailuresGoRound(s: Queue.State, maxAttempts: nat, oks: seq<bool>)
    requires |oks| <= |s.queue| && (forall i :: 0 <= i < |oks| ==> !oks[i])
    requires forall i :: 0 <= i < |oks| ==> s.queue[i].attempts < maxAttempts
    ensures var t := Queue.Run(s, maxAttempts, Queue.Passes(oks));
            t.queue == s.queue[|oks|..] + OnceMore(s.queue[..|oks|]) && t.delivered == s.delivered && t.dead == s.dead
    decreases |oks|
  {
    if oks == [] {
      assert OnceMore(s.queue[..0]) == [];
    } else {
      assert Queue.Passes(oks)[1..] == Queue.Passes(oks[1..]);
      var m, k := s.queue[0], |oks| - 1;
      var t := Queue.Next(s, maxAttempts, Queue.Pass(oks[0]));
      var tried := m.(attempts := m.attempts + 1);
      assert t.queue == s.queue[1..] + [tried];
      assert forall i :: 0 <= i < k ==> t.queue[i] == s.queue[i + 1];
      FailuresGoRound(t, maxAttempts, oks[1..]);
      hide Queue.Next, Queue.Passes, OnceMore;
      RoundShifts(s.queue, tried, |oks|);
    }
  }

  /**
   The reported outcome tells what the pass did: idle on an empty queue; delivered with the
   front message as the latest delivery; a retry with the front message, at that count, now
   last; or buried with the front message, past its budget, among the dead letters.
   */
  lemma OutcomeTells(s: Queue.State, maxAttempts: nat, ok: bool)
    ensures var o, t := Queue.PassOutcome(s, maxAttempts, ok), Queue.Passed(s, maxAttempts, ok);
            && (o.Idle? <==> s.queue == []) && (o.Idle? ==> t == s)
            && (!o.Idle? ==>
                  var m := s.queue[0];
                  && (o.Delivered? <==> ok) && (o.Delivered? <==> t.delivered == s.delivered + [m.id])
                  && (!o.Delivered? ==> t.delivered == s.delivered)
                  && (o.Retrying? <==> !ok && m.attempts < maxAttempts)
                  && (o.Retrying? ==> o.attempts == m.attempts + 1 && t.queue == s.queue[1..] + [m.(attempts := o.attempts)])
                  && (!o.Retrying? ==> t.queue == s.queue[1..])
                  && (o.DeadLettered? ==> t.dead == s.dead[m.id := m.(attempts := m.attempts + 1)])
                  && (!o.DeadLettered? ==> t.dead == s.dead))
  {
    if s.queue != [] {
      assert |s.delivered + [s.queue[0].id]| != |s.delivered|;
    }
  }
}
