/**
 The in-process outbox queue: a claim removes the message, a release puts it back at the
 end, and a message that has failed more often than allowed goes to the dead letters.
 */
module InProcessQueue {
  import opened OutboxStores

  /** One delivery attempt and how it ended. */
  datatype Attempt = Attempt(id: MessageId, ok: bool)

  datatype Outcome = Idle | Delivered | Retrying(attempts: nat) | DeadLettered

  /** The queue and dead letters, with the history of what was delivered and tried. */
  datatype State = State(queue: seq<Message>, dead: DeadLetters, delivered: seq<MessageId>, log: seq<Attempt>)

  const START := State([], map[], [], [])

  datatype Event = Enqueue(message: Message) | Pass(ok: bool)

  function PassOutcome(s: State, maxAttempts: nat, ok: bool): Outcome {
    if s.queue == [] then Idle
    else if ok then Delivered
    else if s.queue[0].attempts + 1 > maxAttempts then DeadLettered
    else Retrying(s.queue[0].attempts + 1)
  }

  function Passed(s: State, maxAttempts: nat, ok: bool): State {
    if s.queue == [] then s
    else
      var m, rest := s.queue[0], s.queue[1..];
      var log := s.log + [Attempt(m.id, ok)];
      if ok then State(rest, s.dead, s.delivered + [m.id], log)
      else
        var tried := m.(attempts := m.attempts + 1);
        if tried.attempts > maxAttempts then State(rest, s.dead[m.id := tried], s.delivered, log)
        else State(rest + [tried], s.dead, s.delivered, log)
  }

  function Next(s: State, maxAttempts: nat, e: Event): State {
    match e
    case Enqueue(m) => s.(queue := s.queue + [m])
    case Pass(ok) => Passed(s, maxAttempts, ok)
  }

  function Run(s: State, maxAttempts: nat, events: seq<Event>): State
    decreases |events|
  {
    if events == [] then s else Run(Next(s, maxAttempts, events[0]), maxAttempts, events[1..])
  }

  function Passes(oks: seq<bool>): (r: seq<Event>)
    ensures |r| == |oks| && forall i :: 0 <= i < |oks| ==> r[i] == Pass(oks[i])
  {
    seq(|oks|, i requires 0 <= i < |oks| => Pass(oks[i]))
  }

  lemma {:induction false} RunAppend(s: State, maxAttempts: nat, events: seq<Event>, more: seq<Event>)
    ensures Run(s, maxAttempts, events + more) == Run(Run(s, maxAttempts, events), maxAttempts, more)
    decreases |events|
  {
    if events == [] {
      assert events + more == more;
    } else {
      assert (events + more)[1..] == events[1..] + more;
      RunAppend(Next(s, maxAttempts, events[0]), maxAttempts, events[1..], more);
    }
  }

  // ---- The queue empties within its budget ------------------------------------------------------

  /** How many more passes a message can take. */
  function Budget(m: Message, maxAttempts: nat): (r: nat)
    ensures r >= 1
  {
    if m.attempts <= maxAttempts then maxAttempts + 1 - m.attempts else 1
  }

  function TotalBudget(queue: seq<Message>, maxAttempts: nat): nat {
    if queue == [] then 0 else Budget(queue[0], maxAttempts) + TotalBudget(queue[1..], maxAttempts)
  }

  lemma {:induction false} BudgetAppend(queue: seq<Message>, m: Message, maxAttempts: nat)
    ensures TotalBudget(queue + [m], maxAttempts) == TotalBudget(queue, maxAttempts) + Budget(m, maxAttempts)
  {
    if queue == [] {
      assert queue + [m] == [m];
    } else {
      assert (queue + [m])[1..] == queue[1..] + [m];
      BudgetAppend(queue[1..], m, maxAttempts);
    }
  }

  /** Every pass over a nonempty queue spends budget: all that is left for a delivered message, one unit for a failed one. */
  lemma PassSpends(s: State, maxAttempts: nat, ok: bool)
    requires s.queue != []
    ensures TotalBudget(Passed(s, maxAttempts, ok).queue, maxAttempts)
            == TotalBudget(s.queue, maxAttempts) - if ok then Budget(s.queue[0], maxAttempts) else 1
  {
    var m := s.queue[0];
    BudgetAppend(s.queue[1..], m.(attempts := m.attempts + 1), maxAttempts);
  }

  /** Whatever deliveries do, as many passes as there is budget empty the queue. */
  lemma {:induction false} QueueEmpties(s: State, maxAttempts: nat, oks: seq<bool>)
    requires |oks| >= TotalBudget(s.queue, maxAttempts)
    ensures Run(s, maxAttempts, Passes(oks)).queue == []
    decreases |oks|
  {
    if oks != [] {
      assert Passes(oks)[1..] == Passes(oks[1..]);
      if s.queue != [] {
        PassSpends(s, maxAttempts, oks[0]);
      }
      QueueEmpties(Next(s, maxAttempts, Pass(oks[0])), maxAttempts, oks[1..]);
    }
  }

  /** No smaller number of passes is always enough: when every delivery fails, each pass spends exactly one unit. */
  lemma {:induction false} BudgetIsTight(s: State, maxAttempts: nat, oks: seq<bool>)
    requires |oks| <= TotalBudget(s.queue, maxAttempts) && forall i :: 0 <= i < |oks| ==> !oks[i]
    ensures TotalBudget(Run(s, maxAttempts, Passes(oks)).queue, maxAttempts) == TotalBudget(s.queue, maxAttempts) - |oks|
    decreases |oks|
  {
    if oks != [] {
      assert Passes(oks)[1..] == Passes(oks[1..]);
      PassSpends(s, maxAttempts, false);
      BudgetIsTight(Passed(s, maxAttempts, false), maxAttempts, oks[1..]);
    }
  }

  // ---- Conservation and the exact number of attempts -----------------------------------------------

  function Ids(queue: seq<Message>): (r: seq<MessageId>)
    ensures |r| == |queue| && forall i :: 0 <= i < |queue| ==> r[i] == queue[i].id
  {
    seq(|queue|, i requires 0 <= i < |queue| => queue[i].id)
  }

  /** Everything the system holds or has delivered, by identifier. */
  function Everything(s: State): multiset<MessageId> {
    multiset(Ids(s.queue)) + multiset(s.dead.Keys) + multiset(s.delivered)
  }

  predicate Known(s: State, id: MessageId) {
    id in Ids(s.queue) || id in s.dead || id in s.delivered
  }

  function Enqueued(events: seq<Event>): seq<MessageId> {
    if events == [] then []
    else (if events[0].Enqueue? then [events[0].message.id] else []) + Enqueued(events[1..])
  }

  /** Producers enqueue untried messages under identifiers not seen before. */
  predicate NewIds(s: State, maxAttempts: nat, events: seq<Event>)
    decreases |events|
  {
    events == [] ||
    ((events[0].Enqueue? ==> events[0].message.attempts == 0 && !Known(s, events[0].message.id))
     && NewIds(Next(s, maxAttempts, events[0]), maxAttempts, events[1..]))
  }

  /** No message is in two places. */
  predicate Apart(s: State) {
    && (forall i, j :: 0 <= i < j < |s.queue| ==> s.queue[i].id != s.queue[j].id)
    && (forall m :: m in s.queue ==> m.id !in s.dead && m.id !in s.delivered)
    && (forall id :: id in s.dead ==> id !in s.delivered)
    && (forall i, j :: 0 <= i < j < |s.delivered| ==> s.delivered[i] != s.delivered[j])
  }

  function Failures(s: State, id: MessageId): nat {
    multiset(s.log)[Attempt(id, false)]
  }

  function Successes(s: State, id: MessageId): nat {
    multiset(s.log)[Attempt(id, true)]
  }

  /** What the history says about every message, wherever it now is. */
  ghost predicate Story(s: State, maxAttempts: nat) {
    && (forall m :: m in s.queue ==> Failures(s, m.id) == m.attempts <= maxAttempts && Successes(s, m.id) == 0)
    && (forall id :: id in s.dead ==>
          Failures(s, id) == s.dead[id].attempts == maxAttempts + 1 && Successes(s, id) == 0)
    && (forall id :: id in s.delivered ==> Failures(s, id) <= maxAttempts && Successes(s, id) == 1)
    && (forall id :: !Known(s, id) ==> Failures(s, id) == 0 && Successes(s, id) == 0)
  }

  lemma EnqueueAdds(s: State, m: Message)
    ensures Everything(s.(queue := s.queue + [m])) == Everything(s) + multiset{m.id}
  {
    assert Ids(s.queue + [m]) == Ids(s.queue) + [m.id];
  }

  lemma EnqueueKeeps(s: State, maxAttempts: nat, m: Message)
    requires Apart(s) && Story(s, maxAttempts) && m.attempts == 0 && !Known(s, m.id)
    ensures var v := s.(queue := s.queue + [m]); Apart(v) && Story(v, maxAttempts)
  {
    var v := s.(queue := s.queue + [m]);
    assert Ids(v.queue) == Ids(s.queue) + [m.id];
    forall k | 0 <= k < |s.queue|
      ensures s.queue[k].id != m.id
    {
      assert Ids(s.queue)[k] == s.queue[k].id;
    }
    assert forall id :: Known(v, id) <==> Known(s, id) || id == m.id;
    assert forall id :: Failures(v, id) == Failures(s, id) && Successes(v, id) == Successes(s, id);
    hide Failures, Successes, Known;
  }

  lemma PassKnows(s: State, maxAttempts: nat, ok: bool)
    ensures forall id :: Known(Passed(s, maxAttempts, ok), id) <==> Known(s, id)
  {
    if s.queue != [] {
      var m, v := s.queue[0], Passed(s, maxAttempts, ok);
      var ids, rest := Ids(s.queue), Ids(s.queue[1..]);
      assert ids == [m.id] + rest;
      assert Ids(s.queue[1..] + [m.(attempts := m.attempts + 1)]) == rest + [m.id];
      hide Ids;
    }
  }

  lemma Places(q: multiset<MessageId>, d: multiset<MessageId>, l: multiset<MessageId>, x: MessageId)
    ensures q + d + (l + multiset{x}) == (multiset{x} + q) + d + l
    ensures q + (d + multiset{x}) + l == (multiset{x} + q) + d + l
    ensures (q + multiset{x}) + d + l == (multiset{x} + q) + d + l
  {
  }

  lemma PoppedEverything(s: State)
    requires s.queue != []
    ensures Everything(s)
            == (multiset{s.queue[0].id} + multiset(Ids(s.queue[1..]))) + multiset(s.dead.Keys) + multiset(s.delivered)
  {
    assert Ids(s.queue) == [s.queue[0].id] + Ids(s.queue[1..]);
  }

  lemma PushedEverything(rest: seq<Message>, tried: Message, s: State)
    requires s.queue == rest + [tried]
    ensures Everything(s)
            == (multiset(Ids(rest)) + multiset{tried.id}) + multiset(s.dead.Keys) + multiset(s.delivered)
  {
    assert Ids(s.queue) == Ids(rest) + [tried.id];
  }

  /** A pass moves one identifier and neither drops nor doubles any. */
  lemma PassConserves(s: State, maxAttempts: nat, ok: bool)
    requires Apart(s)
    ensures Everything(Passed(s, maxAttempts, ok)) == Everything(s)
  {
    if s.queue != [] {
      var m, rest, v := s.queue[0], s.queue[1..], Passed(s, maxAttempts, ok);
      var tried := m.(attempts := m.attempts + 1);
      assert m in s.queue && m.id !in s.dead;
      PoppedEverything(s);
      Places(multiset(Ids(rest)), multiset(s.dead.Keys), multiset(s.delivered), m.id);
      hide Ids, Apart;
      if ok {
        assert v.delivered == s.delivered + [m.id];
      } else if tried.attempts > maxAttempts {
        BagOfOneMore(s.dead.Keys, v.dead.Keys, m.id);
      } else {
        hide Everything;
        PushedEverything(rest, tried, v);
      }
    }
  }

  lemma BagOfOneMore(a: set<MessageId>, b: set<MessageId>, x: MessageId)
    requires x !in a && b == a + {x}
    ensures multiset(b) == multiset(a) + multiset{x}
  {
  }

  lemma PassKeepsApart(s: State, maxAttempts: nat, ok: bool)
    requires Apart(s)
    ensures Apart(Passed(s, maxAttempts, ok))
  {
    if s.queue != [] {
      var m, v := s.queue[0], Passed(s, maxAttempts, ok);
      assert m in s.queue;
      forall k | 1 <= k < |s.queue|
        ensures s.queue[k].id != m.id && s.queue[k].id !in s.dead && s.queue[k].id !in s.delivered
      {
        assert s.queue[k] in s.queue;
      }
    }
  }

  lemma PassLogs(s: State, maxAttempts: nat, ok: bool)
    requires s.queue != []
    ensures forall id :: Failures(Passed(s, maxAttempts, ok), id)
                         == Failures(s, id) + (if id == s.queue[0].id && !ok then 1 else 0)
    ensures forall id :: Successes(Passed(s, maxAttempts, ok), id)
                         == Successes(s, id) + (if id == s.queue[0].id && ok then 1 else 0)
  {
    assert Passed(s, maxAttempts, ok).log == s.log + [Attempt(s.queue[0].id, ok)];
  }

  /** The head of the queue is in no other place. */
  lemma HeadIsAlone(s: State)
    requires Apart(s) && s.queue != []
    ensures var id := s.queue[0].id;
            && s.queue[0] in s.queue && Known(s, id) && id !in s.dead && id !in s.delivered
            && (forall m :: m in s.queue[1..] ==> m.id != id && m in s.queue)
  {
    assert Ids(s.queue)[0] == s.queue[0].id;
    assert s.queue[0] in s.queue;
  }

  lemma PassQueued(s: State, maxAttempts: nat, ok: bool, other: Message)
    requires Apart(s) && Story(s, maxAttempts) && s.queue != [] && other in Passed(s, maxAttempts, ok).queue
    ensures var v := Passed(s, maxAttempts, ok);
            Failures(v, other.id) == other.attempts <= maxAttempts && Successes(v, other.id) == 0
  {
    hide Known, Failures, Successes, Apart;
    HeadIsAlone(s);
    PassLogs(s, maxAttempts, ok);
    var m := s.queue[0];
    if other !in s.queue[1..] {
      assert !ok && other == m.(attempts := m.attempts + 1) && other.attempts <= maxAttempts;
    }
  }

  lemma PassBuried(s: State, maxAttempts: nat, ok: bool, id: MessageId)
    requires Apart(s) && Story(s, maxAttempts) && s.queue != [] && id in Passed(s, maxAttempts, ok).dead
    ensures var v := Passed(s, maxAttempts, ok);
            Failures(v, id) == v.dead[id].attempts == maxAttempts + 1 && Successes(v, id) == 0
  {
    hide Known, Failures, Successes, Apart;
    HeadIsAlone(s);
    PassLogs(s, maxAttempts, ok);
  }

  lemma PassDelivered(s: State, maxAttempts: nat, ok: bool, id: MessageId)
    requires Apart(s) && Story(s, maxAttempts) && s.queue != [] && id in Passed(s, maxAttempts, ok).delivered
    ensures var v := Passed(s, maxAttempts, ok); Failures(v, id) <= maxAttempts && Successes(v, id) == 1
  {
    hide Known, Failures, Successes, Apart;
    HeadIsAlone(s);
    PassLogs(s, maxAttempts, ok);
    if id !in s.delivered {
      assert ok && id == s.queue[0].id;
    }
  }

  lemma PassKeepsStory(s: State, maxAttempts: nat, ok: bool)
    requires Apart(s) && Story(s, maxAttempts)
    ensures Story(Passed(s, maxAttempts, ok), maxAttempts)
  {
    if s.queue != [] {
      var v := Passed(s, maxAttempts, ok);
      HeadIsAlone(s);
      forall other | other in v.queue {
        PassQueued(s, maxAttempts, ok, other);
      }
      forall id | id in v.dead {
        PassBuried(s, maxAttempts, ok, id);
      }
      forall id | id in v.delivered {
        PassDelivered(s, maxAttempts, ok, id);
      }
      PassKnows(s, maxAttempts, ok);
      PassLogs(s, maxAttempts, ok);
      hide Known, Failures, Successes, Apart, Passed;
    }
  }

  lemma {:induction false} RunKeepsStory(s: State, maxAttempts: nat, events: seq<Event>)
    requires Apart(s) && Story(s, maxAttempts) && NewIds(s, maxAttempts, events)
    ensures Apart(Run(s, maxAttempts, events)) && Story(Run(s, maxAttempts, events), maxAttempts)
    ensures Everything(Run(s, maxAttempts, events)) == Everything(s) + multiset(Enqueued(events))
    decreases |events|
  {
    hide Story, Apart, Known, Everything, Passed;
    if events != [] {
      match events[0] {
        case Enqueue(m) =>
          EnqueueKeeps(s, maxAttempts, m);
          EnqueueAdds(s, m);
        case Pass(ok) =>
          PassKeepsStory(s, maxAttempts, ok);
          PassKeepsApart(s, maxAttempts, ok);
          PassConserves(s, maxAttempts, ok);
      }
      RunKeepsStory(Next(s, maxAttempts, events[0]), maxAttempts, events[1..]);
    }
  }

  /** Conservation: delivered, buried and queued identifiers together are always exactly the enqueued ones. */
  lemma Conservation(maxAttempts: nat, events: seq<Event>)
    requires NewIds(START, maxAttempts, events)
    ensures Everything(Run(START, maxAttempts, events)) == multiset(Enqueued(events))
  {
    RunKeepsStory(START, maxAttempts, events);
  }

  /**
   The exact attempt budget. From an empty system, after any mix of enqueues and passes
   with any outcomes: a buried message failed exactly maxAttempts + 1 times and never
   succeeded, a delivered one succeeded exactly once after at most maxAttempts failures,
   and a queued one carries exactly the number of its failures so far.
   */
  lemma ExactBudget(maxAttempts: nat, events: seq<Event>)
    requires NewIds(START, maxAttempts, events)
    ensures Story(Run(START, maxAttempts, events), maxAttempts)
  {
    RunKeepsStory(START, maxAttempts, events);
  }
}
