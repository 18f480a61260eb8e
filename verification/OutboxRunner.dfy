/**
 The runner's outbox calls on the durable stores: each is a run of the delivery protocol
 that nobody interrupts.
 */
module OutboxRunner {
  import opened Wrappers
  import opened OutboxStores
  import Protocol = DeliveryProtocol
  import InProcessQueue

  type Outcome = InProcessQueue.Outcome

  /** These stores with no worker or operator at work. */
  function Alone(table: Table, dead: DeadLetters, maxAttempts: nat, now: int): Protocol.World {
    Protocol.World(maxAttempts, table, dead, now, map[], map[], {}, {})
  }

  /** A worker claims `id`, tries it and settles; settling takes two store calls when it buries. */
  function OneDelivery(w: Protocol.World, id: MessageId, ok: bool): Protocol.World {
    Protocol.Run(w, [Protocol.Claim(0, id), Protocol.Deliver(0, ok), Protocol.Settle(0), Protocol.Settle(0)])
  }

  function OneReplay(w: Protocol.World, id: MessageId): Protocol.World {
    Protocol.Run(w, [Protocol.ReplayTake(0, id), Protocol.ReplayPut(0)])
  }

  predicate KeyedByOwnId(table: Table, dead: DeadLetters) {
    && (forall id :: id in table.rows ==> table.rows[id].message.id == id)
    && (forall id :: id in dead ==> dead[id].id == id)
  }

  lemma RunFour(w: Protocol.World, a: Protocol.Event, b: Protocol.Event, c: Protocol.Event, d: Protocol.Event)
    ensures Protocol.Run(w, [a, b, c, d])
         == Protocol.Next(Protocol.Next(Protocol.Next(Protocol.Next(w, a), b), c), d)
  {
    hide Protocol.Next;
    var w1 := Protocol.Next(w, a);
    var w2 := Protocol.Next(w1, b);
    Protocol.RunStep(w, a, [b, c, d]);
    Protocol.RunStep(w1, b, [c, d]);
    Protocol.RunStep(w2, c, [d]);
    Protocol.RunStep(Protocol.Next(w2, c), d, []);
    assert [a] + [b, c, d] == [a, b, c, d] && [b] + [c, d] == [b, c, d] && [c] + [d] == [c, d] && [d] + [] == [d];
  }

  /** What an undisturbed delivery leaves in the two stores, by how it ends. */
  lemma OneDeliveryEffect(table: Table, dead: DeadLetters, maxAttempts: nat, now: int, id: MessageId, ok: bool)
    requires KeyedByOwnId(table, dead) && id in table.rows && Claimable(table.rows[id], now)
    ensures var v := OneDelivery(Alone(table, dead, maxAttempts, now), id, ok);
            var m := table.rows[id].message;
            var tried := m.(attempts := m.attempts + 1);
            var leased := Leased(table, id, now);
            && v.workers == map[] && (!ok ==> v.delivered == {})
            && (ok ==> v.table == Acked(leased, id) && v.dead == dead && v.delivered == {id})
            && (!ok && tried.attempts > maxAttempts ==> v.table == Acked(leased, id) && v.dead == dead[id := tried])
            && (!ok && tried.attempts <= maxAttempts ==> v.table == ReleasedRow(leased, tried) && v.dead == dead)
  {
    var w := Alone(table, dead, maxAttempts, now);
    RunFour(w, Protocol.Claim(0, id), Protocol.Deliver(0, ok), Protocol.Settle(0), Protocol.Settle(0));
    var m := table.rows[id].message;
    var tried := m.(attempts := m.attempts + 1);
    var w1 := Protocol.Next(w, Protocol.Claim(0, id));
    assert w1.table == Leased(table, id, now) && w1.workers == map[0 := w1.workers[0]];
    var w2 := Protocol.Next(w1, Protocol.Deliver(0, ok));
    assert w2.table == w1.table && w2.workers.Keys == {0} && id in w2.table.rows;
    assert w2.workers[0].stage == if ok then Protocol.ToAck(id)
                                  else if tried.attempts > maxAttempts then Protocol.ToBury(tried)
                                  else Protocol.ToRelease(tried);
    var w3 := Protocol.Next(w2, Protocol.Settle(0));
    if ok || tried.attempts <= maxAttempts {
      assert w3.workers == map[];
      assert Protocol.Next(w3, Protocol.Settle(0)) == w3;
    } else {
      assert w3.workers.Keys == {0} && w3.workers[0].stage == Protocol.ToAckBuried(id);
      assert Protocol.Next(w3, Protocol.Settle(0)).workers == map[];
    }
  }

  /** What the reported outcome says of the stores after the delivery. */
  predicate Ends(v: Protocol.World, id: MessageId, maxAttempts: nat, now: int, outcome: Outcome) {
    && !outcome.Idle?
    && (outcome.Delivered? <==> id in v.delivered)
    && (outcome.DeadLettered? ==> id in v.dead && id !in v.table.rows && v.dead[id].attempts > maxAttempts)
    && (outcome.Retrying? ==> id in v.table.rows && v.table.rows[id].message.attempts == outcome.attempts <= maxAttempts
                              && Claimable(v.table.rows[id], now))
  }

  /** How many attempts there have been and how the last one ended decide the outcome. */
  lemma DeliveryEnds(table: Table, dead: DeadLetters, maxAttempts: nat, now: int, id: MessageId, ok: bool)
    requires KeyedByOwnId(table, dead) && id in table.rows && Claimable(table.rows[id], now)
    ensures var attempts := table.rows[id].message.attempts + 1;
            Ends(OneDelivery(Alone(table, dead, maxAttempts, now), id, ok), id, maxAttempts, now,
                 if ok then InProcessQueue.Delivered
                 else if attempts > maxAttempts then InProcessQueue.DeadLettered
                 else InProcessQueue.Retrying(attempts))
  {
    OneDeliveryEffect(table, dead, maxAttempts, now, id, ok);
    hide OneDelivery, Alone;
  }

  /**
   Process one message: idle exactly when nothing is claimable, else the oldest claimable
   message goes through one protocol delivery; `ok` is how the deliverer ends.
   */
  method ProcessOutboxOnce(outbox: PostgresOutbox, letters: DeadLetterStore, maxAttempts: nat, now: int, ok: bool)
    returns (outcome: Outcome)
    requires KeyedByOwnId(outbox.Contents(), letters.records)
    modifies outbox, letters
    ensures outcome.Idle? <==> forall id :: id in old(outbox.rows) ==> !Claimable(old(outbox.rows)[id], now)
    ensures outcome.Idle? ==> outbox.Contents() == old(outbox.Contents()) && letters.records == old(letters.records)
    ensures !outcome.Idle? ==>
              exists id :: && IsOldest(old(outbox.Contents()), now, id)
                           && (var v := OneDelivery(Alone(old(outbox.Contents()), old(letters.records), maxAttempts, now), id, ok);
                               outbox.Contents() == v.table && letters.records == v.dead && Ends(v, id, maxAttempts, now, outcome))
  {
    var claimed := outbox.Claim(now);
    if claimed.None? {
      return InProcessQueue.Idle;
    }
    ghost var id :| IsOldest(old(outbox.Contents()), now, id) && claimed.value == old(outbox.rows)[id].message
                    && outbox.Contents() == Leased(old(outbox.Contents()), id, now);
    OneDeliveryEffect(old(outbox.Contents()), old(letters.records), maxAttempts, now, id, ok);
    DeliveryEnds(old(outbox.Contents()), old(letters.records), maxAttempts, now, id, ok);
    assert claimed.value.id == id;
    hide Protocol.Run, OneDelivery, KeyedByOwnId, IsOldest, Claimable, Leased, ReleasedRow, Acked, Ends, Alone;
    var m := claimed.value;
    if !ok {
      m := m.(attempts := m.attempts + 1);
      if m.attempts > maxAttempts {
        letters.Put(m);
        outbox.Ack(m.id);
        return InProcessQueue.DeadLettered;
      }
      outbox.Release(m);
      return InProcessQueue.Retrying(m.attempts);
    }
    outbox.Ack(m.id);
    return InProcessQueue.Delivered;
  }

  /** Put a dead letter back into the outbox with a fresh attempt budget. */
  method ReplayFromDeadLetter(outbox: PostgresOutbox, letters: DeadLetterStore, id: MessageId) returns (found: bool)
    requires KeyedByOwnId(outbox.Contents(), letters.records)
    modifies outbox, letters
    ensures found == old(id in letters.records)
    ensures var v := OneReplay(Alone(old(outbox.Contents()), old(letters.records), 0, 0), id);
            outbox.Contents() == v.table && letters.records == v.dead
    ensures found ==> id in outbox.rows && outbox.rows[id].message.attempts == 0 && outbox.rows[id].lockedUntil.None?
  {
    ghost var w := Alone(outbox.Contents(), letters.records, 0, 0);
    Protocol.RunStep(w, Protocol.ReplayTake(0, id), [Protocol.ReplayPut(0)]);
    Protocol.RunStep(Protocol.Next(w, Protocol.ReplayTake(0, id)), Protocol.ReplayPut(0), []);
    assert [Protocol.ReplayTake(0, id)] + [Protocol.ReplayPut(0)] == [Protocol.ReplayTake(0, id), Protocol.ReplayPut(0)];
    assert [Protocol.ReplayPut(0)] + [] == [Protocol.ReplayPut(0)];
    var taken := letters.Take(id);
    if taken.None? {
      assert letters.records == old(letters.records);
      return false;
    }
    outbox.Enqueue(taken.value.(attempts := 0));
    return true;
  }
}
