/** The durable outbox table with its leases, and the dead-letter store. */
module OutboxStores {
  import opened Wrappers

  type MessageId = string

  datatype Message = Message(id: MessageId, topic: string, payload: string, correlationId: string,
                             attempts: nat, tenantId: Option<string>)

  /** One row: insertion order, the message, and until when it is leased. */
  datatype Row = Row(seqNo: nat, message: Message, lockedUntil: Option<int>)

  const OUTBOX_LEASE := 60

  datatype Table = Table(rows: map<MessageId, Row>, nextSeq: nat)

  predicate Claimable(row: Row, now: int) {
    row.lockedUntil.None? || row.lockedUntil.value < now
  }

  /** Insert, or on conflict replace the message and end its lease. */
  function Enqueued(t: Table, m: Message): Table {
    if m.id in t.rows then t.(rows := t.rows[m.id := t.rows[m.id].(message := m, lockedUntil := None)])
    else Table(t.rows[m.id := Row(t.nextSeq, m, None)], t.nextSeq + 1)
  }

  function Leased(t: Table, id: MessageId, now: int): Table
    requires id in t.rows
  {
    t.(rows := t.rows[id := t.rows[id].(lockedUntil := Some(now + OUTBOX_LEASE))])
  }

  function Acked(t: Table, id: MessageId): Table {
    t.(rows := t.rows - {id})
  }

  /** Record the attempts and end the lease; a vanished row is put back. */
  function ReleasedRow(t: Table, m: Message): Table {
    if m.id in t.rows then t.(rows := t.rows[m.id := t.rows[m.id].(message := m, lockedUntil := None)])
    else Enqueued(t, m)
  }

  /** The oldest row that may be claimed. */
  predicate IsOldest(t: Table, now: int, id: MessageId) {
    && id in t.rows && Claimable(t.rows[id], now)
    && forall other :: other in t.rows && Claimable(t.rows[other], now) ==> t.rows[id].seqNo <= t.rows[other].seqNo
  }

  /** Rows are numbered in the order of their insertion. */
  predicate Numbered(t: Table) {
    && (forall id :: id in t.rows ==> t.rows[id].seqNo < t.nextSeq)
    && (forall a, b :: a in t.rows && b in t.rows && a != b ==> t.rows[a].seqNo != t.rows[b].seqNo)
  }

  /** Every row but this one is as it was. */
  ghost predicate SameBut(before: map<MessageId, Row>, after: map<MessageId, Row>, id: MessageId) {
    forall other :: other != id ==>
      (other in after <==> other in before) && (other in before ==> after[other] == before[other])
  }

  /** The message waits under its identifier exactly as given, unleased; a new one stands behind all others. */
  ghost predicate Waits(before: Table, after: Table, m: Message) {
    && SameBut(before.rows, after.rows, m.id)
    && m.id in after.rows && after.rows[m.id].message == m && after.rows[m.id].lockedUntil.None?
    && if m.id in before.rows then after.rows[m.id].seqNo == before.rows[m.id].seqNo && after.nextSeq == before.nextSeq
       else after.nextSeq > after.rows[m.id].seqNo >= before.nextSeq
  }

  lemma EnqueuedWaits(t: Table, m: Message)
    ensures Waits(t, Enqueued(t, m), m) && Waits(t, ReleasedRow(t, m), m)
    ensures Numbered(t) ==> Numbered(Enqueued(t, m)) && Numbered(ReleasedRow(t, m))
  {
  }

  /** A new message is claimed only after every claimable one that was there before it. */
  lemma NewestIsLast(t: Table, m: Message, now: int, other: MessageId)
    requires Numbered(t) && m.id !in t.rows && other in t.rows && Claimable(t.rows[other], now)
    ensures !IsOldest(Enqueued(t, m), now, m.id)
  {
    EnqueuedWaits(t, m);
    assert other in Enqueued(t, m).rows && Enqueued(t, m).rows[other] == t.rows[other];
  }

  /** A lease lasts a minute: the row cannot be claimed until then, and can be right after. */
  lemma LeaseLastsAMinute(t: Table, id: MessageId, now: int, later: int)
    requires id in t.rows
    ensures var leased := Leased(t, id, now);
            && SameBut(t.rows, leased.rows, id) && id in leased.rows && leased.rows[id].message == t.rows[id].message
            && leased.rows[id].seqNo == t.rows[id].seqNo && leased.nextSeq == t.nextSeq
            && (Claimable(leased.rows[id], later) <==> later > now + 60)
  {
  }

  class PostgresOutbox {
    var rows: map<MessageId, Row>
    var nextSeq: nat

    constructor ()
      ensures Contents() == Table(map[], 0)
    {
      rows, nextSeq := map[], 0;
    }

    function Contents(): Table
      reads this
    {
      Table(rows, nextSeq)
    }

    method Enqueue(m: Message)
      modifies this
      ensures Contents() == Enqueued(old(Contents()), m)
      ensures Waits(old(Contents()), Contents(), m)
    {
      if m.id in rows {
        rows := rows[m.id := rows[m.id].(message := m, lockedUntil := None)];
      } else {
        rows := rows[m.id := Row(nextSeq, m, None)];
        nextSeq := nextSeq + 1;
      }
    }

    /** Lease the oldest claimable message; nothing when there is none. */
    method Claim(now: int) returns (r: Option<Message>)
      modifies this
      ensures r.None? <==> forall id :: id in old(rows) ==> !Claimable(old(rows)[id], now)
      ensures r.None? ==> Contents() == old(Contents())
      ensures r.Some? ==> exists id :: IsOldest(old(Contents()), now, id)
                                       && r.value == old(rows)[id].message
                                       && Contents() == Leased(old(Contents()), id, now)
    {
      var best: Option<MessageId> := None;
      var todo := rows.Keys;
      while todo != {}
        invariant todo <= rows.Keys && Contents() == old(Contents())
        invariant best.Some? ==> best.value in rows && Claimable(rows[best.value], now)
        invariant forall id :: id in rows && id !in todo && Claimable(rows[id], now) ==>
                    best.Some? && rows[best.value].seqNo <= rows[id].seqNo
        decreases |todo|
      {
        var id :| id in todo;
        todo := todo - {id};
        if Claimable(rows[id], now) && (best.None? || rows[id].seqNo < rows[best.value].seqNo) {
          best := Some(id);
        }
      }
      if best.None? {
        return None;
      }
      var row := rows[best.value];
      assert IsOldest(old(Contents()), now, best.value);
      rows := rows[best.value := row.(lockedUntil := Some(now + OUTBOX_LEASE))];
      assert Contents() == Leased(old(Contents()), best.value, now);
      return Some(row.message);
    }

    method Ack(id: MessageId)
      modifies this
      ensures Contents() == Acked(old(Contents()), id)
      ensures id !in rows && SameBut(old(rows), rows, id)
    {
      rows := rows - {id};
    }

    method Release(m: Message)
      modifies this
      ensures Contents() == ReleasedRow(old(Contents()), m)
      ensures Waits(old(Contents()), Contents(), m)
    {
      if m.id in rows {
        rows := rows[m.id := rows[m.id].(message := m, lockedUntil := None)];
      } else {
        Enqueue(m);
      }
    }
  }

  type DeadLetters = map<MessageId, Message>

  class DeadLetterStore {
    var records: DeadLetters

    constructor ()
      ensures records == map[]
    {
      records := map[];
    }

    method Put(m: Message)
      modifies this
      ensures records == old(records)[m.id := m]
    {
      records := records[m.id := m];
    }

    /** Remove and return one record. */
    method Take(id: MessageId) returns (r: Option<Message>)
      modifies this
      ensures r == if id in old(records) then Some(old(records)[id]) else None
      ensures records == old(records) - {id}
    {
      if id !in records {
        return None;
      }
      r := Some(records[id]);
      records := records - {id};
    }
  }
}
