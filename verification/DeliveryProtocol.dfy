/**
 Outbox delivery by several workers: claim, deliver, then acknowledge, release or bury
 in the dead-letter store, with crashes, lease expiry and operator replay at any point.
 */
module DeliveryProtocol {
  import opened Wrappers
  import opened OutboxStores

  type Worker = nat
  type Operator = nat

  /** What a worker that claimed a message is about to do. */
  datatype Stage =
    | Holding(message: Message)
    | ToAck(id: MessageId)
    | ToRelease(message: Message)
    | ToReinsert(message: Message)
    | ToBury(message: Message)
    | ToAckBuried(id: MessageId)

  datatype Hold = Hold(stage: Stage, until: int)

  function IdOf(stage: Stage): MessageId {
    match stage
    case Holding(m) => m.id
    case ToAck(id) => id
    case ToRelease(m) => m.id
    case ToReinsert(m) => m.id
    case ToBury(m) => m.id
    case ToAckBuried(id) => id
  }

  datatype World = World(
    maxAttempts: nat,
    table: Table,
    dead: DeadLetters,
    now: int,
    workers: map<Worker, Hold>,
    operators: map<Operator, Message>,
    delivered: set<MessageId>,
    enqueued: set<MessageId>)

  function Begin(maxAttempts: nat): World {
    World(maxAttempts, Table(map[], 0), map[], 0, map[], map[], {}, {})
  }

  datatype Event =
    | Produce(message: Message)
    | Claim(worker: Worker, id: MessageId)
    | Deliver(worker: Worker, ok: bool)
    | Settle(worker: Worker)
    | Crash(worker: Worker)
    | ReplayTake(operator: Operator, id: MessageId)
    | ReplayPut(operator: Operator)
    | ReplayCrash(operator: Operator)
    | Tick(time: int)

  function Gone(workers: map<Worker, Hold>, w: Worker): map<Worker, Hold> {
    workers - {w}
  }

  /** The store call a worker makes next; each is one atomic step. */
  function SettleStep(w: World, worker: Worker): World
    requires worker in w.workers
  {
    var hold := w.workers[worker];
    match hold.stage
    case Holding(_) => w
    case ToAck(id) => w.(table := Acked(w.table, id), workers := Gone(w.workers, worker))
    case ToRelease(m) =>
      if m.id in w.table.rows then
        w.(table := ReleasedRow(w.table, m), workers := Gone(w.workers, worker))
      else w.(workers := w.workers[worker := hold.(stage := ToReinsert(m))])
    case ToReinsert(m) => w.(table := Enqueued(w.table, m), workers := Gone(w.workers, worker))
    case ToBury(m) =>
      w.(dead := w.dead[m.id := m], workers := w.workers[worker := hold.(stage := ToAckBuried(m.id))])
    case ToAckBuried(id) => w.(table := Acked(w.table, id), workers := Gone(w.workers, worker))
  }

  /** Delivery succeeds, or uses up an attempt; past the budget the message is buried. */
  function DeliverStep(w: World, worker: Worker, ok: bool): World
    requires worker in w.workers && w.workers[worker].stage.Holding?
  {
    var hold := w.workers[worker];
    var m := hold.stage.message;
    if ok then
      w.(delivered := w.delivered + {m.id}, workers := w.workers[worker := hold.(stage := ToAck(m.id))])
    else
      var tried := m.(attempts := m.attempts + 1);
      var next := if tried.attempts > w.maxAttempts then ToBury(tried) else ToRelease(tried);
      w.(workers := w.workers[worker := hold.(stage := next)])
  }

  function Next(w: World, e: Event): World {
    match e
    case Produce(m) => w.(table := Enqueued(w.table, m), enqueued := w.enqueued + {m.id})
    case Claim(worker, id) =>
      if worker !in w.workers && id in w.table.rows && Claimable(w.table.rows[id], w.now) then
        w.(table := Leased(w.table, id, w.now),
           workers := w.workers[worker := Hold(Holding(w.table.rows[id].message), w.now + OUTBOX_LEASE)])
      else w
    case Deliver(worker, ok) =>
      if worker in w.workers && w.workers[worker].stage.Holding? then DeliverStep(w, worker, ok) else w
    case Settle(worker) => if worker in w.workers then SettleStep(w, worker) else w
    case Crash(worker) => w.(workers := Gone(w.workers, worker))
    case ReplayTake(op, id) =>
      if op !in w.operators && id in w.dead then
        w.(dead := w.dead - {id}, operators := w.operators[op := w.dead[id].(attempts := 0)])
      else w
    case ReplayPut(op) =>
      if op in w.operators then
        w.(table := Enqueued(w.table, w.operators[op]), operators := w.operators - {op})
      else w
    case ReplayCrash(op) => w.(operators := w.operators - {op})
    case Tick(t) => if t >= w.now then w.(now := t) else w
  }

  function Run(w: World, events: seq<Event>): World
    decreases |events|
  {
    if events == [] then w else Run(Next(w, events[0]), events[1..])
  }

  // ---- Nothing is lost ------------------------------------------------------------------------

  /** Messages are stored under their own identifier. */
  predicate Inv(w: World) {
    && (forall id :: id in w.table.rows ==> w.table.rows[id].message.id == id)
    && (forall id :: id in w.dead ==> w.dead[id].id == id)
    && (forall k :: k in w.workers && w.workers[k].stage.ToAck? ==> w.workers[k].stage.id in w.delivered)
    && (forall id :: id in w.table.rows && w.table.rows[id].lockedUntil.Some? ==>
          w.table.rows[id].lockedUntil.value <= w.now + OUTBOX_LEASE)
  }

  predicate InReplay(w: World, id: MessageId) {
    exists op :: op in w.operators && w.operators[op].id == id
  }

  /** The message is waiting, buried, on its way back from burial, or was delivered. */
  predicate Tracked(w: World, id: MessageId) {
    id in w.table.rows || id in w.dead || InReplay(w, id) || id in w.delivered
  }

  predicate OnlyReplay(w: World, op: Operator, id: MessageId) {
    forall other :: other in w.operators && w.operators[other].id == id ==> other == op
  }

  /**
   The two steps that can lose a message: acknowledging a burial whose dead letter has
   meanwhile been taken and put back, and a replay that dies between its take and its put.
   */
  predicate Loses(w: World, e: Event, id: MessageId) {
    match e
    case Settle(worker) =>
      worker in w.workers && w.workers[worker].stage == ToAckBuried(id)
      && id !in w.dead && !InReplay(w, id) && id !in w.delivered
    case ReplayCrash(op) =>
      op in w.operators && w.operators[op].id == id && OnlyReplay(w, op, id)
      && id !in w.table.rows && id !in w.dead && id !in w.delivered
    case _ => false
  }

  lemma SettleInv(w: World, worker: Worker)
    requires Inv(w)
    ensures Inv(Next(w, Settle(worker)))
  {
    hide IdOf;
    if worker in w.workers {
      match w.workers[worker].stage
      case Holding(_) =>
      case ToAck(_) =>
      case ToAckBuried(_) =>
      case ToRelease(_) =>
      case ToReinsert(_) =>
      case ToBury(_) =>
    }
  }

  lemma NextInv(w: World, e: Event)
    requires Inv(w)
    ensures Inv(Next(w, e))
  {
    hide SettleStep;
    if e.Settle? {
      SettleInv(w, e.worker);
    }
  }

  /** A message stays where it is found as long as the stores only grow. */
  lemma GrowthKeeps(w: World, v: World, id: MessageId)
    requires Tracked(w, id) && v.operators == w.operators && w.delivered <= v.delivered
    requires w.table.rows.Keys <= v.table.rows.Keys && w.dead.Keys <= v.dead.Keys
    ensures Tracked(v, id)
  {
    assert InReplay(w, id) ==> InReplay(v, id);
  }

  lemma SettleLosesExactly(w: World, worker: Worker, id: MessageId)
    requires Inv(w) && Tracked(w, id)
    ensures Tracked(Next(w, Settle(worker)), id) <==> !Loses(w, Settle(worker), id)
  {
    var v := Next(w, Settle(worker));
    assert v.operators == w.operators && InReplay(w, id) == InReplay(v, id);
    hide InReplay;
    if worker in w.workers {
      var stage := w.workers[worker].stage;
      match stage
      case ToAckBuried(_) => assert v.table.rows == w.table.rows - {stage.id};
      case ToAck(_) => assert v.table.rows == w.table.rows - {stage.id};
      case ToRelease(_) => GrowthKeeps(w, v, id);
      case ToReinsert(_) => GrowthKeeps(w, v, id);
      case ToBury(_) => GrowthKeeps(w, v, id);
      case Holding(_) =>
    }
  }

  lemma ReplayLosesExactly(w: World, e: Event, id: MessageId)
    requires Inv(w) && Tracked(w, id)
    requires e.ReplayTake? || e.ReplayPut? || e.ReplayCrash?
    ensures Tracked(Next(w, e), id) <==> !Loses(w, e, id)
  {
    var v := Next(w, e);
    forall op | op in w.operators && w.operators[op].id == id && (e.ReplayTake? || op != e.operator)
      ensures InReplay(v, id)
    {
      assert op in v.operators && v.operators[op].id == id;
    }
    if e.ReplayTake? && e.id == id && e.operator !in w.operators && id in w.dead {
      assert v.operators[e.operator].id == id;
    }
  }

  /** One step loses a tracked message exactly when it is one of those two. */
  lemma StepLosesExactly(w: World, e: Event, id: MessageId)
    requires Inv(w) && Tracked(w, id)
    ensures Tracked(Next(w, e), id) <==> !Loses(w, e, id)
  {
    hide Tracked, Inv;
    match e
    case Settle(worker) => SettleLosesExactly(w, worker, id);
    case ReplayTake(_, _) => ReplayLosesExactly(w, e, id);
    case ReplayPut(_) => ReplayLosesExactly(w, e, id);
    case ReplayCrash(_) => ReplayLosesExactly(w, e, id);
    case Produce(_) => GrowthKeeps(w, Next(w, e), id);
    case Claim(_, _) => GrowthKeeps(w, Next(w, e), id);
    case Deliver(_, _) => GrowthKeeps(w, Next(w, e), id);
    case Crash(_) => GrowthKeeps(w, Next(w, e), id);
    case Tick(_) => GrowthKeeps(w, Next(w, e), id);
  }

  predicate AllTracked(w: World) {
    forall id :: id in w.enqueued ==> Tracked(w, id)
  }

  predicate AlwaysTracked(w: World, events: seq<Event>)
    decreases |events|
  {
    AllTracked(w) && (events == [] || AlwaysTracked(Next(w, events[0]), events[1..]))
  }

  /** No step of the run is a losing one for any enqueued message. */
  predicate Lossless(w: World, events: seq<Event>)
    decreases |events|
  {
    events == [] ||
    ((forall id :: id in w.enqueued ==> !Loses(w, events[0], id)) && Lossless(Next(w, events[0]), events[1..]))
  }

  /**
   No lost message. In every interleaving of any number of workers and operators, with
   crashes and lease expiry anywhere, every enqueued message stays tracked throughout
   exactly when the run contains none of the two losing steps.
   */
  lemma {:induction false} NoLossExactly(w: World, events: seq<Event>)
    requires Inv(w) && AllTracked(w)
    ensures AlwaysTracked(w, events) <==> Lossless(w, events)
    decreases |events|
  {
    if events != [] {
      var e, v := events[0], Next(w, events[0]);
      NextInv(w, e);
      forall id | id in w.enqueued
        ensures Tracked(v, id) <==> !Loses(w, e, id)
      {
        StepLosesExactly(w, e, id);
      }
      assert forall id :: id in v.enqueued ==> id in w.enqueued || (e.Produce? && id == e.message.id && id in v.table.rows);
      if AllTracked(v) {
        NoLossExactly(v, events[1..]);
      }
    }
  }

  // ---- When replay is careful -------------------------------------------------------------------------

  predicate BurialPending(w: World, id: MessageId) {
    exists k :: k in w.workers && w.workers[k].stage == ToAckBuried(id)
  }

  /** Replay takes and puts back in one go, and not while a worker is still burying that message. */
  predicate CarefulReplay(w: World, events: seq<Event>)
    decreases |events|
  {
    events == [] ||
    (&& !events[0].ReplayCrash?
     && (events[0].ReplayTake? ==>
           !BurialPending(w, events[0].id) && |events| >= 2 && events[1] == ReplayPut(events[0].operator))
     && CarefulReplay(Next(w, events[0]), events[1..]))
  }

  /** Every burial awaiting its acknowledgement is still in the dead-letter store. */
  predicate BurialsKept(w: World) {
    forall k :: k in w.workers && w.workers[k].stage.ToAckBuried? ==> w.workers[k].stage.id in w.dead
  }

  /** With careful replay nothing is ever lost, whatever workers do and wherever they die. */
  lemma {:induction false} CarefulReplayIsLossless(w: World, events: seq<Event>)
    requires BurialsKept(w) && CarefulReplay(w, events)
    ensures Lossless(w, events)
    decreases |events|
  {
    if events != [] {
      var e, v := events[0], Next(w, events[0]);
      hide Inv;
      BurialsStepKept(w, e);
      forall id | id in w.enqueued
        ensures !Loses(w, e, id)
      {
      }
      hide BurialsKept, Next;
      CarefulReplayIsLossless(v, events[1..]);
    }
  }

  lemma BurialsStepKept(w: World, e: Event)
    requires BurialsKept(w) && (e.ReplayTake? ==> !BurialPending(w, e.id))
    ensures BurialsKept(Next(w, e))
  {
    hide Enqueued, ReleasedRow, Leased;
    var v := Next(w, e);
    forall k | k in v.workers && v.workers[k].stage.ToAckBuried?
      ensures v.workers[k].stage.id in v.dead
    {
      if k in w.workers && w.workers[k].stage == v.workers[k].stage && e.ReplayTake? {
        assert w.workers[k].stage == ToAckBuried(w.workers[k].stage.id);
      }
    }
  }

  /** So from an empty outbox, careful replay keeps every enqueued message. */
  lemma CarefulReplayKeepsAll(maxAttempts: nat, events: seq<Event>)
    requires CarefulReplay(Begin(maxAttempts), events)
    ensures AlwaysTracked(Begin(maxAttempts), events)
  {
    CarefulReplayIsLossless(Begin(maxAttempts), events);
    NoLossExactly(Begin(maxAttempts), events);
  }

  const SAMPLE := Message("m", "order.created", "o", "c", 0, None)

  /** Replay as written can lose: here it runs between a worker's burial and its acknowledgement. */
  lemma ReplayDuringBurialLoses() returns (events: seq<Event>, end: World)
    ensures events == [Produce(SAMPLE), Claim(1, "m"), Deliver(1, false), Settle(1),
                       ReplayTake(7, "m"), ReplayPut(7), Settle(1)]
    ensures end == Run(Begin(0), events)
    ensures "m" in end.enqueued
    ensures !Tracked(end, "m")
  {
    var w1 := Next(Begin(0), Produce(SAMPLE));
    var w2 := Next(w1, Claim(1, "m"));
    var w3 := Next(w2, Deliver(1, false));
    assert w3.workers[1].stage == ToBury(SAMPLE.(attempts := 1));
    var w4 := Next(w3, Settle(1));
    assert w4.workers[1].stage == ToAckBuried("m") && w4.operators == map[];
    var w5 := Next(w4, ReplayTake(7, "m"));
    assert w5.dead == map[] && w5.operators.Keys == {7};
    var w6 := Next(w5, ReplayPut(7));
    assert w6.dead == map[] && w6.operators == map[] && w6.delivered == {};
    end := Next(w6, Settle(1));
    assert "m" in end.enqueued && !Tracked(end, "m");
    events := [Produce(SAMPLE), Claim(1, "m"), Deliver(1, false), Settle(1), ReplayTake(7, "m"), ReplayPut(7), Settle(1)];
    RunSeven(Begin(0), Produce(SAMPLE), Claim(1, "m"), Deliver(1, false), Settle(1), ReplayTake(7, "m"), ReplayPut(7), Settle(1));
  }

  lemma RunStep(w: World, e: Event, rest: seq<Event>)
    ensures Run(w, [e] + rest) == Run(Next(w, e), rest)
  {
    assert ([e] + rest)[1..] == rest;
  }

  lemma RunSeven(w: World, a: Event, b: Event, c: Event, d: Event, e: Event, f: Event, g: Event)
    ensures Run(w, [a, b, c, d, e, f, g]) == Next(Next(Next(Next(Next(Next(Next(w, a), b), c), d), e), f), g)
  {
    hide Next;
    var w1, w2, w3 := Next(w, a), Next(Next(w, a), b), Next(Next(Next(w, a), b), c);
    var w4, w5, w6 := Next(w3, d), Next(Next(w3, d), e), Next(Next(Next(w3, d), e), f);
    RunStep(w, a, [b, c, d, e, f, g]);
    RunStep(w1, b, [c, d, e, f, g]);
    RunStep(w2, c, [d, e, f, g]);
    RunStep(w3, d, [e, f, g]);
    RunStep(w4, e, [f, g]);
    RunStep(w5, f, [g]);
    RunStep(w6, g, []);
    assert [a] + [b, c, d, e, f, g] == [a, b, c, d, e, f, g];
    assert [b] + [c, d, e, f, g] == [b, c, d, e, f, g];
    assert [c] + [d, e, f, g] == [c, d, e, f, g];
    assert [d] + [e, f, g] == [d, e, f, g];
    assert [g] + [] == [g];
    assert [f] + [g] == [f, g];
    assert [e] + [f, g] == [e, f, g];
  }

  // ---- Leases -------------------------------------------------------------------------------------------

  /** No two live workers are at work on the same message. */
  predicate Exclusive(w: World) {
    forall j, k :: j in w.workers && k in w.workers && IdOf(w.workers[j].stage) == IdOf(w.workers[k].stage) ==> j == k
  }

  predicate AlwaysExclusive(w: World, events: seq<Event>)
    decreases |events|
  {
    Exclusive(w) && (events == [] || AlwaysExclusive(Next(w, events[0]), events[1..]))
  }

  function Holders(w: World, id: MessageId): set<Worker> {
    set k | k in w.workers && IdOf(w.workers[k].stage) == id
  }

  /** The workers whose message has been enqueued over since they claimed it, which ended their lease early. */
  function Overwritten(w: World, cleared: set<Worker>, e: Event): set<Worker> {
    match e
    case Produce(m) => cleared + Holders(w, m.id)
    case ReplayPut(op) => if op in w.operators then cleared + Holders(w, w.operators[op].id) else cleared
    case Claim(worker, _) => if worker in w.workers then cleared else cleared - {worker}
    case _ => cleared
  }

  /** A free worker reaches for a message that a live worker still holds, past its lease or after it was enqueued over. */
  predicate Contested(w: World, cleared: set<Worker>, e: Event) {
    && e.Claim? && e.worker !in w.workers
    && exists k :: k in w.workers && IdOf(w.workers[k].stage) == e.id && (w.now > w.workers[k].until || k in cleared)
  }

  predicate Uncontested(w: World, cleared: set<Worker>, events: seq<Event>)
    decreases |events|
  {
    events == [] || (!Contested(w, cleared, events[0]) && Uncontested(Next(w, events[0]), Overwritten(w, cleared, events[0]), events[1..]))
  }

  /** Every live worker's row is in the table, leased to it for as long as nobody enqueued over it. */
  predicate Leasing(w: World, cleared: set<Worker>) {
    && Exclusive(w)
    && forall k :: k in w.workers ==>
         var id := IdOf(w.workers[k].stage);
         id in w.table.rows && w.table.rows[id].lockedUntil == if k in cleared then None else Some(w.workers[k].until)
  }

  /** Until two workers share a message, a held row can be claimed exactly past its lease or after being enqueued over. */
  lemma HeldRowIsClaimable(w: World, cleared: set<Worker>, k: Worker)
    requires Leasing(w, cleared) && k in w.workers
    ensures var id := IdOf(w.workers[k].stage);
            id in w.table.rows && (Claimable(w.table.rows[id], w.now) <==> w.now > w.workers[k].until || k in cleared)
  {
  }

  /** A worker leaves or moves on, and the rows that the others hold are as they were. */
  lemma LeasingKept(w: World, v: World, cleared: set<Worker>)
    requires Leasing(w, cleared) && v.workers.Keys <= w.workers.Keys
    requires forall k :: k in v.workers ==>
               v.workers[k].until == w.workers[k].until && IdOf(v.workers[k].stage) == IdOf(w.workers[k].stage)
    requires forall k :: k in v.workers ==>
               var id := IdOf(w.workers[k].stage);
               id in v.table.rows && id in w.table.rows && v.table.rows[id].lockedUntil == w.table.rows[id].lockedUntil
    ensures Leasing(v, cleared)
  {
    hide IdOf;
  }

  /** A worker's own store call changes only the row it holds, and never moves that worker to another row. */
  lemma SettleTouchesOwn(w: World, worker: Worker)
    requires Inv(w) && worker in w.workers && IdOf(w.workers[worker].stage) in w.table.rows
    ensures var v, id := SettleStep(w, worker), IdOf(w.workers[worker].stage);
            && v.now == w.now
            && (forall other :: other in w.table.rows && other != id ==>
                  other in v.table.rows && v.table.rows[other] == w.table.rows[other])
            && (forall k :: k in v.workers ==> k in w.workers && (k != worker ==> v.workers[k] == w.workers[k]))
            && (forall k :: k in w.workers && k != worker ==> k in v.workers)
            && (worker in v.workers ==>
                  && v.workers[worker].until == w.workers[worker].until
                  && IdOf(v.workers[worker].stage) == id && v.table == w.table)
  {
    hide Inv;
    match w.workers[worker].stage
    case Holding(_) =>
    case ToAck(_) => assert (SettleStep(w, worker)).table == Acked(w.table, w.workers[worker].stage.id);
    case ToRelease(_) =>
    case ToReinsert(_) =>
    case ToBury(_) =>
    case ToAckBuried(_) => assert (SettleStep(w, worker)).table == Acked(w.table, w.workers[worker].stage.id);
  }

  lemma LeasingSettle(w: World, cleared: set<Worker>, worker: Worker)
    requires Inv(w) && Leasing(w, cleared)
    ensures Leasing(Next(w, Settle(worker)), cleared)
  {
    var v := Next(w, Settle(worker));
    if worker in w.workers {
      var id := IdOf(w.workers[worker].stage);
      forall k | k in v.workers && k != worker
        ensures IdOf(w.workers[k].stage) != id
      {
      }
      SettleTouchesOwn(w, worker);
      hide SettleStep, IdOf;
      LeasingKept(w, v, cleared);
    }
  }

  /** A claim of a claimable row leaves every other worker as it was and leases the row to the claimer. */
  lemma ClaimTakes(w: World, worker: Worker, id: MessageId)
    requires Inv(w) && worker !in w.workers && id in w.table.rows && Claimable(w.table.rows[id], w.now)
    ensures var v := Next(w, Claim(worker, id));
            && v.now == w.now && v.workers.Keys == w.workers.Keys + {worker}
            && IdOf(v.workers[worker].stage) == id
            && id in v.table.rows && v.table.rows[id].lockedUntil == Some(v.workers[worker].until)
            && (forall k :: k in w.workers ==> v.workers[k] == w.workers[k])
            && (forall other :: other in w.table.rows && other != id ==>
                  other in v.table.rows && v.table.rows[other] == w.table.rows[other])
  {
    hide Claimable;
  }

  lemma LeasingClaim(w: World, cleared: set<Worker>, worker: Worker, id: MessageId)
    requires Inv(w) && Leasing(w, cleared)
    ensures var v, e := Next(w, Claim(worker, id)), Claim(worker, id);
            && (Exclusive(v) <==> !Contested(w, cleared, e))
            && (Exclusive(v) ==> Leasing(v, Overwritten(w, cleared, e)))
  {
    var v := Next(w, Claim(worker, id));
    forall k | k in w.workers {
      HeldRowIsClaimable(w, cleared, k);
    }
    if worker !in w.workers && id in w.table.rows && Claimable(w.table.rows[id], w.now) {
      ClaimTakes(w, worker, id);
      hide IdOf, Claimable, Next, Inv;
      if k :| k in w.workers && IdOf(w.workers[k].stage) == id {
        assert !Exclusive(v);
      } else {
        assert Leasing(v, cleared - {worker});
      }
    }
  }

  lemma LeasingEnqueue(w: World, cleared: set<Worker>, m: Message)
    requires Leasing(w, cleared)
    ensures Leasing(w.(table := Enqueued(w.table, m)), cleared + Holders(w, m.id))
  {
    hide IdOf;
  }

  lemma LeasingSame(w: World, v: World, cleared: set<Worker>)
    requires Leasing(w, cleared) && v.workers == w.workers && v.table == w.table
    ensures Leasing(v, cleared)
  {
    LeasingKept(w, v, cleared);
  }

  lemma LeasingElsewhere(w: World, cleared: set<Worker>, e: Event)
    requires Leasing(w, cleared)
    requires e.Deliver? || e.Crash? || e.ReplayTake? || e.ReplayCrash? || e.Tick?
    ensures Leasing(Next(w, e), cleared)
  {
    var v := Next(w, e);
    WorkersElsewhere(w, e);
    hide Next, IdOf;
    LeasingKept(w, v, cleared);
  }

  lemma WorkersElsewhere(w: World, e: Event)
    requires e.Deliver? || e.Crash? || e.ReplayTake? || e.ReplayCrash? || e.Tick?
    ensures var v := Next(w, e);
            && v.table == w.table && v.workers.Keys <= w.workers.Keys
            && forall k :: k in v.workers ==>
                 v.workers[k].until == w.workers[k].until && IdOf(v.workers[k].stage) == IdOf(w.workers[k].stage)
  {
  }

  /** One step makes two live workers share a message exactly when it is a contested claim. */
  lemma SharesExactly(w: World, cleared: set<Worker>, e: Event)
    requires Inv(w) && Leasing(w, cleared)
    ensures Exclusive(Next(w, e)) <==> !Contested(w, cleared, e)
    ensures Exclusive(Next(w, e)) ==> Leasing(Next(w, e), Overwritten(w, cleared, e))
  {
    match e
    case Claim(worker, id) => LeasingClaim(w, cleared, worker, id);
    case Settle(worker) => LeasingSettle(w, cleared, worker);
    case Produce(m) =>
      LeasingEnqueue(w, cleared, m);
      LeasingSame(w.(table := Enqueued(w.table, m)), Next(w, e), cleared + Holders(w, m.id));
    case ReplayPut(op) =>
      if op in w.operators {
        LeasingEnqueue(w, cleared, w.operators[op]);
        LeasingSame(w.(table := Enqueued(w.table, w.operators[op])), Next(w, e), cleared + Holders(w, w.operators[op].id));
      }
    case _ => LeasingElsewhere(w, cleared, e);
  }

  /**
   Lease exclusion, exactly. In every interleaving no two live workers ever hold the same
   message if and only if no claim reaches for a message whose live holder has outlived
   its lease or has had its message enqueued over.
   */
  lemma {:induction false} ExclusionExactly(w: World, cleared: set<Worker>, events: seq<Event>)
    requires Inv(w) && Leasing(w, cleared)
    ensures AlwaysExclusive(w, events) <==> Uncontested(w, cleared, events)
    decreases |events|
  {
    if events != [] {
      NextInv(w, events[0]);
      SharesExactly(w, cleared, events[0]);
      var v, more := Next(w, events[0]), Overwritten(w, cleared, events[0]);
      hide Inv, Leasing, Exclusive, Next, Contested, Overwritten;
      if Exclusive(v) {
        ExclusionExactly(v, more, events[1..]);
      } else {
        assert !AlwaysExclusive(v, events[1..]);
      }
    }
  }

  /** From the empty outbox on. */
  lemma LeaseExclusionExactly(maxAttempts: nat, events: seq<Event>)
    ensures AlwaysExclusive(Begin(maxAttempts), events) <==> Uncontested(Begin(maxAttempts), {}, events)
  {
    ExclusionExactly(Begin(maxAttempts), {}, events);
  }

  /** No worker outlives its lease, and nobody enqueues over a message that is still in the table. */
  predicate Timely(w: World, e: Event) {
    match e
    case Tick(t) => forall k :: k in w.workers ==> t <= w.workers[k].until
    case Produce(m) => m.id !in w.table.rows
    case ReplayPut(op) => op in w.operators ==> w.operators[op].id !in w.table.rows
    case _ => true
  }

  predicate TimelyRun(w: World, events: seq<Event>)
    decreases |events|
  {
    events == [] || (Timely(w, events[0]) && TimelyRun(Next(w, events[0]), events[1..]))
  }

  predicate InTime(w: World, cleared: set<Worker>) {
    forall k :: k in w.workers ==> k !in cleared && w.now <= w.workers[k].until
  }

  lemma StaysInTime(w: World, cleared: set<Worker>, e: Event)
    requires Leasing(w, cleared) && InTime(w, cleared) && Timely(w, e)
    ensures InTime(Next(w, e), Overwritten(w, cleared, e))
  {
    hide IdOf, Enqueued, Leased, Claimable;
    if e.Settle? || e.Crash? {
      StaysWithFewer(w, e);
    }
  }

  lemma StaysWithFewer(w: World, e: Event)
    requires e.Settle? || e.Crash?
    ensures var v := Next(w, e);
            v.now == w.now && forall k :: k in v.workers ==> k in w.workers && v.workers[k].until == w.workers[k].until
  {
    hide IdOf, Enqueued, ReleasedRow, Acked;
  }

  lemma {:induction false} TimelyIsUncontested(w: World, cleared: set<Worker>, events: seq<Event>)
    requires Inv(w) && Leasing(w, cleared) && InTime(w, cleared) && TimelyRun(w, events)
    ensures Uncontested(w, cleared, events)
    decreases |events|
  {
    if events != [] {
      NextInv(w, events[0]);
      SharesExactly(w, cleared, events[0]);
      StaysInTime(w, cleared, events[0]);
      hide Inv, Leasing, Exclusive, Next, Overwritten, Timely;
      TimelyIsUncontested(Next(w, events[0]), Overwritten(w, cleared, events[0]), events[1..]);
    }
  }

  /** So while workers stay within their leases, no two live workers ever hold the same message. */
  lemma LeaseExclusion(maxAttempts: nat, events: seq<Event>)
    requires TimelyRun(Begin(maxAttempts), events)
    ensures AlwaysExclusive(Begin(maxAttempts), events)
  {
    TimelyIsUncontested(Begin(maxAttempts), {}, events);
    LeaseExclusionExactly(maxAttempts, events);
  }

  lemma {:induction false} RunInv(w: World, events: seq<Event>)
    requires Inv(w)
    ensures Inv(Run(w, events))
    decreases |events|
  {
    if events != [] {
      NextInv(w, events[0]);
      RunInv(Next(w, events[0]), events[1..]);
    }
  }

  /** Whatever happened before, once a lease length has passed every waiting message can be claimed again. */
  lemma LeasesRunOut(maxAttempts: nat, events: seq<Event>, later: int)
    requires later > Run(Begin(maxAttempts), events).now + OUTBOX_LEASE
    ensures var v := Next(Run(Begin(maxAttempts), events), Tick(later));
            forall id :: id in v.table.rows ==> Claimable(v.table.rows[id], v.now)
  {
    RunInv(Begin(maxAttempts), events);
  }

  /** Outliving a lease breaks exclusion: the row is claimed again, and a late release frees it for a third worker. */
  lemma OverstayedLeaseIsShared()
    ensures var run := [Produce(SAMPLE), Claim(1, "m"), Tick(61), Claim(2, "m"), Deliver(1, false), Settle(1), Claim(3, "m")];
            var w := Run(Begin(5), run);
            2 in w.workers && 3 in w.workers && IdOf(w.workers[2].stage) == IdOf(w.workers[3].stage)
  {
    var w1 := Next(Begin(5), Produce(SAMPLE));
    var w2 := Next(w1, Claim(1, "m"));
    var w3 := Next(w2, Tick(61));
    var w4 := Next(w3, Claim(2, "m"));
    assert w4.workers[2] == Hold(Holding(SAMPLE), 121) && w4.workers[1] == Hold(Holding(SAMPLE), 60);
    var w5 := Next(w4, Deliver(1, false));
    assert w5.workers[1].stage == ToRelease(SAMPLE.(attempts := 1));
    var w6 := Next(w5, Settle(1));
    assert w6.table.rows["m"].lockedUntil == None && 2 in w6.workers;
    var w7 := Next(w6, Claim(3, "m"));
    assert 3 in w7.workers;
    RunSeven(Begin(5), Produce(SAMPLE), Claim(1, "m"), Tick(61), Claim(2, "m"), Deliver(1, false), Settle(1), Claim(3, "m"));
  }
}
