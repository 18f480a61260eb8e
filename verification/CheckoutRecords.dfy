/**
 Where what a checkout works on comes from and where it ends up, over whole runs: the cart
 it pays for, the stock it reserves and finalizes, the identifiers it makes and the payment
 states it records.
 */
module CheckoutRecords {
  import opened Wrappers
  import opened CartModel
  import opened Checkout
  import opened CheckoutSafety
  import opened CheckoutOutcomes
  import opened CheckoutHistory
  import opened ReservationStates
  import CartOutcomes
  import CartHistory
  import Idempotency

  // ---- The cart that is paid for ----------------------------------------------------------------

  /** Event `i` is a step of this call. */
  predicate StepsAt(policy: Policy, events: seq<Event>, i: nat, pid: Pid) {
    i < |events| && events[i].Step? && events[i].pid == pid && pid in At(policy, events, i).procs
  }

  /** Event `i` loads the cart `c`, whose owner and version are the ones asked for. */
  predicate LoadedAt(policy: Policy, events: seq<Event>, i: nat, pid: Pid, c: Cart) {
    && StepsAt(policy, events, i, pid)
    && var w := At(policy, events, i);
       var req := w.procs[pid].req;
       && w.procs[pid].phase.Loading? && req.cartId in w.snapshots && w.snapshots[req.cartId] == c
       && (c.tenantId == None || c.tenantId == Some(req.tenantId)) && c.version == req.cartVersion
  }

  /** Event `i` re-prices the loaded cart `c` into `d`, exactly as the providers answer it. */
  predicate RepricedAt(policy: Policy, events: seq<Event>, i: nat, pid: Pid, c: Cart, d: Cart) {
    && StepsAt(policy, events, i, pid) && At(policy, events, i).procs[pid].phase == Settling(c)
    && var ans := events[i].answer;
       && Answered(c, ans) && ans.geo.Ok?
       && (DistinctLines(c.lines) ==>
             CartOutcomes.Recomputed(c, d, ans.prices.value, ans.tax.value, ans.discounts, ans.geo.value))
  }

  lemma SettlingStep(w: World, pid: Pid, ans: Answer)
    requires pid in w.procs
    ensures var v, req := Next(w, Step(pid, ans)), w.procs[pid].req;
            && pid in v.procs
            && (v.procs[pid].phase.Settling? ==>
                  && w.procs[pid].phase.Loading? && req.cartId in w.snapshots && w.snapshots[req.cartId] == v.procs[pid].phase.cart
                  && (v.procs[pid].phase.cart.tenantId == None || v.procs[pid].phase.cart.tenantId == Some(req.tenantId))
                  && v.procs[pid].phase.cart.version == req.cartVersion)
            && (v.procs[pid].phase.Saving? ==>
                  && w.procs[pid].phase.Settling? && ans.geo.Ok? && RepriceForCheckout(w.procs[pid].phase.cart, ans).Ok?
                  && v.procs[pid].phase.cart == RepriceForCheckout(w.procs[pid].phase.cart, ans).value.(geoOk := ans.geo.value))
  {
    var p := w.procs[pid];
    hide Advance, ApplyOp, ApplyReservation, RepriceForCheckout;
    SettlingMove(w.policy, p.req, p.phase, Idempotency.Current(w.keys, KeyOf(p.req)),
                 if p.req.cartId in w.snapshots then Some(w.snapshots[p.req.cartId]) else None, ans, w.nextId);
  }

  lemma SettlingMove(policy: Policy, req: Request, phase: Phase, claimed: Option<Idempotency.State<TransactionResult>>,
                     snapshot: Option<Cart>, ans: Answer, newId: nat)
    ensures var m := Advance(policy, req, phase, claimed, snapshot, ans, newId);
            && (m.phase.Settling? ==>
                  && phase.Loading? && snapshot == Some(m.phase.cart)
                  && (m.phase.cart.tenantId == None || m.phase.cart.tenantId == Some(req.tenantId))
                  && m.phase.cart.version == req.cartVersion)
            && (m.phase.Saving? ==>
                  && phase.Settling? && ans.geo.Ok? && RepriceForCheckout(phase.cart, ans).Ok?
                  && m.phase.cart == RepriceForCheckout(phase.cart, ans).value.(geoOk := ans.geo.value))
  {
    hide RepriceForCheckout, PolicyRejects, TotalsOf;
  }

  lemma {:induction false} SettlingWasLoaded(policy: Policy, events: seq<Event>, pid: Pid) returns (i: nat)
    requires pid in Run(Begin(policy), events).procs && Run(Begin(policy), events).procs[pid].phase.Settling?
    ensures i < |events| && LoadedAt(policy, events, i, pid, Run(Begin(policy), events).procs[pid].phase.cart)
    decreases |events|
  {
    var n := |events| - 1;
    assert events[..|events|] == events;
    AtNext(policy, events, n);
    var w, e := At(policy, events, n), events[n];
    OnlyOwnSteps(w, e, pid);
    if e.Step? && e.pid == pid && pid in w.procs {
      SettlingStep(w, pid, e.answer);
      hide Next, Run;
      i := n;
    } else {
      hide Next;
      i := SettlingWasLoaded(policy, events[..n], pid);
      AtPrefix(policy, events, n, i);
    }
  }

  lemma {:induction false} SavingWasRepriced(policy: Policy, events: seq<Event>, pid: Pid) returns (i: nat, j: nat, c: Cart)
    requires pid in Run(Begin(policy), events).procs && Run(Begin(policy), events).procs[pid].phase.Saving?
    ensures i < j < |events| && LoadedAt(policy, events, i, pid, c)
    ensures RepricedAt(policy, events, j, pid, c, Run(Begin(policy), events).procs[pid].phase.cart)
    decreases |events|
  {
    var n := |events| - 1;
    assert events[..|events|] == events;
    AtNext(policy, events, n);
    var w, e := At(policy, events, n), events[n];
    OnlyOwnSteps(w, e, pid);
    if e.Step? && e.pid == pid && pid in w.procs {
      SettlingStep(w, pid, e.answer);
      hide Next;
      c, j := w.procs[pid].phase.cart, n;
      i := SettlingWasLoaded(policy, events[..n], pid);
      AtPrefix(policy, events, n, i);
      hide Run;
      RepricedIs(c, e.answer);
    } else {
      hide Next;
      i, j, c := SavingWasRepriced(policy, events[..n], pid);
      AtPrefix(policy, events, n, i);
      AtPrefix(policy, events, n, j);
    }
  }

  lemma RepricedIs(c: Cart, ans: Answer)
    requires RepriceForCheckout(c, ans).Ok? && ans.geo.Ok?
    ensures Answered(c, ans)
    ensures DistinctLines(c.lines) ==>
              CartOutcomes.Recomputed(c, RepriceForCheckout(c, ans).value.(geoOk := ans.geo.value), ans.prices.value,
                                      ans.tax.value, ans.discounts, ans.geo.value)
  {
    if DistinctLines(c.lines) {
      RepricingRecomputes(c, ans, ans.geo.value);
    }
    hide WithPrices, TotalDiscount, DistinctLines, CartOutcomes.Recomputed;
  }

  /**
   Where the paid cart comes from. A call that is reserving or paying has loaded the cart
   asked for, re-priced it from the providers' answers and stored the outcome, in this
   order; and that outcome is the cart it holds.
   */
  lemma PaidCartWasRepriced(policy: Policy, events: seq<Event>, pid: Pid) returns (i: nat, j: nat, k: nat, c: Cart)
    requires pid in Run(Begin(policy), events).procs && Paying(Run(Begin(policy), events).procs[pid].phase)
    ensures i < j < k < |events| && LoadedAt(policy, events, i, pid, c)
    ensures RepricedAt(policy, events, j, pid, c, Run(Begin(policy), events).procs[pid].phase.cart)
    ensures SavedAt(policy, events, k, pid, Run(Begin(policy), events).procs[pid].phase.cart)
  {
    k := StoredTotalIsPaid(policy, events, pid);
    i, j, c := SavingWasRepriced(policy, events[..k], pid);
    AtPrefix(policy, events, k, i);
    AtPrefix(policy, events, k, j);
    hide Run, CartOutcomes.Recomputed, DistinctLines;
  }

  // ---- Stock -------------------------------------------------------------------------------------

  /** Event `i` reserves this line of the cart: its item, in its quantity. */
  predicate ReservedAt(policy: Policy, events: seq<Event>, i: nat, pid: Pid, c: Cart, line: nat) {
    && StepsAt(policy, events, i, pid) && line < |c.lines|
    && At(policy, events, i).procs[pid].phase == Reserving(c, line)
    && var v, key := At(policy, events, i + 1), (At(policy, events, i).procs[pid].req.cartId, c.lines[line].itemId);
       key in v.reservations && v.reservations[key] == Reservation(c.lines[line].quantity, Reserved)
  }

  lemma ReservingStep(w: World, pid: Pid, ans: Answer)
    requires pid in w.procs && w.procs[pid].phase.Reserving?
    ensures var v, c, i := Next(w, Step(pid, ans)), w.procs[pid].phase.cart, w.procs[pid].phase.line;
            && pid in v.procs
            && (Paying(v.procs[pid].phase) && i < |c.lines| ==>
                  && v.procs[pid].phase == Reserving(c, i + 1)
                  && (w.procs[pid].req.cartId, c.lines[i].itemId) in v.reservations
                  && v.reservations[(w.procs[pid].req.cartId, c.lines[i].itemId)] == Reservation(c.lines[i].quantity, Reserved))
            && (Paying(v.procs[pid].phase) && i >= |c.lines| ==> !v.procs[pid].phase.Reserving?)
  {
    hide PolicyRejects, TotalsOf, KeyOf, ApplyOp;
  }

  lemma OtherPayingStep(w: World, pid: Pid, ans: Answer)
    requires pid in w.procs && Paying(w.procs[pid].phase) && !w.procs[pid].phase.Reserving?
    ensures pid in Next(w, Step(pid, ans)).procs && !Next(w, Step(pid, ans)).procs[pid].phase.Reserving?
  {
    hide PolicyRejects, TotalsOf, KeyOf, ApplyOp, ApplyReservation;
  }

  lemma SavingStep(w: World, pid: Pid, ans: Answer)
    requires pid in w.procs && w.procs[pid].phase.Saving?
    ensures var phase := Next(w, Step(pid, ans)).procs[pid].phase;
            Paying(phase) ==> phase.Reserving? && phase.line == 0
  {
    hide PolicyRejects, TotalsOf, KeyOf, ApplyOp, ApplyReservation;
  }

  /** How many lines a paying call has reserved. */
  function ReservedLines(phase: Phase): nat
    requires Paying(phase)
  {
    if phase.Reserving? then phase.line else |phase.cart.lines|
  }

  /** Somebody who has reserved this line had done so before, or does with this event. */
  lemma LineStep(w: World, e: Event, pid: Pid, line: nat)
    requires Inv(w) && pid in Next(w, e).procs && Paying(Next(w, e).procs[pid].phase)
    requires line < ReservedLines(Next(w, e).procs[pid].phase)
    ensures pid in w.procs
    ensures var phase, cart := w.procs[pid].phase, Next(w, e).procs[pid].phase.cart;
            || (Paying(phase) && line < ReservedLines(phase) && phase.cart == cart)
            || (&& e.Step? && e.pid == pid && phase == Reserving(cart, line) && line < |cart.lines|
                && var key := (w.procs[pid].req.cartId, cart.lines[line].itemId);
                   key in Next(w, e).reservations
                   && Next(w, e).reservations[key] == Reservation(cart.lines[line].quantity, Reserved))
  {
    assert pid in w.procs ==> ProcOk(w, pid);
    EntersPaying(w, e, pid);
    OnlyOwnSteps(w, e, pid);
    hide Inv, ProcOk;
    if e.Step? && e.pid == pid {
      if w.procs[pid].phase.Reserving? {
        ReservingStep(w, pid, e.answer);
      } else if w.procs[pid].phase.Saving? {
        SavingStep(w, pid, e.answer);
      } else {
        OtherPayingStep(w, pid, e.answer);
      }
    }
    hide Next;
  }

  /** A call that pays has reserved each line: its item, in its quantity. */
  lemma {:induction false} LinesWereReserved(policy: Policy, events: seq<Event>, pid: Pid, line: nat) returns (i: nat)
    requires pid in Run(Begin(policy), events).procs && Paying(Run(Begin(policy), events).procs[pid].phase)
    requires line < ReservedLines(Run(Begin(policy), events).procs[pid].phase)
    ensures i < |events| && ReservedAt(policy, events, i, pid, Run(Begin(policy), events).procs[pid].phase.cart, line)
    decreases |events|
  {
    var n := |events| - 1;
    assert events[..|events|] == events;
    AtNext(policy, events, n);
    var w, e := At(policy, events, n), events[n];
    LineStep(w, e, pid, line);
    hide Inv, Next, Paying;
    if Paying(w.procs[pid].phase) && line < ReservedLines(w.procs[pid].phase) {
      i := LinesWereReserved(policy, events[..n], pid, line);
      AtPrefix(policy, events, n, i);
      AtPrefix(policy, events, n, i + 1);
    } else {
      i := n;
    }
  }

  predicate AllFinalized(w: World, cart: CartId) {
    forall k :: k in w.reservations && k.0 == cart ==> w.reservations[k].state == Finalized
  }

  /** This event finalizes every reservation of the call's cart on the way to this result. */
  predicate Finalizes(w: World, e: Event, pid: Pid, r: TransactionResult) {
    && e.Step? && e.pid == pid && pid in w.procs && w.procs[pid].phase.Finalizing? && w.procs[pid].phase.result == r
    && e.answer.store.Done? && AllFinalized(Next(w, e), w.procs[pid].req.cartId)
  }

  predicate FinalizedAt(policy: Policy, events: seq<Event>, i: nat, pid: Pid, r: TransactionResult)
    requires i < |events|
  {
    Finalizes(At(policy, events, i), events[i], pid, r)
  }

  /** Past finalizing, with a completed result in hand. */
  predicate Shipped(phase: Phase, r: TransactionResult) {
    r.status.Completed? && ((phase.Enqueueing? && phase.result == r) || phase == Completing(r))
  }

  lemma FinalizingStep(w: World, pid: Pid, ans: Answer, r: TransactionResult)
    requires pid in w.procs && ProcOk(w, pid) && Shipped(Next(w, Step(pid, ans)).procs[pid].phase, r)
    ensures Shipped(w.procs[pid].phase, r) || Finalizes(w, Step(pid, ans), pid, r)
  {
    hide RepriceForCheckout, PolicyRejects, RefusedResult, TotalsOf, KeyOf, Settled, ApplyOp;
  }

  lemma {:induction false} ShippedWasFinalized(policy: Policy, events: seq<Event>, pid: Pid, r: TransactionResult)
    returns (i: nat)
    requires pid in Run(Begin(policy), events).procs && Shipped(Run(Begin(policy), events).procs[pid].phase, r)
    ensures i < |events| && FinalizedAt(policy, events, i, pid, r)
    ensures pid in At(policy, events, i).procs
            && At(policy, events, i).procs[pid].req == Run(Begin(policy), events).procs[pid].req
    decreases |events|
  {
    var n := |events| - 1;
    assert events[..|events|] == events;
    AtNext(policy, events, n);
    var w, e := At(policy, events, n), events[n];
    OnlyOwnSteps(w, e, pid);
    assert pid in w.procs && ProcOk(w, pid);
    if e.Step? && e.pid == pid {
      FinalizingStep(w, pid, e.answer, r);
    }
    hide Next, Inv, ProcOk, Finalizes;
    if Shipped(w.procs[pid].phase, r) {
      i := ShippedWasFinalized(policy, events[..n], pid, r);
      AtPrefix(policy, events, n, i);
    } else {
      i := n;
    }
  }

  /**
   Sold stock is finalized: whenever a key is completed by a purchase, some step of a call
   under it finalized every reservation of its cart.
   */
  lemma {:induction false} CompletionFinalizes(policy: Policy, events: seq<Event>, key: Key, r: TransactionResult)
    returns (i: nat, pid: Pid)
    requires Idempotency.Current(Run(Begin(policy), events).keys, key) == Some(Idempotency.Completed(r))
    requires r.status.Completed?
    ensures i < |events| && FinalizedAt(policy, events, i, pid, r)
    ensures pid in At(policy, events, i).procs && KeyOf(At(policy, events, i).procs[pid].req) == key
    decreases |events|
  {
    var n := |events| - 1;
    assert events[..|events|] == events;
    AtNext(policy, events, n);
    var w := At(policy, events, n);
    BecomesCompleted(w, events[n], key, r);
    hide Next, Finalizes, Inv;
    if Idempotency.Current(w.keys, key) == Some(Idempotency.Completed(r)) {
      i, pid := CompletionFinalizes(policy, events[..n], key, r);
    } else {
      pid := events[n].pid;
      i := ShippedWasFinalized(policy, events[..n], pid, r);
    }
    AtPrefix(policy, events, n, i);
  }

  // ---- Identifiers and payment states -----------------------------------------------------------------

  /** No transaction or order identifier is used for two of them, and none is still to come. */
  predicate FreshIds(w: World) {
    && (forall i :: 0 <= i < |w.effects| && w.effects[i].1.Commit? ==> w.effects[i].1.transactionId < w.nextId)
    && (forall i :: 0 <= i < |w.effects| && w.effects[i].1.PutOrder? ==> w.effects[i].1.orderId < w.nextId)
    && (forall i, j :: 0 <= i < j < |w.effects| && w.effects[i].1.Commit? && w.effects[j].1.Commit? ==>
          w.effects[i].1.transactionId != w.effects[j].1.transactionId)
    && (forall i, j :: 0 <= i < j < |w.effects| && w.effects[i].1.PutOrder? && w.effects[j].1.PutOrder? ==>
          w.effects[i].1.orderId != w.effects[j].1.orderId)
  }

  lemma MoveMints(policy: Policy, req: Request, phase: Phase, claimed: Option<Idempotency.State<TransactionResult>>,
                  snapshot: Option<Cart>, ans: Answer, newId: nat)
    ensures var m := Advance(policy, req, phase, claimed, snapshot, ans, newId);
            m.effect.Some? ==>
              && (m.effect.value.Commit? ==> m.effect.value.transactionId == newId)
              && (m.effect.value.PutOrder? ==> m.effect.value.orderId == newId)
  {
    hide RepriceForCheckout, PolicyRejects, TotalsOf;
  }

  lemma StepFresh(w: World, e: Event)
    requires FreshIds(w)
    ensures FreshIds(Next(w, e))
  {
    hide Advance, ValidRequest, ApplyOp, ApplyReservation, KeyOf;
    if e.Step? && e.pid in w.procs {
      var p := w.procs[e.pid];
      MoveMints(w.policy, p.req, p.phase, Idempotency.Current(w.keys, KeyOf(p.req)),
                if p.req.cartId in w.snapshots then Some(w.snapshots[p.req.cartId]) else None, e.answer, w.nextId);
    }
  }

  /** Every committed transaction and every order has an identifier of its own, across all keys. */
  lemma {:induction false} IdentifiersAreFresh(policy: Policy, events: seq<Event>)
    ensures FreshIds(Run(Begin(policy), events))
    decreases |events|
  {
    if events != [] {
      var n := |events| - 1;
      assert events[..|events|] == events;
      AtNext(policy, events, n);
      IdentifiersAreFresh(policy, events[..n]);
      hide Next, FreshIds;
      StepFresh(At(policy, events, n), events[n]);
    }
  }

  /** Each recorded payment state is that of a recorded result. */
  ghost predicate PaymentsMatch(w: World) {
    forall t :: t in w.payments ==>
      exists key: Key :: key in w.keys && w.keys[key].Completed? && w.keys[key].result.transactionId == t
                         && w.keys[key].result.paymentState == w.payments[t]
  }

  lemma MovePays(policy: Policy, req: Request, phase: Phase, claimed: Option<Idempotency.State<TransactionResult>>,
                 snapshot: Option<Cart>, ans: Answer, newId: nat)
    ensures var m := Advance(policy, req, phase, claimed, snapshot, ans, newId);
            m.payment == if phase.Recording? then Some((phase.result.transactionId, phase.result.paymentState)) else None
  {
    hide RepriceForCheckout, PolicyRejects, TotalsOf;
  }

  lemma StepPays(w: World, e: Event)
    requires Inv(w) && PaymentsMatch(w)
    ensures PaymentsMatch(Next(w, e))
  {
    var v := Next(w, e);
    StepKeepsCompleted(w, e);
    if e.Step? && e.pid in w.procs {
      var p := w.procs[e.pid];
      assert ProcOk(w, e.pid);
      MovePays(w.policy, p.req, p.phase, Idempotency.Current(w.keys, KeyOf(p.req)),
               if p.req.cartId in w.snapshots then Some(w.snapshots[p.req.cartId]) else None, e.answer, w.nextId);
      hide Advance, ApplyReservation, KeyOf, Inv, PhaseOk;
      PaymentsStay(w, v, if p.phase.Recording? then Some(p.phase.result) else None, KeyOf(p.req));
    } else {
      hide Inv, ValidRequest;
      PaymentsStay(w, v, None, Idempotency.Key("", "", ""));
    }
  }

  lemma PaymentsStay(w: World, v: World, r: Option<TransactionResult>, key: Key)
    requires PaymentsMatch(w) && CompletedKept(w, v)
    requires v.payments == if r.Some? then w.payments[r.value.transactionId := r.value.paymentState] else w.payments
    requires r.Some? ==> key in w.keys && w.keys[key] == Idempotency.Completed(r.value)
    ensures PaymentsMatch(v)
  {
    forall t | t in v.payments
      ensures exists k: Key :: k in v.keys && v.keys[k].Completed? && v.keys[k].result.transactionId == t
                               && v.keys[k].result.paymentState == v.payments[t]
    {
      if r.Some? && t == r.value.transactionId {
        assert v.keys[key] == Idempotency.Completed(r.value);
      } else {
        var k: Key :| k in w.keys && w.keys[k].Completed? && w.keys[k].result.transactionId == t
                      && w.keys[k].result.paymentState == w.payments[t];
        assert v.keys[k] == w.keys[k];
      }
    }
  }

  /** In every run the payment states on record are those of the recorded results. */
  lemma {:induction false} PaymentStatesMatchResults(policy: Policy, events: seq<Event>)
    ensures PaymentsMatch(Run(Begin(policy), events))
    decreases |events|
  {
    if events != [] {
      var n := |events| - 1;
      assert events[..|events|] == events;
      AtNext(policy, events, n);
      PaymentStatesMatchResults(policy, events[..n]);
      hide Next, PaymentsMatch, Inv;
      StepPays(At(policy, events, n), events[n]);
    }
  }
}
