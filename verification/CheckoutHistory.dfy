/** What whole runs of checkout say about amounts, refusals and repeated calls. */
module CheckoutHistory {
  import opened Wrappers
  import opened CartModel
  import opened Checkout
  import opened CheckoutSafety
  import opened CheckoutOutcomes
  import opened ReservationStates
  import Idempotency

  // ---- One amount ---------------------------------------------------------------------------------

  /** A call in a paying phase entered it by storing the very cart it holds, for the amount its request names. */
  predicate SavedAt(policy: Policy, events: seq<Event>, i: nat, pid: Pid, c: Cart)
    requires i < |events|
  {
    var w, v := At(policy, events, i), At(policy, events, i + 1);
    && pid in w.procs && w.procs[pid].phase == Saving(c) && events[i].Step? && events[i].pid == pid
    && c.cartId in v.snapshots && v.snapshots[c.cartId] == c
    && v.snapshots[c.cartId].totalMinor == w.procs[pid].req.amountMinor && v.snapshots[c.cartId].geoOk
  }

  lemma SavedAtLater(policy: Policy, events: seq<Event>, n: nat, i: nat, pid: Pid, c: Cart)
    requires i < n <= |events|
    ensures SavedAt(policy, events[..n], i, pid, c) <==> SavedAt(policy, events, i, pid, c)
  {
    AtPrefix(policy, events, n, i);
    AtPrefix(policy, events, n, i + 1);
    hide At;
  }

  /** Only its own steps move a call, but for arriving and dying. */
  lemma OnlyOwnSteps(w: World, e: Event, pid: Pid)
    requires pid in Next(w, e).procs
    ensures var v := Next(w, e);
            || (pid in w.procs && v.procs[pid] == w.procs[pid])
            || v.procs[pid].phase == Claiming || v.procs[pid].phase == Crashed || v.procs[pid].phase == Finished(Err(Invalid))
            || (e.Step? && e.pid == pid && pid in w.procs && v.procs[pid].req == w.procs[pid].req)
  {
    hide Advance, ValidRequest, ApplyReservation, ApplyOp, KeyOf;
  }

  lemma MovesIntoPaying(policy: Policy, req: Request, phase: Phase, claimed: Option<Idempotency.State<TransactionResult>>,
                        snapshot: Option<Cart>, ans: Answer, newId: nat)
    requires Paying(Advance(policy, req, phase, claimed, snapshot, ans, newId).phase)
    ensures var m := Advance(policy, req, phase, claimed, snapshot, ans, newId);
            || (Paying(phase) && phase.cart == m.phase.cart)
            || (phase == Saving(m.phase.cart) && m.save == Some(m.phase.cart)
                && m.phase.cart.totalMinor == req.amountMinor && m.phase.cart.geoOk)
  {
    hide RepriceForCheckout, PolicyRejects, RefusedResult, TotalsOf;
  }

  lemma StepsIntoPaying(w: World, pid: Pid, ans: Answer)
    requires pid in w.procs && Paying(Next(w, Step(pid, ans)).procs[pid].phase)
    ensures var v, phase := Next(w, Step(pid, ans)), w.procs[pid].phase;
            var c := v.procs[pid].phase.cart;
            || (Paying(phase) && phase.cart == c)
            || (phase == Saving(c) && c.cartId in v.snapshots && v.snapshots[c.cartId] == c
                && c.totalMinor == w.procs[pid].req.amountMinor && c.geoOk)
  {
    var p := w.procs[pid];
    hide Advance, ApplyReservation, ApplyOp, Paying, KeyOf;
    MovesIntoPaying(w.policy, p.req, p.phase, Idempotency.Current(w.keys, KeyOf(p.req)),
                    if p.req.cartId in w.snapshots then Some(w.snapshots[p.req.cartId]) else None, ans, w.nextId);
  }

  /** How a call gets into a paying phase: it was in one with the same cart, or it has just saved that cart. */
  lemma EntersPaying(w: World, e: Event, pid: Pid)
    requires pid in Next(w, e).procs && Paying(Next(w, e).procs[pid].phase)
    ensures var v := Next(w, e);
            && pid in w.procs && w.procs[pid].req == v.procs[pid].req
            && (|| (Paying(w.procs[pid].phase) && w.procs[pid].phase.cart == v.procs[pid].phase.cart)
                || (&& w.procs[pid].phase == Saving(v.procs[pid].phase.cart) && e.Step? && e.pid == pid
                    && (var c := v.procs[pid].phase.cart;
                        && c.cartId in v.snapshots && v.snapshots[c.cartId] == c
                        && c.totalMinor == w.procs[pid].req.amountMinor && c.geoOk)))
  {
    hide Next;
    OnlyOwnSteps(w, e, pid);
    if e.Step? && e.pid == pid && pid in w.procs {
      StepsIntoPaying(w, pid, e.answer);
    }
  }

  /**
   The stored total is what is paid: whenever a call is reserving or paying, some earlier
   step of its own stored exactly the cart it holds, allowed and at exactly the requested
   amount.
   */
  lemma {:induction false} StoredTotalIsPaid(policy: Policy, events: seq<Event>, pid: Pid) returns (i: nat)
    requires pid in Run(Begin(policy), events).procs && Paying(Run(Begin(policy), events).procs[pid].phase)
    ensures i < |events| && SavedAt(policy, events, i, pid, Run(Begin(policy), events).procs[pid].phase.cart)
    decreases |events|
  {
    var n := |events| - 1;
    assert events[..|events|] == events;
    AtNext(policy, events, n);
    var w := At(policy, events, n);
    EntersPaying(w, events[n], pid);
    hide Next;
    if Paying(w.procs[pid].phase) {
      i := StoredTotalIsPaid(policy, events[..n], pid);
      SavedAtLater(policy, events, n, i, pid, w.procs[pid].phase.cart);
    } else {
      i := n;
    }
  }

  /** The amount an effect moves or records. */
  function AmountOf(e: Effect): Option<int> {
    match e
    case Authorize(amount) => Some(amount)
    case Capture(_, amount) => Some(amount)
    case PutOrder(_, _, totals) => Some(totals.totalMinor)
    case _ => None
  }

  /** Somebody asked, under this key, for this amount. */
  predicate Requested(w: World, key: Key, amount: int) {
    exists p :: p in w.procs && KeyOf(w.procs[p].req) == key && w.procs[p].req.amountMinor == amount
  }

  predicate AmountsRequested(w: World, key: Key) {
    forall e :: e in ByKey(w.effects, key) && AmountOf(e).Some? ==> Requested(w, key, AmountOf(e).value)
  }

  lemma RequestedLater(w: World, e: Event, key: Key)
    ensures forall p :: p in w.procs ==> p in Next(w, e).procs && Next(w, e).procs[p].req == w.procs[p].req
    ensures forall amount :: Requested(w, key, amount) ==> Requested(Next(w, e), key, amount)
  {
    hide Advance, KeyOf, ValidRequest;
    var v := Next(w, e);
    assert forall p :: p in w.procs ==> p in v.procs && v.procs[p].req == w.procs[p].req;
    hide Next;
    forall amount | Requested(w, key, amount)
      ensures Requested(v, key, amount)
    {
      var p :| p in w.procs && KeyOf(w.procs[p].req) == key && w.procs[p].req.amountMinor == amount;
      assert p in v.procs;
    }
  }

  lemma StepRequested(w: World, e: Event, key: Key)
    requires Inv(w) && AmountsRequested(w, key)
    ensures AmountsRequested(Next(w, e), key)
  {
    var v := Next(w, e);
    RequestedLater(w, e, key);
    if e.Step? && e.pid in w.procs {
      var m, mine := MoveOf(w, e.pid, e.answer), KeyOf(w.procs[e.pid].req);
      if m.effect.Some? {
        ByKeyAppend(w.effects, mine, m.effect.value, key);
        EffectRequested(w, e.pid, e.answer);
        assert mine == key && AmountOf(m.effect.value).Some? ==> Requested(v, key, AmountOf(m.effect.value).value) by {
          assert e.pid in v.procs;
        }
        hide ByKey, Advance, MoveOf, Requested, KeyOf;
      }
    }
  }

  lemma EffectRequested(w: World, pid: Pid, ans: Answer)
    requires Inv(w) && pid in w.procs
    ensures var effect := MoveOf(w, pid, ans).effect;
            effect.Some? && AmountOf(effect.value).Some? ==> AmountOf(effect.value).value == w.procs[pid].req.amountMinor
  {
    assert ProcOk(w, pid);
    hide KeyOk, Inv, RepriceForCheckout, PolicyRejects, RefusedResult, KeyOf, Balanced;
  }

  /**
   One amount end to end: every authorization, capture and order made under a key carries
   the amount of a request made under that key, whatever became of the calls.
   */
  lemma {:induction false} EffectsCarryRequestedAmount(policy: Policy, events: seq<Event>, key: Key)
    ensures AmountsRequested(Run(Begin(policy), events), key)
    decreases |events|
  {
    if events == [] {
      assert ByKey([], key) == [];
    } else {
      var n := |events| - 1;
      assert events[..|events|] == events;
      AtNext(policy, events, n);
      EffectsCarryRequestedAmount(policy, events[..n], key);
      StepRequested(At(policy, events, n), events[n], key);
    }
  }

  // ---- Refusals ------------------------------------------------------------------------------------------

  /** This event is the release of a refused checkout: the call that made result `r` under `key` gives its cart's stock back. */
  predicate Releases(w: World, e: Event, key: Key, r: TransactionResult, cart: CartId) {
    && e.Step? && e.pid in w.procs && KeyOf(w.procs[e.pid].req) == key && w.procs[e.pid].req.cartId == cart
    && w.procs[e.pid].phase.Refusing? && w.procs[e.pid].phase.result == r && e.answer.store.Done?
  }

  predicate AllReleased(w: World, cart: CartId) {
    forall k :: k in w.reservations && k.0 == cart ==> w.reservations[k].state == Released
  }

  /** The event may change a reservation of this cart. */
  predicate Touches(w: World, e: Event, cart: CartId) {
    match e
    case Step(pid, ans) =>
      && pid in w.procs && w.procs[pid].req.cartId == cart && !ans.store.FailedBefore?
      && (var phase := w.procs[pid].phase;
          || (phase.Reserving? && phase.line < |phase.cart.lines|) || phase.Finalizing? || phase.Refusing?)
    case EditReservations(rs) =>
      exists k :: k in rs && k.0 == cart && (k !in w.reservations || rs[k] != w.reservations[k])
    case _ => false
  }

  lemma ReleaseReleases(w: World, e: Event, key: Key, r: TransactionResult, cart: CartId)
    requires Releases(w, e, key, r, cart)
    ensures AllReleased(Next(w, e), cart) && Next(w, e).procs[e.pid].phase == Completing(r)
  {
    hide KeyOf;
  }

  lemma UntouchedStaysReleased(w: World, e: Event, cart: CartId)
    requires AllReleased(w, cart) && !Touches(w, e, cart)
    ensures AllReleased(Next(w, e), cart)
  {
    if e.Step? && e.pid in w.procs {
      var p := w.procs[e.pid];
      MoveReserves(w.policy, p.req, p.phase, Idempotency.Current(w.keys, KeyOf(p.req)),
                   if p.req.cartId in w.snapshots then Some(w.snapshots[p.req.cartId]) else None, e.answer, w.nextId);
      hide KeyOf, Advance, ApplyOp;
    } else {
      hide KeyOf, Advance, ApplyOp, ValidRequest;
    }
  }

  lemma MoveReserves(policy: Policy, req: Request, phase: Phase, claimed: Option<Idempotency.State<TransactionResult>>,
                     snapshot: Option<Cart>, ans: Answer, newId: nat)
    ensures var m := Advance(policy, req, phase, claimed, snapshot, ans, newId);
            m.reservation != Keep ==>
              !ans.store.FailedBefore?
              && ((phase.Reserving? && phase.line < |phase.cart.lines|) || phase.Finalizing? || phase.Refusing?)
  {
    hide RepriceForCheckout, PolicyRejects, RefusedResult, TotalsOf;
  }

  lemma {:induction false} ReleasedUntilTouched(policy: Policy, events: seq<Event>, i: nat, j: nat, cart: CartId)
    requires i <= j <= |events| && AllReleased(At(policy, events, i), cart)
    requires forall k :: i <= k < j ==> !Touches(At(policy, events, k), events[k], cart)
    ensures AllReleased(At(policy, events, j), cart)
    decreases j
  {
    hide AllReleased, Touches, Next, At, Inv;
    if i < j {
      ReleasedUntilTouched(policy, events, i, j - 1, cart);
      AtNext(policy, events, j - 1);
      UntouchedStaysReleased(At(policy, events, j - 1), events[j - 1], cart);
    }
  }

  lemma StepsIntoCompleting(w: World, pid: Pid, ans: Answer, r: TransactionResult)
    requires pid in w.procs && ProcOk(w, pid) && !r.status.Completed?
    requires Next(w, Step(pid, ans)).procs[pid].phase == Completing(r)
    ensures Releases(w, Step(pid, ans), KeyOf(w.procs[pid].req), r, w.procs[pid].req.cartId)
  {
    hide RepriceForCheckout, PolicyRejects, RefusedResult, KeyOf, Settled, ApplyReservation, ApplyOp;
  }

  /** A call that carries a refusal to be recorded has released its cart. */
  lemma ReachesCompleting(w: World, e: Event, pid: Pid, r: TransactionResult)
    requires Inv(w) && pid in Next(w, e).procs && Next(w, e).procs[pid].phase == Completing(r) && !r.status.Completed?
    ensures pid in w.procs && w.procs[pid].req == Next(w, e).procs[pid].req
    ensures w.procs[pid].phase == Completing(r)
            || (e.Step? && e.pid == pid && Releases(w, e, KeyOf(w.procs[pid].req), r, w.procs[pid].req.cartId))
  {
    assert pid in w.procs ==> ProcOk(w, pid);
    hide Next, Inv, ProcOk, Releases;
    OnlyOwnSteps(w, e, pid);
    if e.Step? && e.pid == pid && pid in w.procs {
      StepsIntoCompleting(w, pid, e.answer, r);
    }
  }

  predicate ReleasedAt(policy: Policy, events: seq<Event>, i: nat, key: Key, r: TransactionResult, cart: CartId)
    requires i < |events|
  {
    Releases(At(policy, events, i), events[i], key, r, cart)
  }

  lemma {:induction false} CompletingWasReleased(policy: Policy, events: seq<Event>, pid: Pid, r: TransactionResult)
    returns (i: nat)
    requires pid in Run(Begin(policy), events).procs && !r.status.Completed?
    requires Run(Begin(policy), events).procs[pid].phase == Completing(r)
    ensures var req := Run(Begin(policy), events).procs[pid].req;
            i < |events| && ReleasedAt(policy, events, i, KeyOf(req), r, req.cartId)
    decreases |events|
  {
    var n := |events| - 1;
    assert events[..|events|] == events;
    AtNext(policy, events, n);
    var w := At(policy, events, n);
    ReachesCompleting(w, events[n], pid, r);
    hide Next, Releases;
    if w.procs[pid].phase == Completing(r) {
      i := CompletingWasReleased(policy, events[..n], pid, r);
      AtPrefix(policy, events, n, i);
    } else {
      i := n;
    }
  }

  /** A key becomes completed only by the step of a call that carries that result. */
  lemma BecomesCompleted(w: World, e: Event, key: Key, r: TransactionResult)
    requires Inv(w) && Idempotency.Current(Next(w, e).keys, key) == Some(Idempotency.Completed(r))
    ensures Idempotency.Current(w.keys, key) == Some(Idempotency.Completed(r))
            || (e.Step? && e.pid in w.procs && KeyOf(w.procs[e.pid].req) == key && w.procs[e.pid].phase == Completing(r))
  {
    hide Inv, RepriceForCheckout, PolicyRejects, RefusedResult, TotalsOf, KeyOf, ApplyReservation, ValidRequest;
  }

  lemma {:induction false} RefusedKeyWasReleased(policy: Policy, events: seq<Event>, key: Key, r: TransactionResult)
    returns (i: nat, cart: CartId)
    requires Idempotency.Current(Run(Begin(policy), events).keys, key) == Some(Idempotency.Completed(r))
    requires !r.status.Completed?
    ensures i < |events| && ReleasedAt(policy, events, i, key, r, cart)
    decreases |events|
  {
    var n := |events| - 1;
    assert events[..|events|] == events;
    AtNext(policy, events, n);
    var w := At(policy, events, n);
    BecomesCompleted(w, events[n], key, r);
    hide Next, Releases;
    if Idempotency.Current(w.keys, key) == Some(Idempotency.Completed(r)) {
      i, cart := RefusedKeyWasReleased(policy, events[..n], key, r);
    } else {
      i := CompletingWasReleased(policy, events[..n], events[n].pid, r);
      cart := w.procs[events[n].pid].req.cartId;
    }
    AtPrefix(policy, events, n, i);
  }

  /**
   Refusals release: whenever a call has returned a rejected or unauthorized result, first
   or repeated, the run contains the step that released every reservation of the refused
   cart; and as long as nothing has touched that cart's reservations since, all of them
   are Released.
   */
  lemma RefusalReleasesReservations(policy: Policy, events: seq<Event>, pid: Pid, r: TransactionResult)
    returns (i: nat, cart: CartId)
    requires pid in Run(Begin(policy), events).procs && !r.status.Completed?
    requires Run(Begin(policy), events).procs[pid].phase == Finished(Ok(r))
    ensures i < |events| && ReleasedAt(policy, events, i, KeyOf(Run(Begin(policy), events).procs[pid].req), r, cart)
    ensures (forall k :: i < k < |events| ==> !Touches(At(policy, events, k), events[k], cart)) ==>
              AllReleased(Run(Begin(policy), events), cart)
  {
    var w := Run(Begin(policy), events);
    BeginOk(policy);
    RunKeeps(Begin(policy), events);
    assert ProcOk(w, pid);
    hide Inv, PhaseOk, Releases, Touches, AllReleased;
    i, cart := RefusedKeyWasReleased(policy, events, KeyOf(w.procs[pid].req), r);
    assert events[..|events|] == events;
    AtNext(policy, events, i);
    ReleaseReleases(At(policy, events, i), events[i], KeyOf(w.procs[pid].req), r, cart);
    if forall k :: i < k < |events| ==> !Touches(At(policy, events, k), events[k], cart) {
      ReleasedUntilTouched(policy, events, i + 1, |events|, cart);
    }
  }

  // ---- Repeated calls ---------------------------------------------------------------------------------------

  /** The call is still to claim the completed key, or has got its result, or died, or was never valid. */
  predicate Repeats(w: World, pid: Pid, key: Key, r: TransactionResult) {
    pid in w.procs && KeyOf(w.procs[pid].req) == key ==>
      w.procs[pid].phase == Claiming || w.procs[pid].phase == Crashed
      || w.procs[pid].phase == Finished(Ok(r)) || w.procs[pid].phase == Finished(Err(Invalid))
  }

  lemma RepeatStep(w: World, e: Event, pid: Pid, key: Key, r: TransactionResult)
    requires Idempotency.Current(w.keys, key) == Some(Idempotency.Completed(r)) && Repeats(w, pid, key, r)
    ensures Repeats(Next(w, e), pid, key, r)
    ensures pid in w.procs ==> pid in Next(w, e).procs && Next(w, e).procs[pid].req == w.procs[pid].req
    ensures pid in w.procs && KeyOf(w.procs[pid].req) == key && e != Crash(pid) ==>
              && (w.procs[pid].phase == Finished(Ok(r)) ==> Next(w, e).procs[pid].phase == Finished(Ok(r)))
              && (w.procs[pid].phase == Claiming ==>
                    Next(w, e).procs[pid].phase == if e.Step? && e.pid == pid then Finished(Ok(r)) else Claiming)
  {
    hide KeyOf, ValidRequest, ApplyReservation;
  }

  /**
   Whatever is interleaved after a key was completed, a call under it that had not yet
   claimed, or had not even arrived, never gets further than the recorded result, and
   nothing more is done under the key.
   */
  lemma {:induction false} RepeatedCallReturnsResult(w: World, events: seq<Event>, pid: Pid, key: Key, r: TransactionResult)
    requires Inv(w) && Idempotency.Current(w.keys, key) == Some(Idempotency.Completed(r)) && Repeats(w, pid, key, r)
    ensures Repeats(Run(w, events), pid, key, r)
    ensures ByKey(Run(w, events).effects, key) == ByKey(w.effects, key)
    decreases |events|
  {
    if events == [] {
    } else {
      var v := Next(w, events[0]);
      RepeatStep(w, events[0], pid, key, r);
      StepKeepsCompleted(w, events[0]);
      NextKeeps(w, events[0]);
      assert KeyOk(w, key) && KeyOk(v, key);
      hide Next, Repeats, ByKey, TraceOf, TraceOfResult, WellTraced;
      RepeatedCallReturnsResult(v, events[1..], pid, key, r);
    }
  }

  /** And once it takes a step, unless its process dies, it has that result. */
  lemma {:induction false} RepeatedCallFinishes(w: World, events: seq<Event>, pid: Pid, r: TransactionResult)
    requires Inv(w) && pid in w.procs
    requires Idempotency.Current(w.keys, KeyOf(w.procs[pid].req)) == Some(Idempotency.Completed(r))
    requires w.procs[pid].phase == Finished(Ok(r))
             || (w.procs[pid].phase == Claiming && exists i :: 0 <= i < |events| && events[i].Step? && events[i].pid == pid)
    requires forall i :: 0 <= i < |events| ==> events[i] != Crash(pid)
    ensures pid in Run(w, events).procs && Run(w, events).procs[pid].phase == Finished(Ok(r))
    decreases |events|
  {
    if events != [] {
      var v, rest := Next(w, events[0]), events[1..];
      RepeatStep(w, events[0], pid, KeyOf(w.procs[pid].req), r);
      StepKeepsCompleted(w, events[0]);
      NextKeeps(w, events[0]);
      hide Next, KeyOf, Inv;
      assert forall i :: 0 <= i < |rest| ==> rest[i] == events[i + 1];
      if v.procs[pid].phase == Claiming {
        var i :| 0 <= i < |events| && events[i].Step? && events[i].pid == pid;
        assert rest[i - 1] == events[i];
      }
      RepeatedCallFinishes(v, rest, pid, r);
    }
  }
}
