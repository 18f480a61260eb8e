/**
 Checkout as the runner executes it, statement by statement on stores updated in place:
 each call is a solo run of the checkout machine.
 */
module CheckoutRunner {
  import opened Wrappers
  import opened CartModel
  import opened Checkout
  import opened ReservationStates
  import opened CheckoutAnswers
  import CartOutcomes
  import CheckoutSafety
  import Idempotency

  /** Steps `start` to `stop` of the only call there is. */
  function RunAlone(w: World, answers: nat -> Answer, start: nat, stop: nat): World
    decreases stop
  {
    if stop <= start then w else Next(RunAlone(w, answers, start, stop - 1), Step(0, answers(stop - 1)))
  }

  lemma {:induction false} RunAloneJoin(w: World, answers: nat -> Answer, start: nat, mid: nat, stop: nat)
    requires start <= mid <= stop
    ensures RunAlone(w, answers, start, stop) == RunAlone(RunAlone(w, answers, start, mid), answers, mid, stop)
    decreases stop
  {
    if mid < stop {
      RunAloneJoin(w, answers, start, mid, stop - 1);
    }
  }

  lemma RunAloneStep(w: World, answers: nat -> Answer, start: nat, stop: nat)
    requires start <= stop
    ensures RunAlone(w, answers, start, stop + 1) == Next(RunAlone(w, answers, start, stop), Step(0, answers(stop)))
    ensures RunAlone(w, answers, start, start) == w
  {
  }

  /** A run by one call is a run of the machine whose every event is a step of that call. */
  lemma {:induction false} RunAloneIsRun(w: World, answers: nat -> Answer, start: nat, stop: nat) returns (events: seq<Event>)
    requires start <= stop
    ensures RunAlone(w, answers, start, stop) == Run(w, events)
    ensures |events| == stop - start && forall i :: 0 <= i < |events| ==> events[i] == Step(0, answers(start + i))
    decreases stop
  {
    hide Next;
    if start == stop {
      events := [];
    } else {
      var before := RunAloneIsRun(w, answers, start, stop - 1);
      events := before + [Step(0, answers(stop - 1))];
      RunSnoc(w, before, Step(0, answers(stop - 1)));
    }
  }

  type Failure = Result<(), CheckoutError>

  function Arrived(req: Request): Phase {
    if ValidRequest(req) then Claiming else Finished(Err(Invalid))
  }

  function Claimed(found: Option<Idempotency.State<TransactionResult>>, ok: bool): Phase {
    match found
    case Some(InFlight) => Finished(Err(AlreadyInFlight))
    case Some(Completed(r)) => Finished(Ok(r))
    case None => if ok then Loading else Finished(Err(Store))
  }

  /** Where a store call leads. */
  function Then(ok: bool, next: Phase): Phase {
    if ok then next else Finished(Err(Store))
  }

  /** The only call's move, applied. */
  function Moved(w: World, req: Request, m: Move): World {
    World(w.policy,
          ApplyOp(w.keys, KeyOf(req), m.op),
          if m.save.Some? then w.snapshots[m.save.value.cartId := m.save.value] else w.snapshots,
          ApplyReservation(w.reservations, req.cartId, m.reservation),
          if m.payment.Some? then w.payments[m.payment.value.0 := m.payment.value.1] else w.payments,
          if m.effect.Some? then w.effects + [(KeyOf(req), m.effect.value)] else w.effects,
          map[0 := Proc(req, m.phase)],
          w.nextId + 1)
  }

  lemma Stepping(w: World, req: Request, phase: Phase, ans: Answer)
    requires w.procs == map[0 := Proc(req, phase)]
    ensures Next(w, Step(0, ans))
         == Moved(w, req, Advance(w.policy, req, phase, Idempotency.Current(w.keys, KeyOf(req)),
                                  if req.cartId in w.snapshots then Some(w.snapshots[req.cartId]) else None,
                                  ans, w.nextId))
  {
    hide Advance, ApplyOp, ApplyReservation, KeyOf;
  }

  // ---- What a call that has the stores to itself returns ---------------------------------------

  /** The error of the first provider that fails while a cart is settled. */
  predicate IsFirstFailure(c: Cart, ans: Answer, e: ProviderError) {
    if ans.prices.Err? then e == ans.prices.error
    else if ans.tax.Err? then e == ans.tax.error
    else if c.adjustmentCodes != [] && ans.discounts.Err? then e == ans.discounts.error
    else ans.geo.Err? && e == ans.geo.error
  }

  /** `d` is the loaded cart as the providers re-price it. */
  predicate IsSettled(c: Cart, d: Cart, ans: Answer) {
    && CheckoutSafety.Answered(c, ans) && ans.geo.Ok?
    && (DistinctLines(c.lines) ==>
          CartOutcomes.Recomputed(c, d, ans.prices.value, ans.tax.value, ans.discounts, ans.geo.value))
  }

  /** What is asked about a cart whose lines are reserved, when `at` calls have been made, and what is answered. */
  function Asked(policy: Policy, req: Request, c: Cart, answers: nat -> Answer, at: nat): seq<Told> {
    if !Permitted(policy, req, c.totalMinor) then [Judged(true, c)]
    else if answers(at + 1).auth.Ok? && answers(at + 1).auth.value.0 then
      [Judged(false, c), Authorized(answers(at + 1).auth), Charged(answers(at + 3).capture), Receipted(answers(at + 5).receipt)]
    else [Judged(false, c), Authorized(answers(at + 1).auth)]
  }

  /** Settling the cart, with `at` calls made before, ends with this error after `next` calls. */
  ghost predicate SettleFails(req: Request, snapshots: map<CartId, Cart>, answers: nat -> Answer, at: nat, e: CheckoutError, next: nat) {
    if req.cartId !in snapshots then e == CartNotFound && next == at + 1
    else
      var c := snapshots[req.cartId];
      if c.tenantId !in {None, Some(req.tenantId)} then e == CartTenantMismatch && next == at + 1
      else if c.version != req.cartVersion then e == CartVersionConflict(req.cartVersion, c.version) && next == at + 1
      else if !CheckoutSafety.Answered(c, answers(at + 1)) || answers(at + 1).geo.Err? then
        e.Provider? && IsFirstFailure(c, answers(at + 1), e.error) && next == at + 2
      else
        next == at + 3
        && exists d: Cart ::
             && IsSettled(c, d, answers(at + 1)) && e == (if !answers(at + 2).store.Done? then Store
                                                         else if !d.geoOk then GeoBlocked
                                                         else AmountMismatch(d.totalMinor, req.amountMinor))
             && !(answers(at + 2).store.Done? && d.geoOk && d.totalMinor == req.amountMinor)
  }

  /** After the cart is settled only a store call, or one of the three payment providers asked, ends a call with an error. */
  predicate LateError(answers: nat -> Answer, at: nat, e: CheckoutError) {
    e.Store?
    || (e.Provider?
        && (answers(at + 1).auth == Err(e.error)
            || (answers(at + 1).auth.Ok? && answers(at + 1).auth.value.0
                && (answers(at + 3).capture == Err(e.error) || answers(at + 5).receipt == Err(e.error)))))
  }

  /** How a call that holds its key fails: while settling, when it gives the key back, or later. */
  ghost predicate IsFailureFor(req: Request, snapshots: map<CartId, Cart>, answers: nat -> Answer, e: CheckoutError) {
    || (exists why, at :: SettleFails(req, snapshots, answers, 1, why, at) && e == if answers(at).store.Done? then why else Store)
    || (req.cartId in snapshots
        && exists c: Cart :: IsSettled(snapshots[req.cartId], c, answers(2))
                             && (e.Store? || LateError(answers, 4 + |c.lines|, e)))
  }

  lemma SaveFails(req: Request, snapshots: map<CartId, Cart>, answers: nat -> Answer, at: nat, d: Cart, e: CheckoutError)
    requires req.cartId in snapshots
    requires var c := snapshots[req.cartId];
             && c.tenantId in {None, Some(req.tenantId)} && c.version == req.cartVersion
             && CheckoutSafety.Answered(c, answers(at + 1)) && answers(at + 1).geo.Ok? && IsSettled(c, d, answers(at + 1))
    requires !(answers(at + 2).store.Done? && d.geoOk && d.totalMinor == req.amountMinor)
    requires e == if !answers(at + 2).store.Done? then Store
                  else if !d.geoOk then GeoBlocked
                  else AmountMismatch(d.totalMinor, req.amountMinor)
    ensures SettleFails(req, snapshots, answers, at, e, at + 3)
  {
    hide IsSettled, CheckoutSafety.Answered;
  }

  lemma FailsLate(req: Request, snapshots: map<CartId, Cart>, answers: nat -> Answer, c: Cart, e: CheckoutError)
    requires req.cartId in snapshots && IsSettled(snapshots[req.cartId], c, answers(2))
    requires e.Store? || LateError(answers, 4 + |c.lines|, e)
    ensures IsFailureFor(req, snapshots, answers, e)
  {
    hide IsSettled, LateError, SettleFails;
  }

  /** The result is the one for this cart: the stored one of the right owner and version, settled, at the right amount. */
  ghost predicate IsResultFor(policy: Policy, req: Request, answers: nat -> Answer, before: Cart, r: TransactionResult) {
    && (before.tenantId == None || before.tenantId == Some(req.tenantId)) && before.version == req.cartVersion
    && exists c: Cart ::
         && IsSettled(before, c, answers(2)) && c.geoOk && c.totalMinor == req.amountMinor
         && Explains(Asked(policy, req, c, answers, 4 + |c.lines|), r)
  }

  predicate IsLastOf(lines: seq<Line>, i: nat)
    requires i < |lines|
  {
    forall j :: i < j < |lines| ==> lines[j].itemId != lines[i].itemId
  }

  /** The cart's last line for each item is reserved in its quantity. */
  predicate LinesReserved(rs: map<(CartId, string), Reservation>, cartId: CartId, lines: seq<Line>) {
    forall i :: 0 <= i < |lines| && IsLastOf(lines, i) ==>
      (cartId, lines[i].itemId) in rs && rs[(cartId, lines[i].itemId)] == Reservation(lines[i].quantity, Reserved)
  }

  lemma NoneReserved(rs: map<(CartId, string), Reservation>, cartId: CartId)
    ensures LinesReserved(rs, cartId, [])
  {
  }

  lemma OneMoreReserved(rs: map<(CartId, string), Reservation>, cartId: CartId, lines: seq<Line>, n: nat)
    requires n < |lines| && LinesReserved(rs, cartId, lines[..n])
    ensures LinesReserved(rs[(cartId, lines[n].itemId) := Reservation(lines[n].quantity, Reserved)], cartId, lines[..n + 1])
  {
    var out := rs[(cartId, lines[n].itemId) := Reservation(lines[n].quantity, Reserved)];
    forall i | 0 <= i < n + 1 && IsLastOf(lines[..n + 1], i)
      ensures (cartId, lines[i].itemId) in out && out[(cartId, lines[i].itemId)] == Reservation(lines[i].quantity, Reserved)
    {
      if i < n {
        assert lines[..n + 1][n].itemId != lines[..n + 1][i].itemId;
        assert forall j :: i < j < n ==> lines[..n][j] == lines[..n + 1][j];
        assert IsLastOf(lines[..n], i) && lines[..n][i] == lines[i];
      }
    }
  }

  lemma SettlesRightly(c: Cart, ans: Answer)
    ensures RepriceForCheckout(c, ans).Ok? <==> CheckoutSafety.Answered(c, ans)
    ensures RepriceForCheckout(c, ans).Ok? && ans.geo.Ok? ==>
              IsSettled(c, RepriceForCheckout(c, ans).value.(geoOk := ans.geo.value), ans)
    ensures RepriceForCheckout(c, ans).Err? ==> IsFirstFailure(c, ans, RepriceForCheckout(c, ans).error)
    ensures RepriceForCheckout(c, ans).Ok? && ans.geo.Err? ==> IsFirstFailure(c, ans, ans.geo.error)
  {
    if DistinctLines(c.lines) && ans.geo.Ok? {
      CheckoutSafety.RepricingRecomputes(c, ans, ans.geo.value);
    }
    hide WithPrices, TotalDiscount, DistinctLines, CartOutcomes.Recomputed;
  }

  class Runner {
    const policy: Policy
    const idempotency: Idempotency.InMemoryIdempotencyStore<TransactionResult>
    var snapshots: map<CartId, Cart>
    var reservations: map<(CartId, string), Reservation>
    var payments: map<nat, PaymentState>
    var nextId: nat
    ghost var effects: seq<(Key, Effect)>

    constructor (policy: Policy)
      ensures this.policy == policy && fresh(idempotency)
      ensures forall req, phase :: World(req, phase) == Begin(policy).(procs := map[0 := Proc(req, phase)])
    {
      this.policy := policy;
      idempotency := new Idempotency.InMemoryIdempotencyStore<TransactionResult>();
      snapshots, reservations, payments, nextId, effects := map[], map[], map[], 0, [];
    }

    /** The stores, with one call in this phase. */
    ghost function World(req: Request, phase: Phase): World
      reads this, idempotency
    {
      Checkout.World(policy, idempotency.table, snapshots, reservations, payments, effects, map[0 := Proc(req, phase)], nextId)
    }

    predicate ReservationsReleased(cart: CartId)
      reads this
    {
      forall k :: k in reservations && k.0 == cart ==> reservations[k].state == Released
    }

    predicate ReservationsFinalized(cart: CartId)
      reads this
    {
      forall k :: k in reservations && k.0 == cart ==> reservations[k].state == Finalized
    }

    /** A purchase finalizes the cart's reservations, a refusal releases them. */
    predicate StockFollows(cart: CartId, r: TransactionResult)
      reads this
    {
      if r.status.Completed? then ReservationsFinalized(cart) else ReservationsReleased(cart)
    }

    predicate PaymentRecorded(r: TransactionResult)
      reads this
    {
      r.transactionId in payments && payments[r.transactionId] == r.paymentState
    }

    // ---- One store or provider call each -------------------------------------------------------

    method ClaimKey(req: Request, ans: Answer) returns (found: Option<Idempotency.State<TransactionResult>>, ok: bool)
      modifies this, idempotency
      ensures found == Idempotency.Current(old(idempotency.table), KeyOf(req)) && snapshots == old(snapshots)
      ensures found.None? ==> (ok <==> ans.store.Done?)
      ensures World(req, Claimed(found, ok)) == Next(old(World(req, Claiming)), Step(0, ans))
    {
      Stepping(World(req, Claiming), req, Claiming, ans);
      hide Next, Apply, MoveOf;
      nextId := nextId + 1;
      if ans.store.FailedBefore? && KeyOf(req) !in idempotency.table {
        return None, false;
      }
      found := idempotency.Claim(KeyOf(req));
      ok := found.Some? || ans.store.Done?;
    }

    method ReleaseKey(req: Request, error: CheckoutError, ans: Answer) returns (ok: bool)
      modifies this, idempotency
      ensures (ok <==> ans.store.Done?) && snapshots == old(snapshots)
      ensures World(req, Then(ok, Finished(Err(error)))) == Next(old(World(req, Releasing(error))), Step(0, ans))
    {
      Stepping(World(req, Releasing(error)), req, Releasing(error), ans);
      hide Next, Apply, MoveOf;
      nextId := nextId + 1;
      if !ans.store.FailedBefore? {
        idempotency.Release(KeyOf(req));
      }
      ok := ans.store.Done?;
    }

    method LoadCart(req: Request, ans: Answer) returns (r: Result<Cart, CheckoutError>)
      modifies this, idempotency
      ensures r.Err? ==> r.error.CartNotFound? || r.error.CartTenantMismatch? || r.error.CartVersionConflict?
      ensures r == Err(CartNotFound) <==> req.cartId !in old(snapshots)
      ensures r == Err(CartTenantMismatch) <==>
                req.cartId in old(snapshots) && old(snapshots)[req.cartId].tenantId !in {None, Some(req.tenantId)}
      ensures forall expected, current :: r == Err(CartVersionConflict(expected, current)) <==>
                && req.cartId in old(snapshots) && old(snapshots)[req.cartId].tenantId in {None, Some(req.tenantId)}
                && expected == req.cartVersion && current == old(snapshots)[req.cartId].version && current != expected
      ensures r.Ok? ==> && req.cartId in old(snapshots) && r.value == old(snapshots)[req.cartId]
                        && r.value.tenantId in {None, Some(req.tenantId)} && r.value.version == req.cartVersion
      ensures World(req, if r.Ok? then Settling(r.value) else Releasing(r.error)) == Next(old(World(req, Loading)), Step(0, ans))
    {
      Stepping(World(req, Loading), req, Loading, ans);
      hide Next, Apply, MoveOf;
      nextId := nextId + 1;
      if req.cartId !in snapshots {
        return Err(CartNotFound);
      }
      var c := snapshots[req.cartId];
      if c.tenantId.Some? && c.tenantId.value != req.tenantId {
        return Err(CartTenantMismatch);
      }
      if c.version != req.cartVersion {
        return Err(CartVersionConflict(req.cartVersion, c.version));
      }
      return Ok(c);
    }

    /** Prices, tax and discounts afresh, on a copy of the cart. */
    method RepriceCart(cart: Cart, ans: Answer) returns (r: Result<Cart, ProviderError>)
      ensures r == RepriceForCheckout(cart, ans)
    {
      hide ApplyPrices, Subtotal, ApplyDiscounts;
      if ans.prices.Err? {
        return Err(ans.prices.error);
      }
      var lines, subtotal := RepriceLines(cart.lines, ans.prices.value);
      var c := cart.(lines := lines, subtotalMinor := subtotal);
      if ans.tax.Err? {
        return Err(ans.tax.error);
      }
      c := c.(taxMinor := ans.tax.value);
      r := ApplyDiscounts(c, ans.discounts);
    }

    method Reprice(req: Request, cart: Cart, ans: Answer) returns (r: Result<Cart, CheckoutError>)
      modifies this, idempotency
      ensures r.Ok? <==> CheckoutSafety.Answered(cart, ans) && ans.geo.Ok?
      ensures r.Ok? ==> IsSettled(cart, r.value, ans)
      ensures r.Err? ==> r.error.Provider? && IsFirstFailure(cart, ans, r.error.error)
      ensures World(req, if r.Ok? then Saving(r.value) else Releasing(r.error)) == Next(old(World(req, Settling(cart))), Step(0, ans))
    {
      Stepping(World(req, Settling(cart)), req, Settling(cart), ans);
      SettlesRightly(cart, ans);
      hide Next, Apply, MoveOf, RepriceForCheckout, IsSettled, IsFirstFailure, CheckoutSafety.Answered;
      nextId := nextId + 1;
      var repriced := RepriceCart(cart, ans);
      if repriced.Err? {
        return Err(Provider(repriced.error));
      }
      if ans.geo.Err? {
        return Err(Provider(ans.geo.error));
      }
      return Ok(repriced.value.(geoOk := ans.geo.value));
    }

    method SaveCart(req: Request, cart: Cart, ans: Answer) returns (r: Failure)
      modifies this, idempotency
      ensures r.Ok? <==> ans.store.Done? && cart.geoOk && cart.totalMinor == req.amountMinor
      ensures r.Err? ==> r.error == if !ans.store.Done? then Store
                                    else if !cart.geoOk then GeoBlocked
                                    else AmountMismatch(cart.totalMinor, req.amountMinor)
      ensures World(req, if r.Ok? then Reserving(cart, 0) else Releasing(r.error)) == Next(old(World(req, Saving(cart))), Step(0, ans))
    {
      Stepping(World(req, Saving(cart)), req, Saving(cart), ans);
      hide Next, Apply, MoveOf;
      nextId := nextId + 1;
      if ans.store.FailedBefore? {
        return Err(Store);
      }
      snapshots := snapshots[cart.cartId := cart];
      if ans.store.FailedAfter? {
        return Err(Store);
      }
      if !cart.geoOk {
        return Err(GeoBlocked);
      }
      if req.amountMinor != cart.totalMinor {
        return Err(AmountMismatch(cart.totalMinor, req.amountMinor));
      }
      return Ok(());
    }

    method ReserveLine(req: Request, cart: Cart, i: nat, ans: Answer) returns (ok: bool)
      requires i < |cart.lines|
      modifies this, idempotency
      ensures ok <==> ans.store.Done?
      ensures ok ==> reservations == old(reservations)[(req.cartId, cart.lines[i].itemId) := Reservation(cart.lines[i].quantity, Reserved)]
      ensures World(req, Then(ok, Reserving(cart, i + 1))) == Next(old(World(req, Reserving(cart, i))), Step(0, ans))
    {
      Stepping(World(req, Reserving(cart, i)), req, Reserving(cart, i), ans);
      hide Next, Apply, MoveOf;
      nextId := nextId + 1;
      var line := cart.lines[i];
      if !ans.store.FailedBefore? {
        reservations := reservations[(req.cartId, line.itemId) := Reservation(line.quantity, Reserved)];
      }
      ok := ans.store.Done?;
    }

    /** A refusal by policy, when there is one. */
    method CheckPolicy(req: Request, cart: Cart, ans: Answer) returns (refused: Option<TransactionResult>)
      modifies this, idempotency
      ensures refused.None? <==> Permitted(policy, req, cart.totalMinor)
      ensures refused.Some? ==> Explains([Judged(true, cart)], refused.value)
      ensures World(req, if refused.Some? then Refusing(cart, refused.value) else Authorizing(cart))
           == Next(old(World(req, Reserving(cart, |cart.lines|))), Step(0, ans))
    {
      Stepping(World(req, Reserving(cart, |cart.lines|)), req, Reserving(cart, |cart.lines|), ans);
      hide Next, Apply, MoveOf;
      var id := nextId;
      nextId := nextId + 1;
      PolicyIsPermission(policy, req, cart.totalMinor);
      if PolicyRejects(policy, req, cart.totalMinor) {
        return Some(RefusedResult(cart, id, Rejected, None));
      }
      return None;
    }

    /** The reference when authorized; otherwise a refusal to record or an error. */
    method AuthorizePayment(req: Request, cart: Cart, ans: Answer)
      returns (r: Result<(string, Option<TransactionResult>), CheckoutError>)
      modifies this, idempotency
      ensures r.Err? ==> ans.auth.Err? && r.error == Provider(ans.auth.error)
      ensures r.Ok? ==> ans.auth.Ok? && r.value.0 == ans.auth.value.1 && (r.value.1.None? <==> ans.auth.value.0)
      ensures r.Ok? && r.value.1.Some? ==> Explains([Judged(false, cart), Authorized(ans.auth)], r.value.1.value)
      ensures World(req, match r
                         case Err(e) => Finished(Err(e))
                         case Ok((reference, None)) => Committing(cart, reference)
                         case Ok((_, Some(refused))) => Refusing(cart, refused))
           == Next(old(World(req, Authorizing(cart))), Step(0, ans))
    {
      Stepping(World(req, Authorizing(cart)), req, Authorizing(cart), ans);
      hide Next, Apply, MoveOf;
      var id := nextId;
      nextId := nextId + 1;
      effects := effects + [(KeyOf(req), Authorize(req.amountMinor))];
      if ans.auth.Err? {
        return Err(Provider(ans.auth.error));
      }
      var (authorized, reference) := ans.auth.value;
      if !authorized {
        return Ok((reference, Some(RefusedResult(cart, id, AuthFailed, Some(reference)))));
      }
      return Ok((reference, None));
    }

    method CommitCart(req: Request, cart: Cart, reference: string, ans: Answer) returns (txn: nat, ok: bool)
      modifies this, idempotency
      ensures World(req, Then(ok, Capturing(cart, reference, txn))) == Next(old(World(req, Committing(cart, reference))), Step(0, ans))
    {
      Stepping(World(req, Committing(cart, reference)), req, Committing(cart, reference), ans);
      hide Next, Apply, MoveOf;
      txn := nextId;
      nextId := nextId + 1;
      if !ans.store.FailedBefore? {
        effects := effects + [(KeyOf(req), Commit(txn, reference))];
      }
      ok := ans.store.Done?;
    }

    method CapturePayment(req: Request, cart: Cart, reference: string, txn: nat, ans: Answer)
      returns (r: Result<bool, CheckoutError>)
      modifies this, idempotency
      ensures r == match ans.capture case Ok(success) => Ok(success) case Err(e) => Err(Provider(e))
      ensures World(req, if r.Ok? then Ordering(cart, reference, txn, r.value) else Finished(Err(r.error)))
           == Next(old(World(req, Capturing(cart, reference, txn))), Step(0, ans))
    {
      Stepping(World(req, Capturing(cart, reference, txn)), req, Capturing(cart, reference, txn), ans);
      hide Next, Apply, MoveOf;
      nextId := nextId + 1;
      effects := effects + [(KeyOf(req), Capture(txn, cart.totalMinor))];
      if ans.capture.Err? {
        return Err(Provider(ans.capture.error));
      }
      return Ok(ans.capture.value);
    }

    method PutOrder(req: Request, cart: Cart, reference: string, txn: nat, captured: bool, ans: Answer)
      returns (result: TransactionResult, ok: bool)
      modifies this, idempotency
      ensures result.status.Completed? && result.orderId.Some? && NamesAmounts(result, cart)
      ensures result.paymentReference == Some(reference) && (result.paymentState.Captured? <==> captured)
      ensures World(req, Then(ok, Receipting(cart, result)))
           == Next(old(World(req, Ordering(cart, reference, txn, captured))), Step(0, ans))
    {
      Stepping(World(req, Ordering(cart, reference, txn, captured)), req, Ordering(cart, reference, txn, captured), ans);
      hide Next, Apply, MoveOf;
      var orderId := nextId;
      nextId := nextId + 1;
      if !ans.store.FailedBefore? {
        effects := effects + [(KeyOf(req), Effect.PutOrder(orderId, txn, TotalsOf(cart)))];
      }
      ok := ans.store.Done?;
      result := TransactionResult(txn, Completed, TotalsOf(cart), Some(reference), None,
                                  if captured then Captured else PaymentFailed, Some(orderId));
    }

    method MakeReceipt(req: Request, cart: Cart, result: TransactionResult, ans: Answer)
      returns (r: Result<TransactionResult, CheckoutError>)
      modifies this, idempotency
      ensures r == match ans.receipt case Ok(text) => Ok(result.(receipt := Some(text))) case Err(e) => Err(Provider(e))
      ensures World(req, if r.Ok? then Finalizing(cart, r.value) else Finished(Err(r.error)))
           == Next(old(World(req, Receipting(cart, result))), Step(0, ans))
    {
      Stepping(World(req, Receipting(cart, result)), req, Receipting(cart, result), ans);
      hide Next, Apply, MoveOf;
      nextId := nextId + 1;
      if ans.receipt.Err? {
        return Err(Provider(ans.receipt.error));
      }
      return Ok(result.(receipt := Some(ans.receipt.value)));
    }

    method FinalizeReservations(req: Request, cart: Cart, result: TransactionResult, ans: Answer) returns (ok: bool)
      modifies this, idempotency
      ensures ok ==> ReservationsFinalized(req.cartId)
      ensures World(req, Then(ok, Enqueueing(cart, result))) == Next(old(World(req, Finalizing(cart, result))), Step(0, ans))
    {
      Stepping(World(req, Finalizing(cart, result)), req, Finalizing(cart, result), ans);
      hide Next, Apply, MoveOf;
      nextId := nextId + 1;
      if !ans.store.FailedBefore? {
        reservations := SetAll(reservations, req.cartId, Finalized);
      }
      ok := ans.store.Done?;
    }

    method EnqueueOrder(req: Request, cart: Cart, result: TransactionResult, ans: Answer) returns (ok: bool)
      requires result.orderId.Some?
      modifies this, idempotency
      ensures reservations == old(reservations)
      ensures World(req, Then(ok, Completing(result))) == Next(old(World(req, Enqueueing(cart, result))), Step(0, ans))
    {
      Stepping(World(req, Enqueueing(cart, result)), req, Enqueueing(cart, result), ans);
      hide Next, Apply, MoveOf;
      nextId := nextId + 1;
      if !ans.store.FailedBefore? {
        effects := effects + [(KeyOf(req), Enqueue(result.orderId.value))];
      }
      ok := ans.store.Done?;
    }

    method ReleaseReservations(req: Request, cart: Cart, result: TransactionResult, ans: Answer) returns (ok: bool)
      modifies this, idempotency
      ensures ok ==> ReservationsReleased(req.cartId)
      ensures World(req, Then(ok, Completing(result))) == Next(old(World(req, Refusing(cart, result))), Step(0, ans))
    {
      Stepping(World(req, Refusing(cart, result)), req, Refusing(cart, result), ans);
      hide Next, Apply, MoveOf;
      nextId := nextId + 1;
      if !ans.store.FailedBefore? {
        reservations := SetAll(reservations, req.cartId, Released);
      }
      ok := ans.store.Done?;
    }

    method CompleteKey(req: Request, result: TransactionResult, ans: Answer) returns (ok: bool)
      modifies this, idempotency
      ensures reservations == old(reservations)
      ensures World(req, Then(ok, Recording(result))) == Next(old(World(req, Completing(result))), Step(0, ans))
    {
      Stepping(World(req, Completing(result)), req, Completing(result), ans);
      hide Next, Apply, MoveOf;
      nextId := nextId + 1;
      if !ans.store.FailedBefore? {
        idempotency.Complete(KeyOf(req), result);
      }
      ok := ans.store.Done?;
    }

    method RecordPayment(req: Request, result: TransactionResult, ans: Answer)
      modifies this, idempotency
      ensures reservations == old(reservations)
      ensures payments == old(payments)[result.transactionId := result.paymentState]
      ensures World(req, Finished(Ok(result))) == Next(old(World(req, Recording(result))), Step(0, ans))
    {
      Stepping(World(req, Recording(result)), req, Recording(result), ans);
      hide Next, Apply, MoveOf;
      nextId := nextId + 1;
      payments := payments[result.transactionId := result.paymentState];
    }

    // ---- The checkout itself ---------------------------------------------------------------------

    /** Load, check, re-price and store the cart; `at` counts the calls made so far. */
    method SettleCart(req: Request, answers: nat -> Answer, at: nat) returns (r: Result<Cart, CheckoutError>, next: nat)
      modifies this, idempotency
      ensures next > at && (r.Ok? ==> next == at + 3)
      ensures r != Err(Invalid)
      ensures r.Ok? ==> && req.cartId in old(snapshots) && IsSettled(old(snapshots)[req.cartId], r.value, answers(at + 1))
                        && old(snapshots)[req.cartId].tenantId in {None, Some(req.tenantId)}
                        && old(snapshots)[req.cartId].version == req.cartVersion
                        && r.value.geoOk && r.value.totalMinor == req.amountMinor
      ensures r.Err? ==> SettleFails(req, old(snapshots), answers, at, r.error, next)
      ensures World(req, if r.Ok? then Reserving(r.value, 0) else Releasing(r.error))
           == RunAlone(old(World(req, Loading)), answers, at, next)
    {
      hide Next, World, IsSettled;
      ghost var start := World(req, Loading);
      var loaded := LoadCart(req, answers(at));
      RunAloneStep(start, answers, at, at);
      if loaded.Err? {
        return Err(loaded.error), at + 1;
      }
      var repriced := Reprice(req, loaded.value, answers(at + 1));
      RunAloneStep(start, answers, at, at + 1);
      if repriced.Err? {
        return Err(repriced.error), at + 2;
      }
      var saved := SaveCart(req, repriced.value, answers(at + 2));
      RunAloneStep(start, answers, at, at + 2);
      if saved.Err? {
        SaveFails(req, old(snapshots), answers, at, repriced.value, saved.error);
        return Err(saved.error), at + 3;
      }
      return Ok(repriced.value), at + 3;
    }

    method ReserveLines(req: Request, cart: Cart, answers: nat -> Answer, at: nat) returns (ok: bool, next: nat)
      modifies this, idempotency
      ensures next >= at && (ok ==> next == at + |cart.lines| && LinesReserved(reservations, req.cartId, cart.lines))
      ensures World(req, Then(ok, Reserving(cart, |cart.lines|)))
           == RunAlone(old(World(req, Reserving(cart, 0))), answers, at, next)
    {
      hide Next, World, LinesReserved;
      assert LinesReserved(reservations, req.cartId, cart.lines[..0]) by {
        NoneReserved(reservations, req.cartId);
        assert cart.lines[..0] == [];
      }
      var i := 0;
      while i < |cart.lines|
        invariant 0 <= i <= |cart.lines| && LinesReserved(reservations, req.cartId, cart.lines[..i])
        invariant World(req, Reserving(cart, i)) == RunAlone(old(World(req, Reserving(cart, 0))), answers, at, at + i)
      {
        OneMoreReserved(reservations, req.cartId, cart.lines, i);
        ok := ReserveLine(req, cart, i, answers(at + i));
        i := i + 1;
        if !ok {
          return false, at + i;
        }
      }
      assert cart.lines[..i] == cart.lines;
      return true, at + i;
    }

    /** Release the reservations and record the refusal. */
    method Refuse(req: Request, cart: Cart, result: TransactionResult, answers: nat -> Answer, at: nat)
      returns (r: Result<TransactionResult, CheckoutError>, next: nat)
      modifies this, idempotency
      ensures r.Ok? ==> r.value == result && ReservationsReleased(req.cartId) && PaymentRecorded(result)
      ensures r.Err? ==> r.error.Store?
      ensures next > at
      ensures World(req, Finished(r)) == RunAlone(old(World(req, Refusing(cart, result))), answers, at, next)
    {
      hide Next, World;
      ghost var start := World(req, Refusing(cart, result));
      var ok := ReleaseReservations(req, cart, result, answers(at));
      RunAloneStep(start, answers, at, at);
      if !ok {
        return Err(Store), at + 1;
      }
      r, next := Conclude(req, result, answers, at + 1);
      RunAloneJoin(start, answers, at, at + 1, next);
    }

    /** Complete the key and remember the payment state. */
    method Conclude(req: Request, result: TransactionResult, answers: nat -> Answer, at: nat)
      returns (r: Result<TransactionResult, CheckoutError>, next: nat)
      modifies this, idempotency
      ensures reservations == old(reservations) && (r.Ok? ==> r.value == result && PaymentRecorded(result))
      ensures r.Err? ==> r.error.Store?
      ensures next > at
      ensures World(req, Finished(r)) == RunAlone(old(World(req, Completing(result))), answers, at, next)
    {
      hide Next, World;
      ghost var start := World(req, Completing(result));
      var ok := CompleteKey(req, result, answers(at));
      RunAloneStep(start, answers, at, at);
      if !ok {
        return Err(Store), at + 1;
      }
      RecordPayment(req, result, answers(at + 1));
      RunAloneStep(start, answers, at, at + 1);
      return Ok(result), at + 2;
    }

    /** Everything after the payment was authorized. */
    method Fulfil(req: Request, cart: Cart, reference: string, answers: nat -> Answer, at: nat)
      returns (r: Result<TransactionResult, CheckoutError>, next: nat)
      modifies this, idempotency
      ensures r.Ok? ==> r.value.status.Completed? && ReservationsFinalized(req.cartId) && PaymentRecorded(r.value)
      ensures r.Err? ==> r.error.Store? || (r.error.Provider? && (answers(at + 1).capture == Err(r.error.error)
                                                                  || answers(at + 3).receipt == Err(r.error.error)))
      ensures r.Ok? ==> Explains([Judged(false, cart), Authorized(Ok((true, reference))), Charged(answers(at + 1).capture),
                                  Receipted(answers(at + 3).receipt)], r.value)
      ensures next > at
      ensures World(req, Finished(r)) == RunAlone(old(World(req, Committing(cart, reference))), answers, at, next)
    {
      hide Next, World;
      ghost var start := World(req, Committing(cart, reference));
      var txn, committed := CommitCart(req, cart, reference, answers(at));
      RunAloneStep(start, answers, at, at);
      if !committed {
        return Err(Store), at + 1;
      }
      var captured := CapturePayment(req, cart, reference, txn, answers(at + 1));
      RunAloneStep(start, answers, at, at + 1);
      if captured.Err? {
        return Err(captured.error), at + 2;
      }
      var result, ordered := PutOrder(req, cart, reference, txn, captured.value, answers(at + 2));
      RunAloneStep(start, answers, at, at + 2);
      if !ordered {
        return Err(Store), at + 3;
      }
      var receipted := MakeReceipt(req, cart, result, answers(at + 3));
      RunAloneStep(start, answers, at, at + 3);
      if receipted.Err? {
        return Err(receipted.error), at + 4;
      }
      result := receipted.value;
      var finalized := FinalizeReservations(req, cart, result, answers(at + 4));
      RunAloneStep(start, answers, at, at + 4);
      if !finalized {
        return Err(Store), at + 5;
      }
      var enqueued := EnqueueOrder(req, cart, result, answers(at + 5));
      RunAloneStep(start, answers, at, at + 5);
      if !enqueued {
        return Err(Store), at + 6;
      }
      r, next := Conclude(req, result, answers, at + 6);
      RunAloneJoin(start, answers, at, at + 6, next);
    }

    /** Policy, payment and what follows, for a cart whose lines are reserved. */
    method Pay(req: Request, cart: Cart, answers: nat -> Answer, at: nat)
      returns (r: Result<TransactionResult, CheckoutError>, next: nat)
      modifies this, idempotency
      ensures r.Ok? ==> Explains(Asked(policy, req, cart, answers, at), r.value) && PaymentRecorded(r.value)
      ensures r.Ok? ==> StockFollows(req.cartId, r.value)
      ensures r != Err(Invalid) && (r.Err? ==> LateError(answers, at, r.error))
      ensures next > at
      ensures World(req, Finished(r)) == RunAlone(old(World(req, Reserving(cart, |cart.lines|))), answers, at, next)
    {
      hide Next, World;
      ghost var start := World(req, Reserving(cart, |cart.lines|));
      var refused := CheckPolicy(req, cart, answers(at));
      RunAloneStep(start, answers, at, at);
      if refused.Some? {
        r, next := Refuse(req, cart, refused.value, answers, at + 1);
        RunAloneJoin(start, answers, at, at + 1, next);
        return;
      }
      var auth := AuthorizePayment(req, cart, answers(at + 1));
      RunAloneStep(start, answers, at, at + 1);
      if auth.Err? {
        return Err(auth.error), at + 2;
      }
      var (reference, failed) := auth.value;
      if failed.Some? {
        r, next := Refuse(req, cart, failed.value, answers, at + 2);
      } else {
        r, next := Fulfil(req, cart, reference, answers, at + 2);
      }
      RunAloneJoin(start, answers, at, at + 2, next);
    }

    /** The checkout of a call that has just claimed its key. */
    method CheckOutClaimed(req: Request, answers: nat -> Answer)
      returns (r: Result<TransactionResult, CheckoutError>, calls: nat)
      modifies this, idempotency
      ensures r.Err? ==> IsFailureFor(req, old(snapshots), answers, r.error)
      ensures r != Err(Invalid)
      ensures r.Ok? ==> && req.cartId in old(snapshots) && PaymentRecorded(r.value)
                        && IsResultFor(policy, req, answers, old(snapshots)[req.cartId], r.value)
                        && StockFollows(req.cartId, r.value)
      ensures calls > 1
      ensures World(req, Finished(r)) == RunAlone(old(World(req, Loading)), answers, 1, calls)
    {
      hide Next, World, IsSettled, Explains, Asked, KeyOf, StockFollows, PaymentRecorded, LinesReserved, LateError, SettleFails;
      ghost var start := World(req, Loading);
      var settled, at := SettleCart(req, answers, 1);
      if settled.Err? {
        var released := ReleaseKey(req, settled.error, answers(at));
        RunAloneStep(start, answers, 1, at);
        assert SettleFails(req, old(snapshots), answers, 1, settled.error, at);
        return Err(if released then settled.error else Store), at + 1;
      }
      var reserved, next := ReserveLines(req, settled.value, answers, at);
      RunAloneJoin(start, answers, 1, at, next);
      if !reserved {
        FailsLate(req, old(snapshots), answers, settled.value, Store);
        return Err(Store), next;
      }
      r, calls := Pay(req, settled.value, answers, next);
      RunAloneJoin(start, answers, 1, next, calls);
      if r.Err? {
        FailsLate(req, old(snapshots), answers, settled.value, r.error);
      }
    }

    /**
     Execute one checkout. With the stores to itself, the call leaves exactly what the
     checkout machine leaves after as many steps as it made calls, and returns what the
     machine finished with. A repeated call returns the recorded result. A fresh result is
     the one the answers stand for: rejected exactly when the policy refuses the settled
     cart, unauthorized exactly when the payment provider declines, completed exactly when
     it approves, with the references, payment state and receipt that were answered. It
     leaves the cart's reservations finalized by a purchase and released by a refusal. A
     fresh failure is the first one met: of the claim, while settling, or later.
     */
    method ExecuteCheckout(req: Request, answers: nat -> Answer)
      returns (r: Result<TransactionResult, CheckoutError>, calls: nat)
      modifies this, idempotency
      ensures !Usable(req) <==> r == Err(Invalid)
      ensures Usable(req) && old(KeyOf(req) in idempotency.table) ==>
                r == match old(idempotency.table)[KeyOf(req)] case InFlight => Err(AlreadyInFlight) case Completed(done) => Ok(done)
      ensures old(KeyOf(req) !in idempotency.table) && r.Ok? ==>
                && req.cartId in old(snapshots) && IsResultFor(policy, req, answers, old(snapshots)[req.cartId], r.value)
                && PaymentRecorded(r.value) && StockFollows(req.cartId, r.value)
      ensures Usable(req) && old(KeyOf(req) !in idempotency.table) && r.Err? ==>
                if answers(0).store.Done? then IsFailureFor(req, old(snapshots), answers, r.error) else r == Err(Store)
      ensures World(req, Finished(r)) == RunAlone(old(World(req, Arrived(req))), answers, 0, calls)
    {
      ValidIsUsable(req);
      if !ValidRequest(req) {
        return Err(Invalid), 0;
      }
      hide Next, World, ValidRequest, Usable, IsSettled, IsResultFor, IsFailureFor, KeyOf;
      ghost var start := World(req, Claiming);
      var found, claimed := ClaimKey(req, answers(0));
      if found.Some? {
        return match found.value case InFlight => Err(AlreadyInFlight) case Completed(done) => Ok(done), 1;
      }
      if !claimed {
        return Err(Store), 1;
      }
      r, calls := CheckOutClaimed(req, answers);
      RunAloneJoin(start, answers, 0, 1, calls);
    }
  }
}
