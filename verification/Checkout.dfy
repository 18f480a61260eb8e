/**
 Checkout execution as a machine: any number of calls run at once, and each atomic
 store or provider call is one step that may succeed, fail, or be the last thing a
 crashed process did.
 */
module Checkout {
  import opened Wrappers
  import opened CartModel
  import opened ReservationStates
  import Idempotency

  type Key = Idempotency.Key

  datatype Request = Request(tenantId: string, merchantId: string, cartId: CartId, cartVersion: nat, currency: string,
                             country: Option<string>, amountMinor: int, token: string, idempotencyKey: string)

  datatype Policy = Policy(maxTotalMinor: Option<int>, blockedCountries: set<string>, requireReference: bool)

  datatype Totals = Totals(subtotalMinor: int, taxMinor: int, discountMinor: int, fulfillmentMinor: int, totalMinor: int)

  datatype Status = Completed | Rejected | AuthFailed

  datatype PaymentState = Captured | PaymentFailed

  datatype TransactionResult = TransactionResult(transactionId: nat, status: Status, totals: Totals,
                                                 paymentReference: Option<string>, receipt: Option<string>,
                                                 paymentState: PaymentState, orderId: Option<nat>)

  datatype CheckoutError =
    | Invalid | AlreadyInFlight | CartNotFound | CartTenantMismatch | GeoBlocked | Store
    | CartVersionConflict(expected: nat, current: nat)
    | AmountMismatch(expectedMinor: int, providedMinor: int)
    | Provider(error: ProviderError)

  /** The calls that must not happen twice, with their arguments. */
  datatype Effect =
    | Authorize(amountMinor: int)
    | Commit(transactionId: nat, reference: string)
    | Capture(transactionId: nat, amountMinor: int)
    | PutOrder(orderId: nat, transactionId: nat, totals: Totals)
    | Enqueue(orderId: nat)

  /** Where one call to checkout stands. */
  datatype Phase =
    | Claiming
    | Loading
    | Settling(cart: Cart)
    | Saving(cart: Cart)
    | Releasing(error: CheckoutError)
    | Reserving(cart: Cart, line: nat)
    | Authorizing(cart: Cart)
    | Committing(cart: Cart, reference: string)
    | Capturing(cart: Cart, reference: string, transactionId: nat)
    | Ordering(cart: Cart, reference: string, transactionId: nat, captured: bool)
    | Receipting(cart: Cart, result: TransactionResult)
    | Finalizing(cart: Cart, result: TransactionResult)
    | Enqueueing(cart: Cart, result: TransactionResult)
    | Refusing(cart: Cart, result: TransactionResult)
    | Completing(result: TransactionResult)
    | Recording(result: TransactionResult)
    | Finished(outcome: Result<TransactionResult, CheckoutError>)
    | Crashed

  /** How a store call ends; a failed one may still have taken effect. */
  datatype StoreOutcome = Done | FailedBefore | FailedAfter

  /** What the stores and providers answer to one step. */
  datatype Answer = Answer(
    store: StoreOutcome,
    prices: Result<seq<LinePrice>, ProviderError>,
    tax: Result<int, ProviderError>,
    discounts: Result<seq<AppliedDiscount>, ProviderError>,
    geo: Result<bool, ProviderError>,
    auth: Result<(bool, string), ProviderError>,
    capture: Result<bool, ProviderError>,
    receipt: Result<string, ProviderError>)

  predicate ValidRequest(req: Request) {
    req.tenantId != "" && req.merchantId != "" && |req.currency| == 3 && req.cartVersion > 0
    && req.idempotencyKey != "" && req.amountMinor >= 0 && req.token != ""
  }

  function KeyOf(req: Request): Key {
    Idempotency.Key(req.tenantId, req.merchantId, req.idempotencyKey)
  }

  function Lower(c: char): char {
    if 'A' <= c <= 'Z' then (c as int - 'A' as int + 'a' as int) as char else c
  }

  predicate SameIgnoringCase(a: string, b: string) {
    |a| == |b| && forall i :: 0 <= i < |a| ==> Lower(a[i]) == Lower(b[i])
  }

  predicate PolicyRejects(policy: Policy, req: Request, totalMinor: int) {
    || (policy.maxTotalMinor.Some? && totalMinor > policy.maxTotalMinor.value)
    || (req.country.Some? && exists b :: b in policy.blockedCountries && SameIgnoringCase(b, req.country.value))
    || (policy.requireReference && req.token == "")
  }

  /** Prices, tax and discounts afresh, with no lifecycle events. */
  function RepriceForCheckout(c: Cart, ans: Answer): Result<Cart, ProviderError> {
    if ans.prices.Err? then Err(ans.prices.error)
    else if ans.tax.Err? then Err(ans.tax.error)
    else ApplyDiscounts(WithPrices(c, ans.prices.value).(taxMinor := ans.tax.value), ans.discounts)
  }

  function TotalsOf(c: Cart): Totals {
    Totals(c.subtotalMinor, c.taxMinor, c.discountMinor, c.fulfillmentMinor, c.totalMinor)
  }

  function RefusedResult(c: Cart, id: nat, status: Status, reference: Option<string>): TransactionResult {
    TransactionResult(id, status, TotalsOf(c), reference, None, PaymentFailed, None)
  }

  /** Changes to the idempotency table and to the reservations that a step can make. */
  datatype KeyOp = Leave | Claim | Release | Complete(result: TransactionResult)

  datatype ReservationOp = Keep | Reserve(sku: string, quantity: nat) | ReleaseCart | FinalizeCart

  /** One atomic step: where the call stands next, and what it did to the shared stores. */
  datatype Move = Move(phase: Phase, effect: Option<Effect>, op: KeyOp, save: Option<Cart>,
                       reservation: ReservationOp, payment: Option<(nat, PaymentState)>)

  function Goto(phase: Phase): Move {
    Move(phase, None, Leave, None, Keep, None)
  }

  /** A store call with an effect: failing ends the call, whether or not it took effect. */
  function Call(ans: Answer, done: Move): Move {
    match ans.store
    case Done => done
    case FailedBefore => Goto(Finished(Err(Store)))
    case FailedAfter => done.(phase := Finished(Err(Store)))
  }

  /** One step of `execute_checkout`, given the current state of its key and cart. */
  function Advance(policy: Policy, req: Request, phase: Phase,
                   claimed: Option<Idempotency.State<TransactionResult>>, snapshot: Option<Cart>,
                   ans: Answer, newId: nat): Move
  {
    match phase
    case Claiming => (
      match claimed
      case Some(InFlight) => Goto(Finished(Err(AlreadyInFlight)))
      case Some(Completed(r)) => Goto(Finished(Ok(r)))
      case None => Call(ans, Goto(Loading).(op := Claim)))
    case Loading => (
      match snapshot
      case None => Goto(Releasing(CartNotFound))
      case Some(c) =>
        if c.tenantId.Some? && c.tenantId.value != req.tenantId then Goto(Releasing(CartTenantMismatch))
        else if c.version != req.cartVersion then Goto(Releasing(CartVersionConflict(req.cartVersion, c.version)))
        else Goto(Settling(c)))
    case Settling(c) => (
      match RepriceForCheckout(c, ans)
      case Err(e) => Goto(Releasing(Provider(e)))
      case Ok(repriced) =>
        match ans.geo
        case Err(e) => Goto(Releasing(Provider(e)))
        case Ok(allowed) => Goto(Saving(repriced.(geoOk := allowed))))
    case Saving(c) => (
      if ans.store.FailedBefore? then Goto(Releasing(Store))
      else
        var next := if ans.store.FailedAfter? then Releasing(Store)
                    else if !c.geoOk then Releasing(GeoBlocked)
                    else if req.amountMinor != c.totalMinor then
                      Releasing(AmountMismatch(c.totalMinor, req.amountMinor))
                    else Reserving(c, 0);
        Goto(next).(save := Some(c)))
    case Releasing(e) => Call(ans, Goto(Finished(Err(e))).(op := Release))
    case Reserving(c, i) => (
      if i < |c.lines| then
        Call(ans, Goto(Reserving(c, i + 1)).(reservation := Reserve(c.lines[i].itemId, c.lines[i].quantity)))
      else if PolicyRejects(policy, req, c.totalMinor) then
        Goto(Refusing(c, RefusedResult(c, newId, Rejected, None)))
      else Goto(Authorizing(c)))
    case Authorizing(c) => (
      var next := match ans.auth
                  case Err(e) => Finished(Err(Provider(e)))
                  case Ok(answer) =>
                    if answer.0 then Committing(c, answer.1)
                    else Refusing(c, RefusedResult(c, newId, AuthFailed, Some(answer.1)));
      Goto(next).(effect := Some(Authorize(req.amountMinor))))
    case Committing(c, reference) =>
      Call(ans, Goto(Capturing(c, reference, newId)).(effect := Some(Commit(newId, reference))))
    case Capturing(c, reference, txn) => (
      var next := match ans.capture
                  case Err(e) => Finished(Err(Provider(e)))
                  case Ok(success) => Ordering(c, reference, txn, success);
      Goto(next).(effect := Some(Capture(txn, c.totalMinor))))
    case Ordering(c, reference, txn, captured) => (
      var result := TransactionResult(txn, Completed, TotalsOf(c), Some(reference), None,
                                      if captured then Captured else PaymentFailed, Some(newId));
      Call(ans, Goto(Receipting(c, result)).(effect := Some(PutOrder(newId, txn, TotalsOf(c))))))
    case Receipting(c, result) => (
      match ans.receipt
      case Err(e) => Goto(Finished(Err(Provider(e))))
      case Ok(text) => Goto(Finalizing(c, result.(receipt := Some(text)))))
    case Finalizing(c, result) => Call(ans, Goto(Enqueueing(c, result)).(reservation := FinalizeCart))
    case Enqueueing(c, result) =>
      Call(ans, Goto(Completing(result)).(
                  effect := Some(Enqueue(if result.orderId.Some? then result.orderId.value else 0))))
    case Refusing(c, result) => Call(ans, Goto(Completing(result)).(reservation := ReleaseCart))
    case Completing(result) => Call(ans, Goto(Recording(result)).(op := Complete(result)))
    case Recording(result) =>
      Goto(Finished(Ok(result))).(payment := Some((result.transactionId, result.paymentState)))
    case Finished(_) => Goto(phase)
    case Crashed => Goto(phase)
  }

  // ---- The shared world -----------------------------------------------------------------------

  datatype Reservation = Reservation(quantity: nat, state: ReservationState)

  type Pid = nat

  datatype Proc = Proc(req: Request, phase: Phase)

  datatype World = World(
    policy: Policy,
    keys: Idempotency.Table<TransactionResult>,
    snapshots: map<CartId, Cart>,
    reservations: map<(CartId, string), Reservation>,
    payments: map<nat, PaymentState>,
    effects: seq<(Key, Effect)>,
    procs: map<Pid, Proc>,
    nextId: nat)

  function Begin(policy: Policy): World {
    World(policy, map[], map[], map[], map[], [], map[], 0)
  }

  function ApplyOp(keys: Idempotency.Table<TransactionResult>, key: Key, op: KeyOp): Idempotency.Table<TransactionResult> {
    match op
    case Leave => keys
    case Claim => Idempotency.Claimed(keys, key)
    case Release => Idempotency.Released(keys, key)
    case Complete(r) => keys[key := Idempotency.Completed(r)]
  }

  function SetAll(rs: map<(CartId, string), Reservation>, cart: CartId, state: ReservationState)
    : map<(CartId, string), Reservation>
  {
    map k | k in rs :: if k.0 == cart then rs[k].(state := state) else rs[k]
  }

  function ApplyReservation(rs: map<(CartId, string), Reservation>, cart: CartId, op: ReservationOp)
    : map<(CartId, string), Reservation>
  {
    match op
    case Keep => rs
    case Reserve(sku, quantity) => rs[(cart, sku) := Reservation(quantity, Reserved)]
    case ReleaseCart => SetAll(rs, cart, Released)
    case FinalizeCart => SetAll(rs, cart, Finalized)
  }

  function MoveOf(w: World, pid: Pid, ans: Answer): Move
    requires pid in w.procs
  {
    var p := w.procs[pid];
    Advance(w.policy, p.req, p.phase, Idempotency.Current(w.keys, KeyOf(p.req)),
            if p.req.cartId in w.snapshots then Some(w.snapshots[p.req.cartId]) else None, ans, w.nextId)
  }

  function Apply(w: World, pid: Pid, m: Move): World
    requires pid in w.procs
  {
    var p := w.procs[pid];
    World(w.policy,
          ApplyOp(w.keys, KeyOf(p.req), m.op),
          if m.save.Some? then w.snapshots[m.save.value.cartId := m.save.value] else w.snapshots,
          ApplyReservation(w.reservations, p.req.cartId, m.reservation),
          if m.payment.Some? then w.payments[m.payment.value.0 := m.payment.value.1] else w.payments,
          if m.effect.Some? then w.effects + [(KeyOf(p.req), m.effect.value)] else w.effects,
          w.procs[pid := p.(phase := m.phase)],
          w.nextId + 1)
  }

  /**
   What can happen next: a call arrives, a running call takes one step, a process dies,
   or somebody else edits a cart or touches the reservations.
   */
  datatype Event =
    | Arrive(pid: Pid, req: Request)
    | Step(pid: Pid, answer: Answer)
    | Crash(pid: Pid)
    | EditCart(cart: Cart)
    | EditReservations(rs: map<(CartId, string), Reservation>)

  function Next(w: World, e: Event): World {
    match e
    case Arrive(pid, req) =>
      if pid in w.procs then w
      else w.(procs := w.procs[pid := Proc(req, if ValidRequest(req) then Claiming else Finished(Err(Invalid)))])
    case Step(pid, ans) => if pid in w.procs then Apply(w, pid, MoveOf(w, pid, ans)) else w
    case Crash(pid) => if pid in w.procs then w.(procs := w.procs[pid := w.procs[pid].(phase := Crashed)]) else w
    case EditCart(c) => w.(snapshots := w.snapshots[c.cartId := c])
    case EditReservations(rs) => w.(reservations := rs)
  }

  function Run(w: World, events: seq<Event>): World
    decreases |events|
  {
    if events == [] then w else Run(Next(w, events[0]), events[1..])
  }

  lemma {:induction false} RunSnoc(w: World, events: seq<Event>, e: Event)
    ensures Run(w, events + [e]) == Next(Run(w, events), e)
    decreases |events|
  {
    hide Next;
    if events == [] {
      assert ([] + [e])[1..] == [];
    } else {
      assert (events + [e])[1..] == events[1..] + [e];
      RunSnoc(Next(w, events[0]), events[1..], e);
    }
  }
}
