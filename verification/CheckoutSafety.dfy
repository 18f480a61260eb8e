/** What holds of checkout in every interleaving, with every failure. */
module CheckoutSafety {
  import opened Wrappers
  import opened CartModel
  import opened Checkout
  import Idempotency
  import CartInvariants
  import CartOutcomes

  /** The effects made under one key, in order. */
  function ByKey(effects: seq<(Key, Effect)>, key: Key): seq<Effect> {
    if effects == [] then [] else
      var last := effects[|effects| - 1];
      ByKey(effects[..|effects| - 1], key) + (if last.0 == key then [last.1] else [])
  }

  lemma ByKeyAppend(effects: seq<(Key, Effect)>, key: Key, e: Effect, other: Key)
    ensures ByKey(effects + [(key, e)], other) == ByKey(effects, other) + (if other == key then [e] else [])
  {
    assert (effects + [(key, e)])[..|effects|] == effects;
  }

  /** Everything one completed checkout does, in order, all for one amount. */
  function FullTrace(totals: Totals, reference: string, txn: nat, order: nat): seq<Effect> {
    [Authorize(totals.totalMinor), Commit(txn, reference), Capture(txn, totals.totalMinor),
     PutOrder(order, txn, totals), Enqueue(order)]
  }

  /** A beginning of one checkout and nothing else. */
  ghost predicate WellTraced(trace: seq<Effect>) {
    exists totals, reference, txn, order :: trace <= FullTrace(totals, reference, txn, order)
  }

  function TraceOfResult(r: TransactionResult): seq<Effect> {
    match r.status
    case Rejected => []
    case AuthFailed => [Authorize(r.totals.totalMinor)]
    case Completed =>
      FullTrace(r.totals, if r.paymentReference.Some? then r.paymentReference.value else "", r.transactionId,
                if r.orderId.Some? then r.orderId.value else 0)
  }

  /** Between claiming the key and giving it up. */
  predicate Owns(phase: Phase) {
    !(phase.Claiming? || phase.Recording? || phase.Finished? || phase.Crashed?)
  }

  /** What a call in this phase has done so far. */
  function TraceOf(phase: Phase): seq<Effect> {
    match phase
    case Committing(c, _) => [Authorize(c.totalMinor)]
    case Capturing(c, reference, txn) => FullTrace(TotalsOf(c), reference, txn, 0)[..2]
    case Ordering(c, reference, txn, _) => FullTrace(TotalsOf(c), reference, txn, 0)[..3]
    case Receipting(_, r) => TraceOfResult(r)[..if |TraceOfResult(r)| >= 4 then 4 else 0]
    case Finalizing(_, r) => TraceOfResult(r)[..if |TraceOfResult(r)| >= 4 then 4 else 0]
    case Enqueueing(_, r) => TraceOfResult(r)[..if |TraceOfResult(r)| >= 4 then 4 else 0]
    case Refusing(_, r) => TraceOfResult(r)
    case Completing(r) => TraceOfResult(r)
    case _ => []
  }

  /** The cart a payment may be taken for. */
  predicate Settled(req: Request, c: Cart) {
    && c.cartId == req.cartId && c.version == req.cartVersion
    && (c.tenantId.Some? ==> c.tenantId.value == req.tenantId)
    && c.geoOk && c.totalMinor == req.amountMinor && Balanced(c)
  }

  predicate Loaded(req: Request, c: Cart) {
    c.cartId == req.cartId && c.version == req.cartVersion && (c.tenantId.Some? ==> c.tenantId.value == req.tenantId)
  }

  predicate PhaseOk(req: Request, phase: Phase) {
    match phase
    case Settling(c) => Loaded(req, c)
    case Saving(c) => Loaded(req, c) && Balanced(c)
    case Reserving(c, i) => Settled(req, c) && i <= |c.lines|
    case Authorizing(c) => Settled(req, c)
    case Committing(c, _) => Settled(req, c)
    case Capturing(c, _, _) => Settled(req, c)
    case Ordering(c, _, _, _) => Settled(req, c)
    case Receipting(c, r) => Settled(req, c) && CompletedFor(c, r)
    case Finalizing(c, r) => Settled(req, c) && CompletedFor(c, r)
    case Enqueueing(c, r) => Settled(req, c) && CompletedFor(c, r)
    case Refusing(c, r) => Settled(req, c) && r.totals == TotalsOf(c) && !r.status.Completed? && r.orderId.None?
    case Completing(r) => ResultOk(req, r)
    case Recording(r) => ResultOk(req, r)
    case _ => true
  }

  predicate CompletedFor(c: Cart, r: TransactionResult) {
    r.totals == TotalsOf(c) && r.status.Completed? && r.orderId.Some? && r.paymentReference.Some?
  }

  /** A result names the requested amount, and an order exactly when it completed. */
  predicate ResultOk(req: Request, r: TransactionResult) {
    r.totals.totalMinor == req.amountMinor && (r.status.Completed? <==> r.orderId.Some?)
    && (r.status.Completed? ==> r.paymentReference.Some?)
  }

  // ---- One step, seen from its own call ----------------------------------------------------------

  lemma RepricingBalances(c: Cart, ans: Answer)
    requires RepriceForCheckout(c, ans).Ok?
    ensures Balanced(RepriceForCheckout(c, ans).value)
    ensures CartInvariants.SameContents(c, RepriceForCheckout(c, ans).value)
  {
    PricingKeepsSkeleton(c.lines, ans.prices.value);
    CartInvariants.DiscountsBalance(WithPrices(c, ans.prices.value).(taxMinor := ans.tax.value), ans.discounts);
  }

  /** Re-pricing for checkout succeeds exactly when every provider it needs answers. */
  predicate Answered(c: Cart, ans: Answer) {
    ans.prices.Ok? && ans.tax.Ok? && (c.adjustmentCodes != [] ==> ans.discounts.Ok?)
  }

  /** And gives the cart with these prices, this tax and these discounts, and nothing else changed. */
  lemma RepricingRecomputes(c: Cart, ans: Answer, allowed: bool)
    requires DistinctLines(c.lines)
    ensures RepriceForCheckout(c, ans).Ok? <==> Answered(c, ans)
    ensures Answered(c, ans) ==>
              CartOutcomes.Recomputed(c, RepriceForCheckout(c, ans).value.(geoOk := allowed), ans.prices.value, ans.tax.value,
                                      ans.discounts, allowed)
  {
    if Answered(c, ans) {
      var taxed := WithPrices(c, ans.prices.value).(taxMinor := ans.tax.value);
      CartOutcomes.PricesAreRight(c, ans.prices.value);
      hide WithPrices, TotalDiscount, CartOutcomes.AtLastPrices, CartOutcomes.Discounted;
      assert ApplyDiscounts(taxed, ans.discounts).Ok?;
      CartOutcomes.DiscountsAreRight(taxed, ans.discounts);
      CartOutcomes.GeoIsApart(ApplyDiscounts(taxed, ans.discounts).value, ans.discounts, allowed);
    }
  }

  lemma Beginning(trace: seq<Effect>, totals: Totals, reference: string, txn: nat, order: nat)
    requires trace <= FullTrace(totals, reference, txn, order)
    ensures WellTraced(trace)
  {
  }

  lemma PhaseTraced(req: Request, phase: Phase)
    requires PhaseOk(req, phase)
    ensures WellTraced(TraceOf(phase))
  {
    match phase
    case Committing(c, reference) => Beginning(TraceOf(phase), TotalsOf(c), reference, 0, 0);
    case Capturing(c, reference, txn) => Beginning(TraceOf(phase), TotalsOf(c), reference, txn, 0);
    case Ordering(c, reference, txn, _) => Beginning(TraceOf(phase), TotalsOf(c), reference, txn, 0);
    case Receipting(_, r) => ResultTraced(r);
    case Finalizing(_, r) => ResultTraced(r);
    case Enqueueing(_, r) => ResultTraced(r);
    case Refusing(_, r) => ResultTraced(r);
    case Completing(r) => ResultTraced(r);
    case _ => Beginning([], Totals(0, 0, 0, 0, 0), "", 0, 0);
  }

  lemma ResultTraced(r: TransactionResult)
    ensures WellTraced(TraceOfResult(r))
    ensures |TraceOfResult(r)| >= 4 ==> WellTraced(TraceOfResult(r)[..4])
    ensures WellTraced(TraceOfResult(r)[..0])
  {
    var reference := if r.paymentReference.Some? then r.paymentReference.value else "";
    var order := if r.orderId.Some? then r.orderId.value else 0;
    var full := FullTrace(r.totals, reference, r.transactionId, order);
    Beginning(TraceOfResult(r), r.totals, reference, r.transactionId, order);
    Beginning(full[..4], r.totals, reference, r.transactionId, order);
    Beginning([], r.totals, reference, r.transactionId, order);
  }

  function With(trace: seq<Effect>, e: Option<Effect>): seq<Effect> {
    if e.Some? then trace + [e.value] else trace
  }

  /** Every step of a call that owns its key continues one well-formed trace. */
  ghost predicate GoodMove(req: Request, phase: Phase, m: Move) {
    && PhaseOk(req, m.phase)
    && (m.save.Some? ==> m.save.value.cartId == req.cartId)
    && match m.op
       case Claim => false
       case Leave =>
         if Owns(m.phase) then TraceOf(m.phase) == With(TraceOf(phase), m.effect)
         else (m.phase.Finished? && m.phase.outcome.Err? && WellTraced(With(TraceOf(phase), m.effect)))
       case Release =>
         m.effect.None? && TraceOf(phase) == [] && m.phase.Finished? && m.phase.outcome.Err?
       case Complete(r) =>
         && m.effect.None? && TraceOf(phase) == TraceOfResult(r) && ResultOk(req, r)
         && (m.phase == Recording(r) || (m.phase.Finished? && m.phase.outcome.Err?))
  }

  lemma PaymentMoves(policy: Policy, req: Request, phase: Phase,
                  claimed: Option<Idempotency.State<TransactionResult>>, snapshot: Option<Cart>, ans: Answer, newId: nat)
    requires phase.Authorizing? || phase.Committing? || phase.Capturing?
    requires PhaseOk(req, phase)
    ensures GoodMove(req, phase, Advance(policy, req, phase, claimed, snapshot, ans, newId))
  {
    hide Balanced;
    PhaseTraced(req, phase);
    var c := phase.cart;
    match phase {
      case Authorizing(_) =>
        Beginning([Authorize(c.totalMinor)], TotalsOf(c), "", 0, 0);
        assert [] + [Authorize(c.totalMinor)] == [Authorize(c.totalMinor)];
      case Committing(_, reference) =>
        var two := FullTrace(TotalsOf(c), reference, newId, 0)[..2];
        Beginning(two, TotalsOf(c), reference, newId, 0);
        assert TraceOf(phase) + [Commit(newId, reference)] == two;
        hide WellTraced, FullTrace;
      case Capturing(_, reference, txn) =>
        var three := FullTrace(TotalsOf(c), reference, txn, 0)[..3];
        Beginning(three, TotalsOf(c), reference, txn, 0);
        assert TraceOf(phase) + [Capture(txn, c.totalMinor)] == three;
        hide WellTraced, FullTrace;
    }
  }

  lemma OrderingMoves(policy: Policy, req: Request, phase: Phase,
                  claimed: Option<Idempotency.State<TransactionResult>>, snapshot: Option<Cart>, ans: Answer, newId: nat)
    requires phase.Ordering? && PhaseOk(req, phase)
    ensures GoodMove(req, phase, Advance(policy, req, phase, claimed, snapshot, ans, newId))
  {
    hide Balanced;
    PhaseTraced(req, phase);
    var c, reference, txn := phase.cart, phase.reference, phase.transactionId;
    var four := FullTrace(TotalsOf(c), reference, txn, newId)[..4];
    Beginning(four, TotalsOf(c), reference, txn, newId);
    assert TraceOf(phase) + [PutOrder(newId, txn, TotalsOf(c))] == four;
    hide WellTraced;
  }

  lemma EnqueueingMoves(policy: Policy, req: Request, phase: Phase,
                  claimed: Option<Idempotency.State<TransactionResult>>, snapshot: Option<Cart>, ans: Answer, newId: nat)
    requires phase.Enqueueing? && PhaseOk(req, phase)
    ensures GoodMove(req, phase, Advance(policy, req, phase, claimed, snapshot, ans, newId))
  {
    hide Balanced;
    PhaseTraced(req, phase);
    ResultTraced(phase.result);
    assert TraceOf(phase) + [Enqueue(phase.result.orderId.value)] == TraceOfResult(phase.result);
    hide WellTraced, FullTrace;
  }

  lemma ReceiptMoves(policy: Policy, req: Request, phase: Phase,
                  claimed: Option<Idempotency.State<TransactionResult>>, snapshot: Option<Cart>, ans: Answer, newId: nat)
    requires (phase.Receipting? || phase.Finalizing?) && PhaseOk(req, phase)
    ensures GoodMove(req, phase, Advance(policy, req, phase, claimed, snapshot, ans, newId))
  {
    hide Balanced;
    PhaseTraced(req, phase);
    hide WellTraced, FullTrace;
  }

  lemma SettlingMoves(policy: Policy, req: Request, phase: Phase,
                  claimed: Option<Idempotency.State<TransactionResult>>, snapshot: Option<Cart>, ans: Answer, newId: nat)
    requires phase.Settling? && PhaseOk(req, phase)
    ensures GoodMove(req, phase, Advance(policy, req, phase, claimed, snapshot, ans, newId))
  {
    var m := Advance(policy, req, phase, claimed, snapshot, ans, newId);
    var repriced := RepriceForCheckout(phase.cart, ans);
    if repriced.Ok? && ans.geo.Ok? {
      assert m == Goto(Saving(repriced.value.(geoOk := ans.geo.value)));
      RepricingBalances(phase.cart, ans);
      SameCart(phase.cart, repriced.value);
      GeoBalanced(repriced.value, ans.geo.value);
    } else {
      assert m.phase.Releasing? && m == Goto(m.phase);
    }
    hide Advance, Balanced, RepriceForCheckout, WellTraced, FullTrace, CartInvariants.SameContents;
  }

  predicate Quiet(phase: Phase) {
    phase.Loading? || phase.Saving? || phase.Releasing? || phase.Reserving? || phase.Refusing? || phase.Completing?
  }

  lemma QuietMoves(policy: Policy, req: Request, phase: Phase,
                  claimed: Option<Idempotency.State<TransactionResult>>, snapshot: Option<Cart>, ans: Answer, newId: nat)
    requires Quiet(phase) && PhaseOk(req, phase)
    requires snapshot.Some? ==> snapshot.value.cartId == req.cartId
    ensures GoodMove(req, phase, Advance(policy, req, phase, claimed, snapshot, ans, newId))
  {
    PhaseTraced(req, phase);
    hide Balanced, WellTraced, FullTrace, PolicyRejects;
  }

  lemma SameCart(c: Cart, d: Cart)
    requires CartInvariants.SameContents(c, d)
    ensures c.cartId == d.cartId && c.version == d.version && c.tenantId == d.tenantId
  {
  }

  lemma GeoBalanced(c: Cart, allowed: bool)
    requires Balanced(c)
    ensures Balanced(c.(geoOk := allowed))
  {
  }

  lemma OwnerMoves(policy: Policy, req: Request, phase: Phase,
                  claimed: Option<Idempotency.State<TransactionResult>>, snapshot: Option<Cart>, ans: Answer, newId: nat)
    requires Owns(phase) && PhaseOk(req, phase)
    requires snapshot.Some? ==> snapshot.value.cartId == req.cartId
    ensures GoodMove(req, phase, Advance(policy, req, phase, claimed, snapshot, ans, newId))
  {
    hide Advance, GoodMove, PhaseOk;
    if phase.Authorizing? || phase.Committing? || phase.Capturing? {
      PaymentMoves(policy, req, phase, claimed, snapshot, ans, newId);
    } else if phase.Ordering? {
      OrderingMoves(policy, req, phase, claimed, snapshot, ans, newId);
    } else if phase.Enqueueing? {
      EnqueueingMoves(policy, req, phase, claimed, snapshot, ans, newId);
    } else if phase.Receipting? || phase.Finalizing? {
      ReceiptMoves(policy, req, phase, claimed, snapshot, ans, newId);
    } else if phase.Settling? {
      SettlingMoves(policy, req, phase, claimed, snapshot, ans, newId);
    } else {
      QuietMoves(policy, req, phase, claimed, snapshot, ans, newId);
    }
  }

  // ---- The invariant of the whole world ------------------------------------------------------------

  ghost predicate KeyOk(w: World, key: Key) {
    var trace := ByKey(w.effects, key);
    && WellTraced(trace)
    && (forall p :: p in w.procs && KeyOf(w.procs[p].req) == key && Owns(w.procs[p].phase) ==>
          && key in w.keys && w.keys[key].InFlight? && trace == TraceOf(w.procs[p].phase)
          && forall q :: q in w.procs && KeyOf(w.procs[q].req) == key && Owns(w.procs[q].phase) ==> p == q)
    && (key !in w.keys ==> trace == [])
    && (key in w.keys && w.keys[key].Completed? ==> trace == TraceOfResult(w.keys[key].result))
  }

  predicate ProcOk(w: World, p: Pid)
    requires p in w.procs
  {
    var proc := w.procs[p];
    && PhaseOk(proc.req, proc.phase)
    && (proc.phase.Recording? ==> Idempotency.Current(w.keys, KeyOf(proc.req)) == Some(Idempotency.Completed(proc.phase.result)))
    && (proc.phase.Finished? && proc.phase.outcome.Ok? ==>
          Idempotency.Current(w.keys, KeyOf(proc.req)) == Some(Idempotency.Completed(proc.phase.outcome.value)))
  }

  ghost predicate Inv(w: World) {
    && (forall key: Key :: KeyOk(w, key))
    && (forall p :: p in w.procs ==> ProcOk(w, p))
    && (forall id :: id in w.snapshots ==> w.snapshots[id].cartId == id)
  }

  /** Completed keys never change, so finished calls keep agreeing with them. */
  ghost predicate CompletedKept(w: World, v: World) {
    forall key: Key :: key in w.keys && w.keys[key].Completed? ==> key in v.keys && v.keys[key] == w.keys[key]
  }

  lemma OthersOk(w: World, v: World, pid: Pid)
    requires Inv(w) && pid in w.procs && pid in v.procs
    requires v.procs == w.procs[pid := v.procs[pid]] && v.procs[pid].req == w.procs[pid].req
    requires CompletedKept(w, v)
    ensures forall p :: p in v.procs && p != pid ==> ProcOk(v, p)
  {
    forall p | p in v.procs && p != pid
      ensures ProcOk(v, p)
    {
      assert ProcOk(w, p);
    }
  }

  lemma OtherKeyOk(w: World, v: World, pid: Pid, key: Key)
    requires Inv(w) && pid in w.procs && pid in v.procs
    requires v.procs == w.procs[pid := v.procs[pid]] && v.procs[pid].req == w.procs[pid].req
    requires key != KeyOf(w.procs[pid].req)
    requires ByKey(v.effects, key) == ByKey(w.effects, key)
    requires key in v.keys <==> key in w.keys
    requires key in v.keys ==> v.keys[key] == w.keys[key]
    ensures KeyOk(v, key)
  {
    assert KeyOk(w, key);
    hide WellTraced, TraceOf, TraceOfResult, ByKey;
  }

  /** A step of a call that owns its key. */
  lemma OwnerKeeps(w: World, pid: Pid, m: Move)
    requires Inv(w) && pid in w.procs && Owns(w.procs[pid].phase)
    requires GoodMove(w.procs[pid].req, w.procs[pid].phase, m)
    ensures Inv(Apply(w, pid, m))
  {
    var v := Apply(w, pid, m);
    var req := w.procs[pid].req;
    var mine := KeyOf(req);
    assert KeyOk(w, mine);
    forall key: Key
      ensures ByKey(v.effects, key) == if key == mine then With(ByKey(w.effects, key), m.effect) else ByKey(w.effects, key)
    {
      if m.effect.Some? {
        ByKeyAppend(w.effects, mine, m.effect.value, key);
        assert ByKey(w.effects, key) + [] == ByKey(w.effects, key);
      }
    }
    hide ByKey, TraceOf, TraceOfResult, WellTraced, PhaseOk;
    forall key: Key | key != mine
      ensures KeyOk(v, key)
    {
      OtherKeyOk(w, v, pid, key);
    }
    assert KeyOk(v, mine) by {
      OwnKey(w, v, pid, m);
    }
    OthersOk(w, v, pid);
  }

  lemma OwnKey(w: World, v: World, pid: Pid, m: Move)
    requires Inv(w) && pid in w.procs && Owns(w.procs[pid].phase)
    requires GoodMove(w.procs[pid].req, w.procs[pid].phase, m)
    requires v == Apply(w, pid, m)
    requires ByKey(v.effects, KeyOf(w.procs[pid].req)) == With(ByKey(w.effects, KeyOf(w.procs[pid].req)), m.effect)
    ensures KeyOk(v, KeyOf(w.procs[pid].req))
  {
    var mine := KeyOf(w.procs[pid].req);
    assert KeyOk(w, mine);
    PhaseTraced(w.procs[pid].req, m.phase);
    assert WellTraced([]) by {
      Beginning([], Totals(0, 0, 0, 0, 0), "", 0, 0);
    }
    hide ByKey, TraceOf, TraceOfResult, WellTraced, PhaseOk, ApplyReservation;
    forall p | p in v.procs && p != pid && KeyOf(v.procs[p].req) == mine
      ensures !Owns(v.procs[p].phase)
    {
      assert v.procs[p] == w.procs[p];
    }
  }

  /** The steps of a call that does not own its key: claim it, report what is there, or stay finished. */
  predicate OutsiderMove(phase: Phase, claimed: Option<Idempotency.State<TransactionResult>>, m: Move) {
    && m.effect.None? && m.save.None?
    && (m.op == Claim ==>
          phase.Claiming? && claimed.None? && (m.phase == Loading || (m.phase.Finished? && m.phase.outcome.Err?)))
    && (m.op != Claim ==>
          m.op == Leave && !Owns(m.phase) && !m.phase.Recording?
          && (m.phase.Finished? && m.phase.outcome.Ok? ==>
                || phase == m.phase
                || phase == Recording(m.phase.outcome.value)
                || claimed == Some(Idempotency.Completed(m.phase.outcome.value))))
  }

  lemma OutsiderMoves(policy: Policy, req: Request, phase: Phase,
                      claimed: Option<Idempotency.State<TransactionResult>>, snapshot: Option<Cart>, ans: Answer, newId: nat)
    requires !Owns(phase)
    ensures OutsiderMove(phase, claimed, Advance(policy, req, phase, claimed, snapshot, ans, newId))
  {
  }

  lemma OutsiderKey(w: World, v: World, pid: Pid, m: Move)
    requires Inv(w) && pid in w.procs && !Owns(w.procs[pid].phase)
    requires OutsiderMove(w.procs[pid].phase, Idempotency.Current(w.keys, KeyOf(w.procs[pid].req)), m)
    requires v == Apply(w, pid, m)
    ensures KeyOk(v, KeyOf(w.procs[pid].req))
  {
    hide ProcOk;
    var mine := KeyOf(w.procs[pid].req);
    assert KeyOk(w, mine);
    assert v.effects == w.effects && KeyOf(v.procs[pid].req) == mine;
    assert TraceOf(Loading) == [];
    hide ByKey, TraceOfResult, TraceOf, WellTraced, ApplyReservation, KeyOf;
    if m.op == Leave {
      UnownedChange(w, v, pid, mine);
    } else {
      assert forall p :: p in v.procs && p != pid ==> v.procs[p] == w.procs[p];
    }
  }

  lemma OutsiderProc(w: World, v: World, pid: Pid, m: Move)
    requires pid in w.procs && !Owns(w.procs[pid].phase) && ProcOk(w, pid)
    requires OutsiderMove(w.procs[pid].phase, Idempotency.Current(w.keys, KeyOf(w.procs[pid].req)), m)
    requires v == Apply(w, pid, m)
    ensures ProcOk(v, pid)
  {
    hide ApplyReservation, KeyOf;
  }

  lemma OutsiderKeeps(w: World, pid: Pid, ans: Answer)
    requires Inv(w) && pid in w.procs && !Owns(w.procs[pid].phase)
    ensures Inv(Apply(w, pid, MoveOf(w, pid, ans)))
  {
    var p := w.procs[pid];
    var m := MoveOf(w, pid, ans);
    var v := Apply(w, pid, m);
    OutsiderMoves(w.policy, p.req, p.phase, Idempotency.Current(w.keys, KeyOf(p.req)),
                  if p.req.cartId in w.snapshots then Some(w.snapshots[p.req.cartId]) else None, ans, w.nextId);
    OutsiderKey(w, v, pid, m);
    assert ProcOk(w, pid);
    OutsiderProc(w, v, pid, m);
    hide ByKey, TraceOf, TraceOfResult, WellTraced, ApplyReservation, Advance, KeyOk, MoveOf;
    forall key: Key | key != KeyOf(p.req)
      ensures KeyOk(v, key)
    {
      OtherKeyOk(w, v, pid, key);
    }
    OthersOk(w, v, pid);
  }

  lemma NextKeeps(w: World, e: Event)
    requires Inv(w)
    ensures Inv(Next(w, e))
  {
    hide ByKey, TraceOf, TraceOfResult, WellTraced, PhaseOk, Advance, Apply;
    match e {
      case Step(pid, ans) =>
        if pid in w.procs {
          var p := w.procs[pid];
          if Owns(p.phase) {
            assert ProcOk(w, pid);
            OwnerMoves(w.policy, p.req, p.phase, Idempotency.Current(w.keys, KeyOf(p.req)),
                       if p.req.cartId in w.snapshots then Some(w.snapshots[p.req.cartId]) else None, ans, w.nextId);
            OwnerKeeps(w, pid, MoveOf(w, pid, ans));
          } else {
            OutsiderKeeps(w, pid, ans);
          }
        }
      case _ =>
        OtherEvents(w, e);
    }
  }

  /** A call that owns nothing may come, go or change without disturbing any key. */
  lemma UnownedChange(w: World, v: World, pid: Pid, key: Key)
    requires KeyOk(w, key) && v.effects == w.effects && v.keys == w.keys
    requires forall p :: p in v.procs && p != pid ==> p in w.procs && v.procs[p] == w.procs[p]
    requires pid in v.procs ==> !Owns(v.procs[pid].phase)
    ensures KeyOk(v, key)
  {
    hide ByKey, TraceOf, TraceOfResult, WellTraced, KeyOf;
  }

  lemma OtherEvents(w: World, e: Event)
    requires Inv(w) && !e.Step?
    ensures Inv(Next(w, e))
  {
    hide ByKey, TraceOf, TraceOfResult, WellTraced, KeyOk, ValidRequest, Apply, MoveOf, Advance;
    var v := Next(w, e);
    forall key: Key
      ensures KeyOk(v, key)
    {
      if (e.Arrive? && e.pid !in w.procs) || e.Crash? {
        UnownedChange(w, v, e.pid, key);
      } else {
        SameKeyOk(w, v, key);
      }
    }
    OtherEventProcs(w, e);
  }

  lemma ProcsKept(w: World, v: World, pid: Pid)
    requires (forall p :: p in w.procs ==> ProcOk(w, p)) && v.keys == w.keys
    requires forall p :: p in v.procs && p != pid ==> p in w.procs && v.procs[p] == w.procs[p]
    requires pid in v.procs ==> ProcOk(v, pid)
    ensures forall p :: p in v.procs ==> ProcOk(v, p)
  {
    hide PhaseOk, KeyOf, Idempotency.Current;
  }

  lemma OtherEventProcs(w: World, e: Event)
    requires Inv(w) && !e.Step?
    ensures forall p :: p in Next(w, e).procs ==> ProcOk(Next(w, e), p)
  {
    hide KeyOk, ValidRequest, Apply, MoveOf, Advance, KeyOf, Idempotency.Current;
    if e.Arrive? || e.Crash? {
      ProcsKept(w, Next(w, e), e.pid);
    }
  }

  lemma SameKeyOk(w: World, v: World, key: Key)
    requires KeyOk(w, key) && v.effects == w.effects && v.keys == w.keys && v.procs == w.procs
    ensures KeyOk(v, key)
  {
    hide ByKey, TraceOf, TraceOfResult, WellTraced, KeyOf;
  }

  lemma {:induction false} RunKeeps(w: World, events: seq<Event>)
    requires Inv(w)
    ensures Inv(Run(w, events))
    decreases |events|
  {
    if events != [] {
      NextKeeps(w, events[0]);
      RunKeeps(Next(w, events[0]), events[1..]);
    }
  }

  lemma BeginOk(policy: Policy)
    ensures Inv(Begin(policy))
  {
    Beginning([], Totals(0, 0, 0, 0, 0), "", 0, 0);
    forall key: Key
      ensures KeyOk(Begin(policy), key)
    {
      assert ByKey([], key) == [];
    }
  }

  // ---- Main results -----------------------------------------------------------------------------------

  /** Position of this kind of call in a checkout. */
  function Kind(e: Effect): nat {
    match e
    case Authorize(_) => 0
    case Commit(_, _) => 1
    case Capture(_, _) => 2
    case PutOrder(_, _, _) => 3
    case Enqueue(_) => 4
  }

  /**
   Checkout once. Whatever the interleaving, the answers, the failures and the crashes,
   the calls made under one idempotency key are a beginning of a single checkout:
   authorize, commit, capture, order, message, each at most once and all for one amount.
   */
  lemma CheckoutOnce(policy: Policy, events: seq<Event>, key: Key)
    ensures var trace := ByKey(Run(Begin(policy), events).effects, key);
            exists totals, reference, txn, order :: trace <= FullTrace(totals, reference, txn, order)
  {
    BeginOk(policy);
    RunKeeps(Begin(policy), events);
    assert KeyOk(Run(Begin(policy), events), key);
  }

  /** In particular at most one call of each kind is made under a key, and each only after the ones before it. */
  lemma AtMostOneOfEach(policy: Policy, events: seq<Event>, key: Key)
    ensures var trace := ByKey(Run(Begin(policy), events).effects, key);
            |trace| <= 5 && forall i :: 0 <= i < |trace| ==> Kind(trace[i]) == i
  {
    CheckoutOnce(policy, events, key);
    var trace := ByKey(Run(Begin(policy), events).effects, key);
    var totals, reference, txn, order :| trace <= FullTrace(totals, reference, txn, order);
    assert forall i :: 0 <= i < |trace| ==> trace[i] == FullTrace(totals, reference, txn, order)[i];
  }

  /**
   A recorded result says exactly what was done: nothing for a rejection, one
   authorization for a refusal, and for a completion every effect once, in order, for the
   amount the result names.
   */
  lemma ResultMatchesEffects(policy: Policy, events: seq<Event>, key: Key, r: TransactionResult)
    requires Idempotency.Current(Run(Begin(policy), events).keys, key) == Some(Idempotency.Completed(r))
    ensures ByKey(Run(Begin(policy), events).effects, key) == TraceOfResult(r)
  {
    BeginOk(policy);
    RunKeeps(Begin(policy), events);
    assert KeyOk(Run(Begin(policy), events), key);
  }

  lemma StepKeepsCompleted(w: World, e: Event)
    requires Inv(w)
    ensures CompletedKept(w, Next(w, e))
  {
    hide ByKey, TraceOf, TraceOfResult, WellTraced, PhaseOk;
    if e.Step? && e.pid in w.procs {
      var p := w.procs[e.pid];
      var key := KeyOf(p.req);
      assert KeyOk(w, key) && ProcOk(w, e.pid);
      var claimed := Idempotency.Current(w.keys, key);
      var snapshot := if p.req.cartId in w.snapshots then Some(w.snapshots[p.req.cartId]) else None;
      if Owns(p.phase) {
        assert w.keys[key].InFlight?;
      } else {
        OutsiderMoves(w.policy, p.req, p.phase, claimed, snapshot, e.answer, w.nextId);
      }
      hide Advance, ApplyReservation;
    }
  }

  /** A completed key keeps its result for ever, whatever happens next. */
  lemma {:induction false} CompletedForEver(w: World, events: seq<Event>)
    requires Inv(w)
    ensures CompletedKept(w, Run(w, events))
    decreases |events|
  {
    if events != [] {
      StepKeepsCompleted(w, events[0]);
      NextKeeps(w, events[0]);
      CompletedForEver(Next(w, events[0]), events[1..]);
    }
  }

  /** Every call that returns a result, first or repeated, returns the one recorded for its key. */
  lemma AnswersAgree(policy: Policy, events: seq<Event>, p: Pid, q: Pid)
    requires var w := Run(Begin(policy), events);
             && p in w.procs && q in w.procs && KeyOf(w.procs[p].req) == KeyOf(w.procs[q].req)
             && w.procs[p].phase.Finished? && w.procs[p].phase.outcome.Ok?
             && w.procs[q].phase.Finished? && w.procs[q].phase.outcome.Ok?
    ensures var w := Run(Begin(policy), events);
            && w.procs[p].phase.outcome == w.procs[q].phase.outcome
            && Idempotency.Current(w.keys, KeyOf(w.procs[p].req))
               == Some(Idempotency.Completed(w.procs[p].phase.outcome.value))
  {
    BeginOk(policy);
    RunKeeps(Begin(policy), events);
    var w := Run(Begin(policy), events);
    assert ProcOk(w, p) && ProcOk(w, q);
  }

  /** From the first reservation until the result is on its way. */
  predicate Paying(phase: Phase) {
    phase.Reserving? || phase.Authorizing? || phase.Committing? || phase.Capturing? || phase.Ordering?
    || phase.Receipting? || phase.Finalizing? || phase.Enqueueing? || phase.Refusing?
  }

  /**
   One amount, checked first. A call that has got as far as reserving holds a cart it
   re-priced itself: right version, right owner, allowed destination, balanced sums and a
   total equal to the payment intent; what it later records as result names that amount.
   */
  lemma PaidCartIsSettled(policy: Policy, events: seq<Event>, pid: Pid)
    requires pid in Run(Begin(policy), events).procs
    ensures var p := Run(Begin(policy), events).procs[pid];
            && (Paying(p.phase) ==> Settled(p.req, p.phase.cart))
            && (p.phase.Completing? || p.phase.Recording? ==> p.phase.result.totals.totalMinor == p.req.amountMinor)
  {
    BeginOk(policy);
    RunKeeps(Begin(policy), events);
    assert ProcOk(Run(Begin(policy), events), pid);
  }

  /** A rejected or unauthorized result leaves no commit, capture, order or message under its key. */
  lemma RefusalLeavesNothing(policy: Policy, events: seq<Event>, key: Key, r: TransactionResult)
    requires Idempotency.Current(Run(Begin(policy), events).keys, key) == Some(Idempotency.Completed(r))
    requires !r.status.Completed?
    ensures forall e :: e in ByKey(Run(Begin(policy), events).effects, key) ==>
              r.status.AuthFailed? && e == Authorize(r.totals.totalMinor)
  {
    ResultMatchesEffects(policy, events, key, r);
  }

  /** Nobody works on this key, and its claim was never completed. */
  ghost predicate Abandoned(w: World, key: Key) {
    && key in w.keys && w.keys[key].InFlight?
    && forall p :: p in w.procs && KeyOf(w.procs[p].req) == key ==> !Owns(w.procs[p].phase)
  }

  /**
   An abandoned key is never taken over: it stays in flight and no further effect ever
   happens under it.
   */
  lemma {:induction false} AbandonedStays(w: World, events: seq<Event>, key: Key)
    requires Abandoned(w, key)
    ensures Abandoned(Run(w, events), key)
    ensures ByKey(Run(w, events).effects, key) == ByKey(w.effects, key)
    decreases |events|
  {
    if events != [] {
      hide Abandoned, Next;
      AbandonedStep(w, events[0], key);
      AbandonedStays(Next(w, events[0]), events[1..], key);
    }
  }

  lemma AbandonedOwnKey(w: World, pid: Pid, ans: Answer, key: Key)
    requires Abandoned(w, key) && pid in w.procs && KeyOf(w.procs[pid].req) == key
    ensures Abandoned(Next(w, Step(pid, ans)), key)
    ensures Next(w, Step(pid, ans)).effects == w.effects
  {
    var p := w.procs[pid];
    OutsiderMoves(w.policy, p.req, p.phase, Idempotency.Current(w.keys, key),
                  if p.req.cartId in w.snapshots then Some(w.snapshots[p.req.cartId]) else None, ans, w.nextId);
    hide Advance, ApplyReservation, KeyOf;
  }

  lemma AbandonedOtherKey(w: World, pid: Pid, ans: Answer, key: Key)
    requires Abandoned(w, key) && pid in w.procs && KeyOf(w.procs[pid].req) != key
    ensures Abandoned(Next(w, Step(pid, ans)), key)
    ensures ByKey(Next(w, Step(pid, ans)).effects, key) == ByKey(w.effects, key)
  {
    hide Advance, ApplyReservation;
    var m := MoveOf(w, pid, ans);
    if m.effect.Some? {
      ByKeyAppend(w.effects, KeyOf(w.procs[pid].req), m.effect.value, key);
      assert ByKey(w.effects, key) + [] == ByKey(w.effects, key);
    }
    hide ByKey, KeyOf, MoveOf;
  }

  lemma AbandonedStep(w: World, e: Event, key: Key)
    requires Abandoned(w, key)
    ensures Abandoned(Next(w, e), key)
    ensures ByKey(Next(w, e).effects, key) == ByKey(w.effects, key)
  {
    hide ByKey, Apply, ValidRequest;
    if e.Step? && e.pid in w.procs {
      hide Abandoned;
      if KeyOf(w.procs[e.pid].req) == key {
        AbandonedOwnKey(w, e.pid, e.answer, key);
      } else {
        AbandonedOtherKey(w, e.pid, e.answer, key);
      }
    }
  }
}
