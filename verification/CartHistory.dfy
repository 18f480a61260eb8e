/**
 Whole histories of a cart: commands, and the checkouts that re-price and store it in
 between.
 */
module CartHistory {
  import opened Wrappers
  import opened CartModel
  import opened CartEngine
  import opened CartInvariants
  import SM = StateMachines
  import Checkout
  import CheckoutSafety
  import CartOutcomes

  /** One thing that happens to the carts: a command, or the settle step of a checkout. */
  datatype Step =
    | Command(cmd: CartEngine.Command, cartId: Option<CartId>, answers: Answers)
    | Settle(req: Checkout.Request, answer: Checkout.Answer)

  /** What settling a cart for checkout leaves in the stores: at most its re-priced snapshot. */
  function Settled(st: Store, req: Checkout.Request, ans: Checkout.Answer): Store {
    if req.cartId !in st.snapshots then st
    else
      var c := st.snapshots[req.cartId];
      if c.tenantId.Some? && c.tenantId.value != req.tenantId then st
      else if c.version != req.cartVersion || ans.store.FailedBefore? then st
      else
        match Checkout.RepriceForCheckout(c, ans)
        case Err(_) => st
        case Ok(repriced) =>
          match ans.geo
          case Err(_) => st
          case Ok(allowed) => PutSnapshot(st, repriced.(geoOk := allowed))
  }

  lemma LoadStep(w: Checkout.World, pid: Checkout.Pid, ans: Checkout.Answer)
    requires pid in w.procs && w.procs[pid].phase.Loading?
    ensures var v, req := Checkout.Next(w, Checkout.Step(pid, ans)), w.procs[pid].req;
            && v.snapshots == w.snapshots && pid in v.procs && v.procs[pid].req == req
            && if req.cartId in w.snapshots && (w.snapshots[req.cartId].tenantId.None? || w.snapshots[req.cartId].tenantId.value == req.tenantId)
                  && w.snapshots[req.cartId].version == req.cartVersion
               then v.procs[pid].phase == Checkout.Settling(w.snapshots[req.cartId])
               else v.procs[pid].phase.Releasing?
  {
  }

  lemma RepriceStep(w: Checkout.World, pid: Checkout.Pid, ans: Checkout.Answer)
    requires pid in w.procs && w.procs[pid].phase.Settling?
    ensures var v, repriced := Checkout.Next(w, Checkout.Step(pid, ans)), Checkout.RepriceForCheckout(w.procs[pid].phase.cart, ans);
            && v.snapshots == w.snapshots && pid in v.procs
            && if repriced.Ok? && ans.geo.Ok? then v.procs[pid].phase == Checkout.Saving(repriced.value.(geoOk := ans.geo.value))
               else v.procs[pid].phase.Releasing?
  {
    hide Checkout.RepriceForCheckout;
  }

  lemma SaveStep(w: Checkout.World, pid: Checkout.Pid, ans: Checkout.Answer)
    requires pid in w.procs && w.procs[pid].phase.Saving?
    ensures var v, c := Checkout.Next(w, Checkout.Step(pid, ans)), w.procs[pid].phase.cart;
            v.snapshots == if ans.store.FailedBefore? then w.snapshots else w.snapshots[c.cartId := c]
  {
  }

  lemma RestStep(w: Checkout.World, pid: Checkout.Pid, ans: Checkout.Answer)
    requires pid in w.procs && (w.procs[pid].phase.Releasing? || w.procs[pid].phase.Finished?)
    ensures var v := Checkout.Next(w, Checkout.Step(pid, ans));
            v.snapshots == w.snapshots && pid in v.procs && v.procs[pid].phase.Finished?
  {
  }

  /** The checkout machine agrees: loading, re-pricing and saving change the snapshots in exactly this way. */
  lemma SettledIsMachine(w: Checkout.World, pid: Checkout.Pid, st: Store, ans: Checkout.Answer)
    requires pid in w.procs && w.procs[pid].phase.Loading? && st.snapshots == w.snapshots
    ensures Checkout.Run(w, [Checkout.Step(pid, ans), Checkout.Step(pid, ans), Checkout.Step(pid, ans)]).snapshots
         == Settled(st, w.procs[pid].req, ans).snapshots
  {
    hide Checkout.RepriceForCheckout, Checkout.Next;
    var e := Checkout.Step(pid, ans);
    var w1 := Checkout.Next(w, e);
    var w2 := Checkout.Next(w1, e);
    var w3 := Checkout.Next(w2, e);
    assert Checkout.Run(w, [e, e, e]) == w3 by {
      assert [e, e, e][1..] == [e, e] && [e, e][1..] == [e] && [e][1..] == [];
      assert Checkout.Run(w2, [e]) == w3;
      assert Checkout.Run(w1, [e, e]) == w3;
    }
    LoadStep(w, pid, ans);
    if w1.procs[pid].phase.Settling? {
      RepriceStep(w1, pid, ans);
      if w2.procs[pid].phase.Saving? {
        SaveStep(w2, pid, ans);
      } else {
        RestStep(w2, pid, ans);
      }
    } else {
      RestStep(w1, pid, ans);
      RestStep(w2, pid, ans);
    }
  }

  function After(st: Store, step: Step): Store {
    match step
    case Command(cmd, cartId, answers) => Dispatch(st, cmd, cartId, answers).0
    case Settle(req, answer) => Settled(st, req, answer)
  }

  function RunAll(st: Store, steps: seq<Step>): Store
    decreases |steps|
  {
    if steps == [] then st else RunAll(After(st, steps[0]), steps[1..])
  }

  lemma SettleKeeps(st: Store, req: Checkout.Request, ans: Checkout.Answer)
    requires Inv(st)
    ensures Inv(Settled(st, req, ans))
    ensures Settled(st, req, ans).events == st.events
  {
    if Settled(st, req, ans) != st {
      var c := st.snapshots[req.cartId];
      assert CartOk(st, req.cartId);
      CheckoutSafety.RepricingBalances(c, ans);
      var repriced := Checkout.RepriceForCheckout(c, ans).value;
      CheckoutSafety.GeoBalanced(repriced, ans.geo.value);
      var stored := repriced.(geoOk := ans.geo.value);
      assert SameContents(c, stored);
      hide Checkout.RepriceForCheckout, Inv, Balanced, SameContents;
      CheckoutRepricingKeeps(st, stored);
    }
  }

  lemma {:induction false} RunKeeps(st: Store, steps: seq<Step>)
    requires Inv(st)
    ensures Inv(RunAll(st, steps))
    decreases |steps|
  {
    if steps != [] {
      hide Inv;
      match steps[0] {
        case Command(cmd, cartId, answers) => DispatchKeeps(st, cmd, cartId, answers);
        case Settle(req, answer) => SettleKeeps(st, req, answer);
      }
      RunKeeps(After(st, steps[0]), steps[1..]);
    }
  }

  /**
   Money: after any commands and checkouts with any provider answers and failures, every
   stored cart's subtotal is the sum of its lines, its total is subtotal plus tax plus
   fulfillment minus discount, the discount lies between zero and what is owed, line
   identifiers and method types are distinct, and the fulfillment amount is the selected
   option's.
   */
  lemma EveryStoredCartBalances(steps: seq<Step>, id: CartId)
    requires id in RunAll(EMPTY, steps).snapshots
    ensures WellFormed(RunAll(EMPTY, steps).snapshots[id])
  {
    EmptyIsOk();
    RunKeeps(EMPTY, steps);
    assert CartOk(RunAll(EMPTY, steps), id);
  }

  // ---- Log and snapshot ---------------------------------------------------------------------------

  /** How often a change to this cart got past its checks and was then stopped by a failing provider. */
  function StallCount(st: Store, steps: seq<Step>, id: CartId): nat
    decreases |steps|
  {
    if steps == [] then 0
    else (if steps[0].Command? && Stalls(st, steps[0].cmd, steps[0].cartId, steps[0].answers, id) then 1 else 0)
         + StallCount(After(st, steps[0]), steps[1..], id)
  }

  lemma {:induction false} StallsCounted(st: Store, steps: seq<Step>, id: CartId)
    requires Inv(st)
    ensures Unfinished(Log(RunAll(st, steps), id)) == Unfinished(Log(st, id)) + StallCount(st, steps, id)
    decreases |steps|
  {
    if steps != [] {
      hide Inv, Unfinished, Stalls;
      match steps[0] {
        case Command(cmd, cartId, answers) =>
          DispatchKeeps(st, cmd, cartId, answers);
          DispatchUnfinished(st, cmd, cartId, answers, id);
        case Settle(req, answer) => SettleKeeps(st, req, answer);
      }
      StallsCounted(After(st, steps[0]), steps[1..], id);
    }
  }

  /**
   Log and snapshot: in every history, folding a cart's events rebuilds its ordered lines
   and quantities, codes, fulfillment amount, status and version exactly when no change to
   it was stopped part-way by a failing provider; otherwise the log is ahead by one
   version for each that was.
   */
  lemma LogRebuildsSnapshot(steps: seq<Step>, id: CartId)
    requires id in RunAll(EMPTY, steps).snapshots
    ensures var st := RunAll(EMPTY, steps);
            && (Fold(Log(st, id)) == ViewOf(st.snapshots[id]) <==> StallCount(EMPTY, steps, id) == 0)
            && Fold(Log(st, id)).version == st.snapshots[id].version + StallCount(EMPTY, steps, id)
  {
    EmptyIsOk();
    RunKeeps(EMPTY, steps);
    assert CartOk(RunAll(EMPTY, steps), id);
    StallsCounted(EMPTY, steps, id);
  }

  /** No pricing, tax, discount or geo provider fails during a command. */
  predicate ProvidersAnswer(steps: seq<Step>) {
    forall i :: 0 <= i < |steps| && steps[i].Command? ==>
      steps[i].answers.prices.Ok? && steps[i].answers.tax.Ok? && steps[i].answers.discounts.Ok? && steps[i].answers.geo.Ok?
  }

  lemma {:induction false} NoStalls(st: Store, steps: seq<Step>, id: CartId)
    requires ProvidersAnswer(steps)
    ensures StallCount(st, steps, id) == 0
    decreases |steps|
  {
    if steps != [] {
      assert forall i :: 0 <= i < |steps| - 1 ==> steps[1..][i] == steps[i + 1];
      NoStalls(After(st, steps[0]), steps[1..], id);
    }
  }

  /** So while providers answer, the log always rebuilds the snapshot, checkouts included. */
  lemma AnsweredHistoryAgrees(steps: seq<Step>, id: CartId)
    requires ProvidersAnswer(steps) && id in RunAll(EMPTY, steps).snapshots
    ensures var st := RunAll(EMPTY, steps); Fold(Log(st, id)) == ViewOf(st.snapshots[id])
  {
    NoStalls(EMPTY, steps, id);
    LogRebuildsSnapshot(steps, id);
  }

  // ---- Tax ------------------------------------------------------------------------------------------

  /** Settling gets as far as storing the cart. */
  predicate Stores(st: Store, req: Checkout.Request, ans: Checkout.Answer) {
    && req.cartId in st.snapshots
    && (var c := st.snapshots[req.cartId];
        && (c.tenantId == None || c.tenantId == Some(req.tenantId)) && c.version == req.cartVersion
        && CheckoutSafety.Answered(c, ans) && ans.geo.Ok? && !ans.store.FailedBefore?)
  }

  /** What settling stores is the cart recomputed from the answers; otherwise nothing changes. */
  lemma SettleOutcome(st: Store, req: Checkout.Request, ans: Checkout.Answer)
    requires Inv(st)
    ensures var out := Settled(st, req, ans);
            if Stores(st, req, ans)
            then && req.cartId in out.snapshots && out == st.(snapshots := st.snapshots[req.cartId := out.snapshots[req.cartId]])
                 && CartOutcomes.Recomputed(st.snapshots[req.cartId], out.snapshots[req.cartId], ans.prices.value, ans.tax.value,
                                            ans.discounts, ans.geo.value)
            else out == st
  {
    if req.cartId in st.snapshots {
      assert CartOk(st, req.cartId);
      CheckoutSafety.RepricingRecomputes(st.snapshots[req.cartId], ans, if ans.geo.Ok? then ans.geo.value else false);
      hide Checkout.RepriceForCheckout, Inv, CartOk, CartOutcomes.AtLastPrices, CartOutcomes.Discounted, CheckoutSafety.Answered;
    }
  }

  /** The command re-prices this cart and succeeds. */
  predicate RepricesWell(st: Store, cmd: CartEngine.Command, cartId: Option<CartId>, ans: Answers, id: CartId) {
    IsChange(cmd) && !cmd.SetFulfillment? && cartId == Some(id) && Dispatch(st, cmd, cartId, ans).1.Ok?
  }

  /** The tax that was answered to the last re-pricing of this cart that was stored, by a command or a checkout. */
  function TaxAnswered(st: Store, steps: seq<Step>, id: CartId, had: int): int
    decreases |steps|
  {
    if steps == [] then had
    else
      var tax := match steps[0]
                 case Command(cmd, cartId, ans) =>
                   if RepricesWell(st, cmd, cartId, ans, id) && ans.tax.Ok? then ans.tax.value else had
                 case Settle(req, ans) => if req.cartId == id && Stores(st, req, ans) then ans.tax.value else had;
      TaxAnswered(After(st, steps[0]), steps[1..], id, tax)
  }

  function StoredTax(st: Store, id: CartId): int {
    if id in st.snapshots then st.snapshots[id].taxMinor else 0
  }

  lemma CommandTax(st: Store, cmd: CartEngine.Command, cartId: Option<CartId>, ans: Answers, id: CartId)
    requires Inv(st)
    ensures RepricesWell(st, cmd, cartId, ans, id) ==> ans.tax.Ok?
    ensures StoredTax(Dispatch(st, cmd, cartId, ans).0, id)
         == if RepricesWell(st, cmd, cartId, ans, id) then ans.tax.value else StoredTax(st, id)
  {
    var (out, r) := Dispatch(st, cmd, cartId, ans);
    if r.Err? {
      FailureAndSnapshots(st, cmd, cartId, ans);
      if RefusedStatusChange(st, cmd) {
        RefusedTax(st, cmd, cartId, ans, id);
      }
      hide Dispatch, Inv, RefusedStatusChange;
    } else if IsChange(cmd) {
      if cmd.SetFulfillment? {
        CartOutcomes.SelectionOutcome(st, cmd, cartId.value, ans);
      } else {
        var edited, e := CartOutcomes.ChangeOutcome(st, cmd, cartId.value, ans);
      }
      hide Inv, Change, CartOutcomes.AtLastPrices, CartOutcomes.Discounted, CartOutcomes.Edit, CartOutcomes.Fulfilled;
    } else {
      CartOutcomes.StatusOutcome(st, cmd, cartId, ans);
      hide Inv, Dispatch;
    }
  }

  lemma RefusedTax(st: Store, cmd: CartEngine.Command, cartId: Option<CartId>, ans: Answers, id: CartId)
    requires Inv(st) && RefusedStatusChange(st, cmd)
    ensures StoredTax(Dispatch(st, cmd, cartId, ans).0, id) == StoredTax(st, id)
  {
    match cmd
    case StartCheckout(target, _) => assert CartOk(st, target);
    case CancelCart(target) => assert CartOk(st, target);
  }

  lemma {:induction false} TaxFollowsAnswers(st: Store, steps: seq<Step>, id: CartId)
    requires Inv(st)
    ensures StoredTax(RunAll(st, steps), id) == TaxAnswered(st, steps, id, StoredTax(st, id))
    decreases |steps|
  {
    if steps != [] {
      hide Inv, StoredTax, Stores, RepricesWell, Dispatch, Settled;
      match steps[0] {
        case Command(cmd, cartId, answers) =>
          DispatchKeeps(st, cmd, cartId, answers);
          CommandTax(st, cmd, cartId, answers, id);
        case Settle(req, answer) =>
          SettleKeeps(st, req, answer);
          SettleTax(st, req, answer, id);
      }
      TaxFollowsAnswers(After(st, steps[0]), steps[1..], id);
    }
  }

  lemma SettleTax(st: Store, req: Checkout.Request, ans: Checkout.Answer, id: CartId)
    requires Inv(st)
    ensures Stores(st, req, ans) ==> ans.tax.Ok?
    ensures StoredTax(Settled(st, req, ans), id)
         == if req.cartId == id && Stores(st, req, ans) then ans.tax.value else StoredTax(st, id)
  {
    SettleOutcome(st, req, ans);
    hide Settled, Inv, CartOutcomes.AtLastPrices, CartOutcomes.Discounted;
  }

  /**
   Tax: in every history the stored tax of a cart is the one the tax provider answered to
   the last re-pricing of it that was stored, whether a command's or a checkout's.
   */
  lemma StoredTaxIsLastAnswer(steps: seq<Step>, id: CartId)
    requires id in RunAll(EMPTY, steps).snapshots
    ensures RunAll(EMPTY, steps).snapshots[id].taxMinor == TaxAnswered(EMPTY, steps, id, 0)
  {
    EmptyIsOk();
    TaxFollowsAnswers(EMPTY, steps, id);
  }

  lemma {:induction false} StaysTidy(st: Store, steps: seq<Step>, id: CartId)
    requires Inv(st) && CartOutcomes.Untangled(st, id) && StallCount(st, steps, id) == 0
    ensures Inv(RunAll(st, steps)) && CartOutcomes.Untangled(RunAll(st, steps), id)
    decreases |steps|
  {
    if steps != [] {
      hide Inv, Stalls, CartOutcomes.Untangled;
      match steps[0] {
        case Command(cmd, cartId, answers) =>
          DispatchKeeps(st, cmd, cartId, answers);
          CartOutcomes.DispatchTax(st, cmd, cartId, answers, id);
        case Settle(req, answer) =>
          SettleKeeps(st, req, answer);
          SettleTidy(st, req, answer, id);
      }
      StaysTidy(After(st, steps[0]), steps[1..], id);
    }
  }

  lemma SettleTidy(st: Store, req: Checkout.Request, ans: Checkout.Answer, id: CartId)
    requires Inv(st) && CartOutcomes.Untangled(st, id)
    ensures CartOutcomes.Untangled(Settled(st, req, ans), id)
  {
    SettleOutcome(st, req, ans);
    hide Unfinished, Settled, Inv, CartOutcomes.Recomputed, Stores;
  }

  /**
   Lifecycle: in every history in which no change to a cart was stopped part-way by a
   failing provider, the only state in which the cart refuses further changes is the
   cancelled one.
   */
  lemma OnlyCancelledIsBlocked(steps: seq<Step>, id: CartId)
    requires id in RunAll(EMPTY, steps).snapshots && StallCount(EMPTY, steps, id) == 0
    ensures var st := RunAll(EMPTY, steps);
            id in st.states && (Blocked(st.states[id]) <==> st.states[id] == SM.Cancelled)
  {
    EmptyIsOk();
    StaysTidy(EMPTY, steps, id);
    StallsCounted(EMPTY, steps, id);
    assert CartOk(RunAll(EMPTY, steps), id);
  }

  // ---- Concrete histories ---------------------------------------------------------------------------

  const ITEM := CatalogItem("i", "Item", 5)
  const NO_TAX := Answers(Ok(ITEM), Ok([]), Err(ProviderError("down")), Ok([]), Ok(true), Ok(()), Ok([]))
  const NEW_CART := Command(CreateCart("m", "EUR", None), None, NO_TAX)
  const STALLED_ADD := Command(AddItem("i", 1), Some(0), NO_TAX)

  lemma RunTwo(a: Step, b: Step)
    ensures RunAll(EMPTY, [a, b]) == After(After(EMPTY, a), b)
  {
    hide After;
    assert [a, b][1..] == [b] && [b][1..] == [];
    assert RunAll(After(EMPTY, a), [b]) == After(After(EMPTY, a), b);
  }

  lemma NewCartStored()
    ensures var st := After(EMPTY, NEW_CART);
            && st.snapshots.Keys == {0} && st.snapshots[0] == NewCart(0, "m", "EUR", None)
            && 0 in st.states && st.states[0] == SM.CartCreated && Log(st, 0) == [Created("m", "EUR")] && st.nextLine == 0
  {
  }

  lemma AddStalls(st: Store)
    requires 0 in st.snapshots && 0 in st.states && st.states[0] == SM.CartCreated && st.nextLine == 0
    ensures var end := After(st, STALLED_ADD);
            end.snapshots == st.snapshots && Log(end, 0) == Log(st, 0) + [ItemAdded(LineId(0), "i", 1)] + [Repriced]
  {
    hide LineId, ApplyPrices, Subtotal;
  }

  /** A tax provider that is down while an item is added leaves the log one version ahead. */
  lemma StalledAddDisagrees()
    ensures var st := RunAll(EMPTY, [NEW_CART, STALLED_ADD]);
            && 0 in st.snapshots && st.snapshots[0].version == 1
            && Fold(Log(st, 0)).version == 2 && Fold(Log(st, 0)) != ViewOf(st.snapshots[0])
  {
    RunTwo(NEW_CART, STALLED_ADD);
    NewCartStored();
    AddStalls(After(EMPTY, NEW_CART));
    hide After, RunAll, LineId;
    var created, added := Created("m", "EUR"), ItemAdded(LineId(0), "i", 1);
    assert [] + [created] == [created];
    FoldAppend([], created);
    FoldAppend([created], added);
    FoldAppend([created] + [added], Repriced);
  }

  const START := Command(CartEngine.StartCheckout(0, 1), None, NO_TAX)

  /** Starting checkout twice: the second is refused, and yet the stored cart has a new version. */
  lemma SecondStartChangesSnapshot()
    ensures var st := RunAll(EMPTY, [NEW_CART, START]);
            var (out, r) := Dispatch(st, CartEngine.StartCheckout(0, 2), None, NO_TAX);
            && r == Err(InvalidStateTransition)
            && st.snapshots[0].version == 2 && out.snapshots[0].version == 3
  {
    RunTwo(NEW_CART, START);
    var one := After(EMPTY, NEW_CART);
    assert 0 in one.snapshots && one.snapshots[0].version == 1 && one.states[0] == SM.CartCreated;
    var two := After(one, START);
    assert 0 in two.snapshots && two.snapshots[0].version == 2 && two.states[0] == SM.CheckoutReady;
    assert RunAll(EMPTY, [NEW_CART, START]) == two;
    hide After, RunAll;
  }
}
