/**
 Cart commands and checkouts side by side: commands may run between any two steps of any
 checkout, so also between its load of a cart and its save.
 */
module CartInterleavings {
  import opened Wrappers
  import opened CartModel
  import opened CartEngine
  import opened CartInvariants
  import CartOutcomes
  import Checkout
  import CheckoutSafety
  import Idempotency
  import CartHistory
  import SM = StateMachines

  /** The stores of the cart engine and the checkout machine, which share the snapshots. */
  datatype Shop = Shop(stores: Store, world: Checkout.World)

  datatype Happening =
    | Command(cmd: CartEngine.Command, cartId: Option<CartId>, answers: Answers)
    | Checkout(event: Checkout.Event)

  function Open(policy: Checkout.Policy): Shop {
    Shop(EMPTY, Checkout.Begin(policy))
  }

  /** Carts are changed by commands and by checkouts, and by nobody else. */
  function Next(x: Shop, h: Happening): Shop {
    match h
    case Command(cmd, cartId, answers) =>
      var out := Dispatch(x.stores, cmd, cartId, answers).0;
      Shop(out, x.world.(snapshots := out.snapshots))
    case Checkout(e) =>
      if e.EditCart? then x
      else
        var v := Checkout.Next(x.world, e);
        Shop(x.stores.(snapshots := v.snapshots), v)
  }

  function Run(x: Shop, hs: seq<Happening>): Shop
    decreases |hs|
  {
    if hs == [] then x else Run(Next(x, hs[0]), hs[1..])
  }

  // ---- Commands do not read the logs ----------------------------------------------------------

  /** The same stores up to their logs. */
  predicate SameButLogs(a: Store, b: Store) {
    b == a.(events := b.events)
  }

  predicate SameOutcome(a: Outcome, b: Outcome) {
    SameButLogs(a.0, b.0) && a.1 == b.1
  }

  lemma GeoCheckBlind(a: Store, b: Store, id: CartId, c: Cart, ans: Answers)
    requires SameButLogs(a, b)
    ensures SameOutcome(GeoCheck(a, id, c, ans), GeoCheck(b, id, c, ans))
  {
  }

  lemma RetaxBlind(a: Store, b: Store, id: CartId, c: Cart, ans: Answers)
    requires SameButLogs(a, b)
    ensures SameOutcome(Retax(a, id, c, ans), Retax(b, id, c, ans))
  {
    hide GeoCheck, ApplyDiscounts;
    if ans.tax.Ok? && ApplyDiscounts(c.(taxMinor := ans.tax.value), ans.discounts).Ok? && Transition(a, id, SM.TaxResolved).Ok? {
      var discounted := ApplyDiscounts(c.(taxMinor := ans.tax.value), ans.discounts).value;
      GeoCheckBlind(Append(Transition(a, id, SM.TaxResolved).value, id, Retaxed(ans.tax.value)),
                    Append(Transition(b, id, SM.TaxResolved).value, id, Retaxed(ans.tax.value)), id, discounted, ans);
    }
  }

  /** A change that gets no further than its own event. */
  lemma MutateLogged(st: Store, id: CartId, c: Cart, primary: Event, ans: Answers)
    requires id in st.states && !Blocked(st.states[id]) && ans.prices.Err?
    ensures Mutate(st, id, c, primary, ans)
         == (Append(st.(states := st.states[id := SM.ItemsMutated]), id, primary), Err(Provider(ans.prices.error)))
  {
    hide Retax, WithPrices, Append;
  }

  lemma MutateUnknown(st: Store, id: CartId, c: Cart, primary: Event, ans: Answers)
    requires id !in st.states
    ensures Mutate(st, id, c, primary, ans) == (st, Err(CartNotFound))
  {
    hide Retax, WithPrices, Append;
  }

  lemma MutateBlind(a: Store, b: Store, id: CartId, c: Cart, primary: Event, ans: Answers)
    requires SameButLogs(a, b)
    ensures SameOutcome(Mutate(a, id, c, primary, ans), Mutate(b, id, c, primary, ans))
  {
    hide Mutate, Retax, WithPrices, Touches, PartialStages;
    if id !in a.states {
      MutateUnknown(a, id, c, primary, ans);
      MutateUnknown(b, id, c, primary, ans);
    } else if Blocked(a.states[id]) {
      MutateStops(a, id, c, primary, ans);
      MutateStops(b, id, c, primary, ans);
    } else if ans.prices.Err? {
      MutateLogged(a, id, c, primary, ans);
      MutateLogged(b, id, c, primary, ans);
    } else {
      MutateIsRetax(a, id, c, primary, ans);
      MutateIsRetax(b, id, c, primary, ans);
      var s, t := Staged(a, id, primary), Staged(b, id, primary);
      hide Staged;
      RetaxBlind(s, t, id, WithPrices(c, ans.prices.value), ans);
    }
  }

  lemma SelectBlind(a: Store, b: Store, id: CartId, c: Cart, cmd: CartEngine.Command, ans: Answers)
    requires SameButLogs(a, b) && cmd.SetFulfillment?
    ensures SameOutcome(SelectFulfillment(a, id, c, cmd, ans), SelectFulfillment(b, id, c, cmd, ans))
  {
    hide ApplyDiscounts, Selected, Offers, LineIds;
  }

  lemma ChangeBlind(a: Store, b: Store, id: CartId, cmd: CartEngine.Command, ans: Answers)
    requires SameButLogs(a, b) && IsChange(cmd)
    ensures SameOutcome(Change(a, cmd, id, ans), Change(b, cmd, id, ans))
  {
    if cmd.SetFulfillment? {
      hide SelectFulfillment;
      if id in a.snapshots {
        SelectBlind(a, b, id, a.snapshots[id], cmd, ans);
      }
    } else if PassesChecks(a, cmd, id, ans) {
      hide Mutate, LineId, FindLine, WithoutLine;
      ChangeIsMutate(a, cmd, id, ans);
      ChangeIsMutate(b, cmd, id, ans);
      var (s, c, e) := Changed(a, cmd, id, ans);
      var (t, d, f) := Changed(b, cmd, id, ans);
      assert SameButLogs(s, t) && c == d && e == f;
      hide Change, Changed;
      MutateBlind(s, t, id, c, e, ans);
    } else {
      hide Mutate, LineId, FindLine, WithoutLine;
    }
  }

  lemma StatusBlind(a: Store, b: Store, id: CartId, c: Cart, status: CartStatus, e: Event, t: SM.CartEvent)
    requires SameButLogs(a, b)
    ensures SameOutcome(ChangeStatus(a, id, c, status, e, t), ChangeStatus(b, id, c, status, e, t))
  {
  }

  /** What a command answers, and what it does to snapshots, states and identifiers, depends on no log. */
  lemma DispatchBlind(a: Store, b: Store, cmd: CartEngine.Command, cartId: Option<CartId>, ans: Answers)
    requires SameButLogs(a, b)
    ensures SameOutcome(Dispatch(a, cmd, cartId, ans), Dispatch(b, cmd, cartId, ans))
  {
    hide Change, ChangeStatus;
    if ValidCommand(cmd) {
      match cmd
      case CreateCart(_, _, _) =>
      case GetCart(_) =>
      case StartCheckout(id, _) =>
        if id in a.snapshots {
          StatusBlind(a, b, id, a.snapshots[id], CheckoutReady, MarkedReady, SM.MarkCheckoutReady);
        }
      case CancelCart(id) =>
        if id in a.snapshots {
          StatusBlind(a, b, id, a.snapshots[id], Cancelled, MarkedCancelled, SM.Cancel);
        }
      case _ =>
        if cartId.Some? {
          ChangeBlind(a, b, cartId.value, cmd, ans);
        }
    }
  }

  // ---- One command edits one cart ---------------------------------------------------------------

  /** At most one snapshot differs, and no identifier is ever handed back. */
  ghost predicate Edited(st: Store, out: Store) {
    && st.nextLine <= out.nextLine && st.snapshots.Keys <= out.snapshots.Keys
    && (out.snapshots == st.snapshots || exists c: Cart :: out.snapshots == st.snapshots[c.cartId := c])
  }

  lemma ChangeEdits(st: Store, cmd: CartEngine.Command, id: CartId, ans: Answers)
    requires Inv(st) && IsChange(cmd)
    ensures Edited(st, Change(st, cmd, id, ans).0)
  {
    assert CartOk(st, id);
    var (out, r) := Change(st, cmd, id, ans);
    if cmd.SetFulfillment? {
      hide ApplyDiscounts, Selected, Offers, LineIds, Inv;
      if id in st.snapshots && out != st {
        assert out.snapshots == st.snapshots[r.value.cartId := r.value];
      }
    } else if PassesChecks(st, cmd, id, ans) {
      hide Inv, CartOk, Mutate, LineId, FindLine, WithoutLine;
      ChangeIsMutate(st, cmd, id, ans);
      var (s, c, e) := Changed(st, cmd, id, ans);
      assert s.nextLine >= st.nextLine;
      hide Change, Changed, PassesChecks, Balanced, SameElsewhere;
      MutateEffect(s, id, c, e, ans);
      if r.Ok? {
        assert out.snapshots == st.snapshots[r.value.cartId := r.value];
      }
    } else {
      ChangeRefused(st, cmd, id, ans);
    }
  }

  lemma DispatchEdits(st: Store, cmd: CartEngine.Command, cartId: Option<CartId>, ans: Answers)
    requires Inv(st)
    ensures Edited(st, Dispatch(st, cmd, cartId, ans).0)
  {
    hide Change;
    var (out, r) := Dispatch(st, cmd, cartId, ans);
    if ValidCommand(cmd) {
      match cmd
      case CreateCart(merchant, currency, tenant) =>
        hide Inv;
        var c := NewCart(st.nextCart, merchant, currency, tenant);
        assert out.snapshots == st.snapshots[c.cartId := c];
      case GetCart(_) =>
      case StartCheckout(id, _) =>
        assert CartOk(st, id);
        hide Inv;
        if id in st.snapshots && out != st {
          var c := st.snapshots[id].(status := CheckoutReady, version := st.snapshots[id].version + 1);
          assert out.snapshots == st.snapshots[c.cartId := c];
        }
      case CancelCart(id) =>
        assert CartOk(st, id);
        hide Inv;
        if id in st.snapshots {
          var c := st.snapshots[id].(status := Cancelled, version := st.snapshots[id].version + 1);
          assert out.snapshots == st.snapshots[c.cartId := c];
        }
      case _ =>
        if cartId.Some? {
          ChangeEdits(st, cmd, cartId.value, ans);
        }
    }
  }

  // ---- The invariant --------------------------------------------------------------------------------

  ghost predicate InvWith(st: Store, logs: map<CartId, seq<Event>>) {
    Inv(st.(events := logs))
  }

  /** Each snapshot is what some log of commands says, if not always the cart's own: a save may have overtaken it. */
  ghost predicate Sound(st: Store) {
    exists logs :: InvWith(st, logs)
  }

  /** A cart that a checkout has in hand and is going to store. */
  ghost predicate Held(st: Store, c: Cart) {
    && c.cartId in st.snapshots && WellFormed(c) && Minted(c.lines, st.nextLine)
    && exists log :: LogTracks(log, c)
  }

  ghost predicate PhaseSafe(st: Store, phase: Checkout.Phase) {
    phase.Settling? || phase.Saving? ==> Held(st, phase.cart)
  }

  ghost predicate Safe(x: Shop) {
    && x.stores.snapshots == x.world.snapshots && Sound(x.stores)
    && forall p :: p in x.world.procs ==> PhaseSafe(x.stores, x.world.procs[p].phase)
  }

  lemma HeldStays(st: Store, out: Store, c: Cart)
    requires Held(st, c) && st.nextLine <= out.nextLine && st.snapshots.Keys <= out.snapshots.Keys
    ensures Held(out, c)
  {
    hide LogTracks, WellFormed;
    MintedGrows(c.lines, st.nextLine, out.nextLine);
  }

  lemma StoredIsHeld(st: Store, id: CartId)
    requires Sound(st) && id in st.snapshots
    ensures Held(st, st.snapshots[id]) && st.snapshots[id].cartId == id && WellFormed(st.snapshots[id])
  {
    var logs :| InvWith(st, logs);
    assert CartOk(st.(events := logs), id);
    hide Inv, LogTracks, WellFormed, Minted;
    assert LogTracks(Log(st.(events := logs), id), st.snapshots[id]);
  }

  /** Re-pricing a cart in hand gives another one, and so does the geo verdict. */
  lemma RepricedIsHeld(st: Store, c: Cart, d: Cart)
    requires Held(st, c) && SameContents(c, d) && Balanced(d)
    ensures Held(st, d)
  {
    var log :| LogTracks(log, c);
    MintedByIds(c.lines, d.lines, st.nextLine);
    hide Balanced, Fold, Unfinished, SelectedAmount, Minted;
    assert LogTracks(log, d);
  }

  lemma SaveSound(st: Store, c: Cart)
    requires Sound(st) && Held(st, c)
    ensures Sound(PutSnapshot(st, c))
  {
    var logs :| InvWith(st, logs);
    var log :| LogTracks(log, c);
    var before := st.(events := logs);
    var out := PutSnapshot(before, c).(events := logs[c.cartId := log]);
    assert CartOk(before, c.cartId);
    hide LogTracks, WellFormed, Minted;
    assert Log(out, c.cartId) == log;
    assert CartOk(out, c.cartId);
    forall other: CartId | other != c.cartId
      ensures SameElsewhere(before, out, other)
    {
    }
    assert forall id: CartId :: id in before.snapshots ==> id < before.nextCart;
    OthersKept(before, out, c.cartId);
    assert InvWith(PutSnapshot(st, c), logs[c.cartId := log]);
  }

  lemma CommandSound(st: Store, cmd: CartEngine.Command, cartId: Option<CartId>, ans: Answers)
    requires Sound(st)
    ensures Sound(Dispatch(st, cmd, cartId, ans).0) && Edited(st, Dispatch(st, cmd, cartId, ans).0)
  {
    var logs :| InvWith(st, logs);
    var shadow := st.(events := logs);
    assert Inv(shadow);
    hide Dispatch, Inv;
    DispatchKeeps(shadow, cmd, cartId, ans);
    DispatchEdits(shadow, cmd, cartId, ans);
    DispatchBlind(st, shadow, cmd, cartId, ans);
    var out, end := Dispatch(st, cmd, cartId, ans).0, Dispatch(shadow, cmd, cartId, ans).0;
    assert end == out.(events := end.events);
    assert InvWith(out, end.events);
  }

  lemma CommandSafe(x: Shop, cmd: CartEngine.Command, cartId: Option<CartId>, ans: Answers)
    requires Safe(x)
    ensures Safe(Next(x, Command(cmd, cartId, ans)))
  {
    hide Dispatch, Sound, Held;
    CommandSound(x.stores, cmd, cartId, ans);
    var out := Dispatch(x.stores, cmd, cartId, ans).0;
    var y := Next(x, Command(cmd, cartId, ans));
    forall p | p in y.world.procs
      ensures PhaseSafe(out, y.world.procs[p].phase)
    {
      var phase := x.world.procs[p].phase;
      assert PhaseSafe(x.stores, phase);
      if phase.Settling? || phase.Saving? {
        HeldStays(x.stores, out, phase.cart);
      }
    }
  }

  /** The steps that neither load, re-price nor save a cart. */
  lemma OtherMoves(policy: Checkout.Policy, req: Checkout.Request, phase: Checkout.Phase,
                   claimed: Option<Idempotency.State<Checkout.TransactionResult>>, snapshot: Option<Cart>,
                   ans: Checkout.Answer, newId: nat)
    requires !phase.Loading? && !phase.Settling? && !phase.Saving?
    ensures var m := Checkout.Advance(policy, req, phase, claimed, snapshot, ans, newId);
            m.save.None? && !m.phase.Settling? && !m.phase.Saving?
  {
    hide Checkout.PolicyRejects, Checkout.TotalsOf;
  }

  lemma OtherSteps(w: Checkout.World, pid: Checkout.Pid, ans: Checkout.Answer)
    requires pid in w.procs
    requires var p := w.procs[pid].phase; !p.Loading? && !p.Settling? && !p.Saving?
    ensures var v := Checkout.Next(w, Checkout.Step(pid, ans));
            v.snapshots == w.snapshots && pid in v.procs && !v.procs[pid].phase.Settling? && !v.procs[pid].phase.Saving?
  {
    var p := w.procs[pid];
    hide Checkout.Advance, Checkout.ApplyReservation, Checkout.ApplyOp;
    OtherMoves(w.policy, p.req, p.phase, Idempotency.Current(w.keys, Checkout.KeyOf(p.req)),
               if p.req.cartId in w.snapshots then Some(w.snapshots[p.req.cartId]) else None, ans, w.nextId);
  }

  lemma OthersStand(w: Checkout.World, e: Checkout.Event, p: Checkout.Pid)
    requires p in w.procs && (e.Step? ==> e.pid != p)
    ensures var v := Checkout.Next(w, e);
            p in v.procs && (v.procs[p] == w.procs[p] || v.procs[p].phase.Crashed?)
  {
    hide Checkout.Advance, Checkout.ValidRequest;
  }

  lemma NoNewCalls(w: Checkout.World, e: Checkout.Event, p: Checkout.Pid)
    requires p in Checkout.Next(w, e).procs && p !in w.procs
    ensures !Checkout.Next(w, e).procs[p].phase.Settling? && !Checkout.Next(w, e).procs[p].phase.Saving?
  {
    hide Checkout.Advance, Checkout.ValidRequest;
  }

  /** Loading, re-pricing and saving keep the stores sound and what the call holds fit to be stored. */
  lemma StepSafe(x: Shop, pid: Checkout.Pid, ans: Checkout.Answer)
    requires Safe(x) && pid in x.world.procs
    ensures var y := Next(x, Checkout(Checkout.Step(pid, ans)));
            && y.stores.nextLine == x.stores.nextLine && x.stores.snapshots.Keys <= y.stores.snapshots.Keys
            && Sound(y.stores) && pid in y.world.procs && PhaseSafe(y.stores, y.world.procs[pid].phase)
  {
    var w := x.world;
    var phase := w.procs[pid].phase;
    var y := Next(x, Checkout(Checkout.Step(pid, ans)));
    assert PhaseSafe(x.stores, phase);
    hide Sound, Held, Checkout.Next, Checkout.RepriceForCheckout, Balanced, SameContents;
    if phase.Loading? {
      CartHistory.LoadStep(w, pid, ans);
      assert y.stores == x.stores;
      if w.procs[pid].req.cartId in w.snapshots {
        StoredIsHeld(x.stores, w.procs[pid].req.cartId);
      }
    } else if phase.Settling? {
      CartHistory.RepriceStep(w, pid, ans);
      assert y.stores == x.stores;
      if y.world.procs[pid].phase.Saving? {
        CheckoutSafety.RepricingBalances(phase.cart, ans);
        var repriced := Checkout.RepriceForCheckout(phase.cart, ans).value;
        GeoKeepsContents(phase.cart, repriced, ans.geo.value);
        RepricedIsHeld(x.stores, phase.cart, repriced.(geoOk := ans.geo.value));
      }
    } else if phase.Saving? {
      CartHistory.SaveStep(w, pid, ans);
      SaveLeaves(w, pid, ans);
      if ans.store.FailedBefore? {
        assert y.stores == x.stores;
      } else {
        SaveSound(x.stores, phase.cart);
        assert y.stores == PutSnapshot(x.stores, phase.cart);
      }
    } else {
      OtherSteps(w, pid, ans);
      assert y.stores == x.stores;
    }
  }

  lemma GeoKeepsContents(c: Cart, d: Cart, allowed: bool)
    requires SameContents(c, d) && Balanced(d)
    ensures SameContents(c, d.(geoOk := allowed)) && Balanced(d.(geoOk := allowed))
  {
  }

  lemma SaveLeaves(w: Checkout.World, pid: Checkout.Pid, ans: Checkout.Answer)
    requires pid in w.procs && w.procs[pid].phase.Saving?
    ensures var v := Checkout.Next(w, Checkout.Step(pid, ans));
            pid in v.procs && !v.procs[pid].phase.Settling? && !v.procs[pid].phase.Saving?
  {
  }

  lemma CheckoutSafe(x: Shop, e: Checkout.Event)
    requires Safe(x)
    ensures Safe(Next(x, Checkout(e)))
  {
    if !e.EditCart? && !(e.Step? && e.pid !in x.world.procs) {
      var w, y := x.world, Next(x, Checkout(e));
      if e.Step? {
        StepSafe(x, e.pid, e.answer);
      } else {
        QuietEvents(w, e);
        assert y.stores == x.stores;
      }
      hide Sound, Held, Checkout.Next;
      forall p | p in y.world.procs
        ensures PhaseSafe(y.stores, y.world.procs[p].phase)
      {
        if p !in w.procs {
          NoNewCalls(w, e, p);
        } else if !(e.Step? && e.pid == p) {
          OthersStand(w, e, p);
          var phase := w.procs[p].phase;
          assert PhaseSafe(x.stores, phase);
          if phase.Settling? || phase.Saving? {
            HeldStays(x.stores, y.stores, phase.cart);
          }
        }
      }
    }
  }

  lemma QuietEvents(w: Checkout.World, e: Checkout.Event)
    requires !e.EditCart? && !e.Step?
    ensures Checkout.Next(w, e).snapshots == w.snapshots
  {
    hide Checkout.ValidRequest;
  }

  lemma {:induction false} RunSafe(x: Shop, hs: seq<Happening>)
    requires Safe(x)
    ensures Safe(Run(x, hs))
    decreases |hs|
  {
    if hs != [] {
      hide Safe, Next;
      match hs[0] {
        case Command(cmd, cartId, answers) => CommandSafe(x, cmd, cartId, answers);
        case Checkout(e) => CheckoutSafe(x, e);
      }
      RunSafe(Next(x, hs[0]), hs[1..]);
    }
  }

  lemma OpenSafe(policy: Checkout.Policy)
    ensures Safe(Open(policy))
  {
    EmptyIsOk();
    assert EMPTY.(events := map[]) == EMPTY;
    assert InvWith(EMPTY, map[]);
  }

  // ---- Main results -----------------------------------------------------------------------------------

  /**
   Money, in every interleaving: whatever commands run between the steps of whatever
   checkouts, every stored cart has its sums, distinct lines and methods and the selected
   option's fulfillment amount.
   */
  lemma EveryStoredCartBalances(policy: Checkout.Policy, hs: seq<Happening>, id: CartId)
    requires id in Run(Open(policy), hs).stores.snapshots
    ensures WellFormed(Run(Open(policy), hs).stores.snapshots[id])
    ensures Run(Open(policy), hs).world.snapshots == Run(Open(policy), hs).stores.snapshots
  {
    OpenSafe(policy);
    RunSafe(Open(policy), hs);
    StoredIsHeld(Run(Open(policy), hs).stores, id);
  }

  /** The checkout machine sees a command as at most one edit of a cart. */
  lemma HappeningIsEdit(x: Shop, h: Happening) returns (events: seq<Checkout.Event>)
    requires Safe(x)
    ensures Next(x, h).world == Checkout.Run(x.world, events)
  {
    match h {
      case Command(cmd, cartId, answers) =>
        CommandSound(x.stores, cmd, cartId, answers);
        hide Sound, Dispatch;
        var out := Dispatch(x.stores, cmd, cartId, answers).0;
        if out.snapshots == x.stores.snapshots {
          events := [];
        } else {
          var c: Cart :| out.snapshots == x.stores.snapshots[c.cartId := c];
          events := [Checkout.EditCart(c)];
          assert events[1..] == [];
        }
      case Checkout(e) =>
        events := if e.EditCart? then [] else [e];
        hide Checkout.Next;
        assert [e][1..] == [];
    }
  }

  lemma {:induction false} RunIsRun(x: Shop, hs: seq<Happening>) returns (events: seq<Checkout.Event>)
    requires Safe(x)
    ensures Run(x, hs).world == Checkout.Run(x.world, events)
    decreases |hs|
  {
    if hs == [] {
      events := [];
    } else {
      hide Safe, Next;
      var first := HappeningIsEdit(x, hs[0]);
      OneSafe(x, hs[0]);
      var rest := RunIsRun(Next(x, hs[0]), hs[1..]);
      RunAppend(x.world, first, rest);
      events := first + rest;
    }
  }

  lemma OneSafe(x: Shop, h: Happening)
    requires Safe(x)
    ensures Safe(Next(x, h))
  {
    assert Run(x, [h]) == Next(x, h) by {
      hide Next;
      assert [h][1..] == [];
    }
    hide Safe;
    RunSafe(x, [h]);
  }

  lemma {:induction false} RunAppend(w: Checkout.World, a: seq<Checkout.Event>, b: seq<Checkout.Event>)
    ensures Checkout.Run(w, a + b) == Checkout.Run(Checkout.Run(w, a), b)
    decreases |a|
  {
    hide Checkout.Next;
    if a == [] {
      assert a + b == b;
    } else {
      assert (a + b)[1..] == a[1..] + b;
      RunAppend(Checkout.Next(w, a[0]), a[1..], b);
    }
  }

  /** Such a run is, for the checkout machine, a run in which somebody else edits carts. */
  lemma RunIsMachineRun(policy: Checkout.Policy, hs: seq<Happening>)
    ensures exists events :: Run(Open(policy), hs).world == Checkout.Run(Checkout.Begin(policy), events)
  {
    OpenSafe(policy);
    var events := RunIsRun(Open(policy), hs);
    hide Run, Checkout.Run;
    assert Run(Open(policy), hs).world == Checkout.Run(Checkout.Begin(policy), events);
  }

  /** So what is proved of the machine holds beside commands: under each key, a beginning of a single checkout. */
  lemma CheckoutOnceBesideCommands(policy: Checkout.Policy, hs: seq<Happening>, key: Checkout.Key)
    ensures var trace := CheckoutSafety.ByKey(Run(Open(policy), hs).world.effects, key);
            exists totals, reference, txn, order :: trace <= CheckoutSafety.FullTrace(totals, reference, txn, order)
  {
    RunIsMachineRun(policy, hs);
    var events :| Run(Open(policy), hs).world == Checkout.Run(Checkout.Begin(policy), events);
    CheckoutSafety.CheckoutOnce(policy, events, key);
    hide Run, Checkout.Run, CheckoutSafety.ByKey;
  }

  // ---- Log and snapshot -----------------------------------------------------------------------------

  /** Folding a cart's events gives what is stored of it, and the last logged tax is the stored one. */
  ghost predicate Agrees(x: Shop) {
    forall id: CartId :: id in x.stores.snapshots ==> AgreesOn(x.stores, id)
  }

  predicate AgreesOn(st: Store, id: CartId)
    requires id in st.snapshots
  {
    Fold(Log(st, id)) == ViewOf(st.snapshots[id]) && LoggedTax(Log(st, id)) == st.snapshots[id].taxMinor
  }

  /** No cart is left between two stages without a change having been stopped there. */
  ghost predicate Tidy(x: Shop) {
    forall id: CartId :: CartOutcomes.Untangled(x.stores, id)
  }

  /** What the log has to say about a cart. */
  predicate SameToTheLog(c: Cart, d: Cart) {
    ViewOf(c) == ViewOf(d) && c.taxMinor == d.taxMinor
  }

  /** A checkout stores a cart that has been changed since it was loaded, or one that it has taxed anew. */
  predicate Overtakes(x: Shop, e: Checkout.Event) {
    && e.Step? && e.pid in x.world.procs && x.world.procs[e.pid].phase.Saving? && !e.answer.store.FailedBefore?
    && var c := x.world.procs[e.pid].phase.cart;
       c.cartId in x.stores.snapshots && !SameToTheLog(c, x.stores.snapshots[c.cartId])
  }

  /** A change stopped part-way by a failing provider, or a save over a cart that differs from it. */
  predicate Disrupts(x: Shop, h: Happening) {
    match h
    case Command(cmd, cartId, answers) => cartId.Some? && Stalls(x.stores, cmd, cartId, answers, cartId.value)
    case Checkout(e) => Overtakes(x, e)
  }

  ghost predicate AgreesThroughout(x: Shop, hs: seq<Happening>)
    decreases |hs|
  {
    Agrees(x) && (hs == [] || AgreesThroughout(Next(x, hs[0]), hs[1..]))
  }

  predicate Undisrupted(x: Shop, hs: seq<Happening>)
    decreases |hs|
  {
    hs == [] || (!Disrupts(x, hs[0]) && Undisrupted(Next(x, hs[0]), hs[1..]))
  }

  lemma AgreesUnlessUnfinished(st: Store, id: CartId)
    requires Inv(st) && id in st.snapshots
    ensures Unfinished(Log(st, id)) >= 0
    ensures AgreesOn(st, id) <==> Unfinished(Log(st, id)) == 0 && CartOutcomes.TaxLogged(st, id)
  {
    assert CartOk(st, id);
    hide Fold, Unfinished, WellFormed, Minted, LoggedTax;
  }

  lemma CommandAgrees(x: Shop, cmd: CartEngine.Command, cartId: Option<CartId>, ans: Answers)
    requires Safe(x) && Inv(x.stores) && Agrees(x) && Tidy(x)
    ensures var y := Next(x, Command(cmd, cartId, ans));
            && Inv(y.stores) && (Agrees(y) <==> !Disrupts(x, Command(cmd, cartId, ans)))
            && (Agrees(y) ==> Tidy(y))
  {
    var st := x.stores;
    var out := Dispatch(st, cmd, cartId, ans).0;
    var y := Next(x, Command(cmd, cartId, ans));
    assert y.stores == out;
    DispatchKeeps(st, cmd, cartId, ans);
    DispatchEdits(st, cmd, cartId, ans);
    hide Dispatch, Inv, Safe, AgreesOn, Stalls, Unfinished, Log, CartOutcomes.TaxLogged, CartOutcomes.Untangled;
    forall id: CartId
      ensures id in out.snapshots ==> (AgreesOn(out, id) <==> !Stalls(st, cmd, cartId, ans, id))
      ensures !Stalls(st, cmd, cartId, ans, id) ==> CartOutcomes.Untangled(out, id)
    {
      CommandAgreesOn(st, cmd, cartId, ans, id);
    }
    StallsOnIts(st, cmd, cartId, ans);
  }

  lemma CommandAgreesOn(st: Store, cmd: CartEngine.Command, cartId: Option<CartId>, ans: Answers, id: CartId)
    requires Inv(st) && Inv(Dispatch(st, cmd, cartId, ans).0) && CartOutcomes.Untangled(st, id)
    requires id in st.snapshots ==> AgreesOn(st, id)
    ensures var out := Dispatch(st, cmd, cartId, ans).0;
            && (id in out.snapshots ==> (AgreesOn(out, id) <==> !Stalls(st, cmd, cartId, ans, id)))
            && (!Stalls(st, cmd, cartId, ans, id) ==> CartOutcomes.Untangled(out, id))
  {
    hide Dispatch, Inv, AgreesOn, Stalls, Unfinished, Log, CartOutcomes.Untangled;
    var out := Dispatch(st, cmd, cartId, ans).0;
    DispatchUnfinished(st, cmd, cartId, ans, id);
    if id in out.snapshots {
      AgreesUnlessUnfinished(out, id);
    }
    if id in st.snapshots {
      AgreesUnlessUnfinished(st, id);
    } else {
      NothingLogged(st, id);
    }
    if !Stalls(st, cmd, cartId, ans, id) {
      CartOutcomes.DispatchTax(st, cmd, cartId, ans, id);
    }
  }

  lemma NothingLogged(st: Store, id: CartId)
    requires Inv(st) && id !in st.snapshots
    ensures Unfinished(Log(st, id)) == 0
  {
    assert CartOk(st, id);
  }

  lemma StallsOnIts(st: Store, cmd: CartEngine.Command, cartId: Option<CartId>, ans: Answers)
    ensures forall id: CartId :: Stalls(st, cmd, cartId, ans, id) ==> cartId == Some(id) && id in st.snapshots
  {
    hide ProvidersFail, Blocked;
  }

  lemma SaveAgrees(st: Store, c: Cart)
    requires Inv(st) && (forall id: CartId :: id in st.snapshots ==> AgreesOn(st, id)) && Held(st, c)
    ensures var out := PutSnapshot(st, c);
            && (SameToTheLog(c, st.snapshots[c.cartId]) ==>
                  Inv(out) && forall id: CartId :: id in out.snapshots ==> AgreesOn(out, id))
            && (!SameToTheLog(c, st.snapshots[c.cartId]) ==> !AgreesOn(out, c.cartId))
  {
    var out := PutSnapshot(st, c);
    assert CartOk(st, c.cartId) && AgreesOn(st, c.cartId);
    AgreesUnlessUnfinished(st, c.cartId);
    hide Fold, Unfinished, WellFormed, Minted, LoggedTax;
    if SameToTheLog(c, st.snapshots[c.cartId]) {
      assert LogTracks(Log(out, c.cartId), c);
      assert CartOk(out, c.cartId);
      forall other: CartId | other != c.cartId
        ensures SameElsewhere(st, out, other)
      {
      }
      OthersKept(st, out, c.cartId);
      forall id: CartId | id in out.snapshots
        ensures AgreesOn(out, id)
      {
        assert id != c.cartId ==> AgreesOn(st, id);
      }
    }
  }

  lemma CheckoutAgrees(x: Shop, e: Checkout.Event)
    requires Safe(x) && Inv(x.stores) && Agrees(x) && Tidy(x)
    ensures var y := Next(x, Checkout(e));
            (Agrees(y) <==> !Overtakes(x, e)) && (Agrees(y) ==> Inv(y.stores)) && Tidy(y)
  {
    var w, y := x.world, Next(x, Checkout(e));
    hide Inv, Sound, Checkout.Next, AgreesOn, WellFormed, Minted, LogTracks;
    if e.Step? && e.pid in w.procs {
      var phase := w.procs[e.pid].phase;
      assert PhaseSafe(x.stores, phase);
      if phase.Saving? {
        CartHistory.SaveStep(w, e.pid, e.answer);
        if e.answer.store.FailedBefore? {
          assert y.stores == x.stores;
        } else {
          assert y.stores == PutSnapshot(x.stores, phase.cart);
          SaveAgrees(x.stores, phase.cart);
          SaveTidy(x, y, phase.cart);
          hide SameToTheLog, Held, Tidy;
          assert phase.cart.cartId in y.stores.snapshots;
        }
      } else {
        StepReads(w, e.pid, e.answer);
        assert y.stores == x.stores;
      }
    } else if !e.EditCart? {
      NobodyReads(w, e);
      assert y.stores == x.stores;
    }
  }

  lemma SaveTidy(x: Shop, y: Shop, c: Cart)
    requires Tidy(x) && y.stores == PutSnapshot(x.stores, c) && c.cartId in x.stores.snapshots
    ensures Tidy(y)
  {
    hide Unfinished;
    forall id: CartId
      ensures CartOutcomes.Untangled(y.stores, id)
    {
      assert CartOutcomes.Untangled(x.stores, id);
      assert Log(y.stores, id) == Log(x.stores, id);
    }
  }

  lemma StepReads(w: Checkout.World, pid: Checkout.Pid, ans: Checkout.Answer)
    requires pid in w.procs && !w.procs[pid].phase.Saving?
    ensures Checkout.Next(w, Checkout.Step(pid, ans)).snapshots == w.snapshots
  {
    if w.procs[pid].phase.Loading? {
      CartHistory.LoadStep(w, pid, ans);
    } else if w.procs[pid].phase.Settling? {
      CartHistory.RepriceStep(w, pid, ans);
    } else {
      OtherSteps(w, pid, ans);
    }
    hide Checkout.Next;
  }

  lemma NobodyReads(w: Checkout.World, e: Checkout.Event)
    requires !e.EditCart? && !(e.Step? && e.pid in w.procs)
    ensures Checkout.Next(w, e).snapshots == w.snapshots
  {
    hide Checkout.ValidRequest, Checkout.Advance;
  }

  lemma {:induction false} AgreesExactly(x: Shop, hs: seq<Happening>)
    requires Safe(x) && Inv(x.stores) && Agrees(x) && Tidy(x)
    ensures AgreesThroughout(x, hs) <==> Undisrupted(x, hs)
    decreases |hs|
  {
    if hs != [] {
      hide Safe, Inv, Agrees, Next, Disrupts, Tidy;
      OneSafe(x, hs[0]);
      match hs[0] {
        case Command(cmd, cartId, answers) => CommandAgrees(x, cmd, cartId, answers);
        case Checkout(e) =>
          CheckoutAgrees(x, e);
          DisruptsIsOvertakes(x, e);
      }
      if !Disrupts(x, hs[0]) {
        AgreesExactly(Next(x, hs[0]), hs[1..]);
      } else {
        ThroughoutNow(Next(x, hs[0]), hs[1..]);
      }
    }
  }

  lemma DisruptsIsOvertakes(x: Shop, e: Checkout.Event)
    ensures Disrupts(x, Checkout(e)) <==> Overtakes(x, e)
  {
  }

  lemma ThroughoutNow(x: Shop, hs: seq<Happening>)
    requires !Agrees(x)
    ensures !AgreesThroughout(x, hs)
  {
  }

  /**
   Log and snapshot, in every interleaving: each cart's log rebuilds its snapshot, tax
   included, at every point of a run exactly when no change is stopped part-way by a
   failing provider and no checkout stores a cart that was changed after it was loaded or
   that it has taxed otherwise.
   */
  lemma LogRebuildsExactly(policy: Checkout.Policy, hs: seq<Happening>)
    ensures AgreesThroughout(Open(policy), hs) <==> Undisrupted(Open(policy), hs)
  {
    OpenSafe(policy);
    EmptyIsOk();
    AgreesExactly(Open(policy), hs);
  }

  // ---- A concrete run -------------------------------------------------------------------------------

  const POLICY := Checkout.Policy(None, {}, false)
  const REQUEST := Checkout.Request("t", "m", 0, 1, "EUR", None, 0, "token", "key")
  const FINE := Checkout.Answer(Checkout.Done, Ok([]), Ok(0), Ok([]), Ok(true), Ok((true, "ref")), Ok(true), Ok("text"))
  const CREATE := Command(CreateCart("m", "EUR", None), None, CartHistory.NO_TAX)
  const ARRIVE := Checkout(Checkout.Arrive(0, REQUEST))
  const STEP := Checkout(Checkout.Step(0, FINE))
  const CANCEL := Command(CancelCart(0), None, CartHistory.NO_TAX)

  /** The cart is created, and a call to checkout it arrives and claims its key. */
  lemma Arrived() returns (x: Shop)
    ensures x == Next(Next(Next(Open(POLICY), CREATE), ARRIVE), STEP)
    ensures x.stores.snapshots == map[0 := NewCart(0, "m", "EUR", None)] == x.world.snapshots
    ensures 0 in x.stores.states && x.stores.states[0] == SM.CartCreated
    ensures 0 in x.world.procs && x.world.procs[0] == Checkout.Proc(REQUEST, Checkout.Loading)
  {
    var a := Next(Open(POLICY), CREATE);
    assert a.stores.snapshots == map[0 := NewCart(0, "m", "EUR", None)] && a.stores.states == map[0 := SM.CartCreated];
    var b := Next(a, ARRIVE);
    assert Checkout.ValidRequest(REQUEST);
    assert b.world.procs == map[0 := Checkout.Proc(REQUEST, Checkout.Claiming)] && b.world.keys == map[];
    x := Next(b, STEP);
  }

  /** The call loads the cart; then somebody cancels it. */
  lemma CancelledMeanwhile(x: Shop) returns (y: Shop)
    requires x.stores.snapshots == map[0 := NewCart(0, "m", "EUR", None)] == x.world.snapshots
    requires 0 in x.stores.states && x.stores.states[0] == SM.CartCreated
    requires 0 in x.world.procs && x.world.procs[0] == Checkout.Proc(REQUEST, Checkout.Loading)
    ensures y == Next(Next(x, STEP), CANCEL)
    ensures 0 in y.stores.snapshots && y.stores.snapshots[0].status == Cancelled && y.stores.snapshots[0].version == 2
    ensures 0 in y.stores.states && y.stores.states[0] == SM.Cancelled
    ensures 0 in y.world.procs && y.world.procs[0] == Checkout.Proc(REQUEST, Checkout.Settling(NewCart(0, "m", "EUR", None)))
  {
    CartHistory.LoadStep(x.world, 0, FINE);
    var a := Next(x, STEP);
    KeepsRequest(x.world);
    assert a.stores == x.stores;
    assert a.world.procs[0] == Checkout.Proc(REQUEST, Checkout.Settling(NewCart(0, "m", "EUR", None)));
    hide Checkout.Next;
    y := Next(a, CANCEL);
  }

  /** The call goes on: it re-prices and stores what it loaded. */
  lemma StoredOver(y: Shop) returns (z: Shop)
    requires 0 in y.stores.snapshots && 0 in y.stores.states && y.stores.states[0] == SM.Cancelled
    requires 0 in y.world.procs && y.world.procs[0] == Checkout.Proc(REQUEST, Checkout.Settling(NewCart(0, "m", "EUR", None)))
    ensures z == Next(Next(y, STEP), STEP)
    ensures 0 in z.stores.snapshots && z.stores.snapshots[0].status == Draft && z.stores.snapshots[0].version == 1
    ensures 0 in z.stores.states && z.stores.states[0] == SM.Cancelled
    ensures 0 in z.world.procs && z.world.procs[0].phase.Reserving?
  {
    hide *;
    var w := Checkout.Next(y.world, Checkout.Step(0, FINE));
    EmptySettles(y.world);
    EmptySaves(w);
    StepIs(y);
    StepIs(Next(y, STEP));
    z := Next(Next(y, STEP), STEP);
    BlankCart();
  }

  lemma BlankCart()
    ensures var c := NewCart(0, "m", "EUR", None); c.status == Draft && c.version == 1 && c == c.(geoOk := true)
  {
  }

  lemma StepIs(x: Shop)
    ensures Next(x, STEP).world == Checkout.Next(x.world, Checkout.Step(0, FINE))
    ensures Next(x, STEP).stores == x.stores.(snapshots := Checkout.Next(x.world, Checkout.Step(0, FINE)).snapshots)
  {
    hide Checkout.Next;
  }

  lemma EmptySettles(w: Checkout.World)
    requires 0 in w.procs && w.procs[0] == Checkout.Proc(REQUEST, Checkout.Settling(NewCart(0, "m", "EUR", None)))
    ensures var v, c := Checkout.Next(w, Checkout.Step(0, FINE)), NewCart(0, "m", "EUR", None);
            0 in v.procs && v.procs[0] == Checkout.Proc(REQUEST, Checkout.Saving(c))
  {
    hide Checkout.Next, Checkout.RepriceForCheckout, NewCart;
    EmptyReprices();
    CartHistory.RepriceStep(w, 0, FINE);
    KeepsRequest(w);
    BlankCart();
  }

  lemma EmptyReprices()
    ensures Checkout.RepriceForCheckout(NewCart(0, "m", "EUR", None), FINE) == Ok(NewCart(0, "m", "EUR", None))
  {
  }

  lemma EmptySaves(w: Checkout.World)
    requires 0 in w.procs && w.procs[0] == Checkout.Proc(REQUEST, Checkout.Saving(NewCart(0, "m", "EUR", None)))
    ensures var v, c := Checkout.Next(w, Checkout.Step(0, FINE)), NewCart(0, "m", "EUR", None);
            v.snapshots == w.snapshots[0 := c] && 0 in v.procs && v.procs[0].phase == Checkout.Reserving(c, 0)
  {
  }

  lemma KeepsRequest(w: Checkout.World)
    requires 0 in w.procs
    ensures 0 in Checkout.Next(w, Checkout.Step(0, FINE)).procs
    ensures Checkout.Next(w, Checkout.Step(0, FINE)).procs[0].req == w.procs[0].req
  {
    hide Checkout.Advance;
  }

  /**
   A cart that is cancelled between a checkout's load and its save is stored as a draft
   again, at its old version, although its lifecycle stays cancelled; and the checkout
   goes on to reserve.
   */
  lemma CancelledCartIsRevived()
    ensures var z := Run(Open(POLICY), [CREATE, ARRIVE, STEP, STEP, CANCEL, STEP, STEP]);
            && 0 in z.stores.snapshots && z.stores.snapshots[0].status == Draft && z.stores.snapshots[0].version == 1
            && 0 in z.stores.states && z.stores.states[0] == SM.Cancelled
            && 0 in z.world.procs && z.world.procs[0].phase.Reserving?
  {
    var x := Arrived();
    var y := CancelledMeanwhile(x);
    var z := StoredOver(y);
    hide Next;
    RunSeven(Open(POLICY), CREATE, ARRIVE, STEP, STEP, CANCEL, STEP, STEP);
  }

  lemma RunSeven(x: Shop, a: Happening, b: Happening, c: Happening, d: Happening, e: Happening, f: Happening, g: Happening)
    ensures Run(x, [a, b, c, d, e, f, g]) == Next(Next(Next(Next(Next(Next(Next(x, a), b), c), d), e), f), g)
  {
    hide Next;
    var x3 := Next(Next(Next(x, a), b), c);
    assert [a, b, c, d, e, f, g][1..] == [b, c, d, e, f, g] && [b, c, d, e, f, g][1..] == [c, d, e, f, g];
    assert [c, d, e, f, g][1..] == [d, e, f, g];
    assert Run(x, [a, b, c, d, e, f, g]) == Run(x3, [d, e, f, g]) by {
      assert Run(Next(Next(x, a), b), [c, d, e, f, g]) == Run(x3, [d, e, f, g]);
      assert Run(Next(x, a), [b, c, d, e, f, g]) == Run(Next(Next(x, a), b), [c, d, e, f, g]);
    }
    assert [d, e, f, g][1..] == [e, f, g] && [e, f, g][1..] == [f, g] && [f, g][1..] == [g] && [g][1..] == [];
    var x5 := Next(Next(x3, d), e);
    assert Run(Next(x5, f), [g]) == Next(Next(x5, f), g);
    assert Run(x5, [f, g]) == Run(Next(x5, f), [g]);
    assert Run(Next(x3, d), [e, f, g]) == Run(x5, [f, g]);
  }
}
