/** The runner as it executes cart commands: stores updated in place, one statement at a time. */
module CartRunner {
  import opened Wrappers
  import opened CartModel
  import opened CartEngine
  import SM = StateMachines

  class Runner {
    var snapshots: map<CartId, Cart>
    var events: map<CartId, seq<Event>>
    var states: map<CartId, SM.CartState>
    var nextCart: nat
    var nextLine: nat

    constructor ()
      ensures State() == EMPTY
    {
      snapshots, events, states, nextCart, nextLine := map[], map[], map[], 0, 0;
    }

    function State(): Store
      reads this
    {
      Store(snapshots, events, states, nextCart, nextLine)
    }

    method AppendEvent(id: CartId, e: Event)
      modifies this`events
      ensures State() == Append(old(State()), id, e)
    {
      var log := if id in events then events[id] else [];
      events := events[id := log + [e]];
    }

    method StoreSnapshot(c: Cart)
      modifies this`snapshots
      ensures State() == PutSnapshot(old(State()), c)
    {
      snapshots := snapshots[c.cartId := c];
    }

    method TransitionCart(id: CartId, e: SM.CartEvent) returns (r: Result<(), Error>)
      modifies this`states
      ensures match Transition(old(State()), id, e)
              case Ok(moved) => r == Ok(()) && State() == moved
              case Err(error) => r == Err(error) && State() == old(State())
    {
      if id !in states {
        return Err(CartNotFound);
      }
      var next := SM.NextCartState(states[id], e);
      if next.None? {
        return Err(InvalidStateTransition);
      }
      states := states[id := next.value];
      return Ok(());
    }

    method MutateAndRecalculate(id: CartId, c: Cart, primary: Event, ans: Answers) returns (r: Result<Cart, Error>)
      modifies this
      ensures (State(), r) == Mutate(old(State()), id, c, primary, ans)
    {
      hide ApplyPrices, Subtotal, ApplyDiscounts, Transition, Append, PutSnapshot;
      var cart := c;
      var step := TransitionCart(id, SM.ItemChanged);
      if step.Err? {
        return Err(step.error);
      }
      AppendEvent(id, primary);
      if ans.prices.Err? {
        return Err(Provider(ans.prices.error));
      }
      var lines, subtotal := RepriceLines(cart.lines, ans.prices.value);
      cart := cart.(lines := lines, subtotalMinor := subtotal);
      step := TransitionCart(id, SM.PricingResolved);
      if step.Err? {
        return Err(step.error);
      }
      AppendEvent(id, Repriced);
      if ans.tax.Err? {
        return Err(Provider(ans.tax.error));
      }
      cart := cart.(taxMinor := ans.tax.value);
      var discounted := ApplyDiscounts(cart, ans.discounts);
      if discounted.Err? {
        return Err(Provider(discounted.error));
      }
      cart := discounted.value;
      step := TransitionCart(id, SM.TaxResolved);
      if step.Err? {
        return Err(step.error);
      }
      AppendEvent(id, Retaxed(ans.tax.value));
      if ans.geo.Err? {
        return Err(Provider(ans.geo.error));
      }
      cart := cart.(geoOk := ans.geo.value);
      step := TransitionCart(id, SM.GeoValidated);
      if step.Err? {
        return Err(step.error);
      }
      AppendEvent(id, GeoChecked(cart.geoOk));
      StoreSnapshot(cart);
      return Ok(cart);
    }

    method SetStatus(id: CartId, c: Cart, status: CartStatus, e: Event, t: SM.CartEvent) returns (r: Result<Cart, Error>)
      modifies this
      ensures (State(), r) == ChangeStatus(old(State()), id, c, status, e, t)
    {
      var done := c.(status := status, version := c.version + 1);
      AppendEvent(id, e);
      StoreSnapshot(done);
      var step := TransitionCart(id, t);
      return if step.Err? then Err(step.error) else Ok(done);
    }

    method Create(merchantId: string, currency: string, tenantId: Option<string>) returns (r: Result<Cart, Error>)
      modifies this
      requires merchantId != "" && |currency| == 3
      ensures forall ans: Answers, cartId: Option<CartId> ::
                (State(), r) == Dispatch(old(State()), CreateCart(merchantId, currency, tenantId), cartId, ans)
    {
      var id := nextCart;
      nextCart := nextCart + 1;
      var c := NewCart(id, merchantId, currency, tenantId);
      AppendEvent(id, Created(merchantId, currency));
      StoreSnapshot(c);
      states := states[id := SM.CartCreated];
      return Ok(c);
    }

    method ChangeCart(cmd: Command, id: CartId, ans: Answers) returns (r: Result<Cart, Error>)
      requires IsChange(cmd)
      modifies this
      ensures (State(), r) == Change(old(State()), cmd, id, ans)
    {
      hide Mutate, FindLine, LineId, WithoutLine, ApplyDiscounts, Selected;
      if cmd.AddItem? && ans.item.Err? {
        return Err(Provider(ans.item.error));
      }
      if id !in snapshots {
        return Err(CartNotFound);
      }
      var c := snapshots[id];
      match cmd {
        case AddItem(itemId, quantity) =>
          var lineId := LineId(nextLine);
          nextLine := nextLine + 1;
          var item := ans.item.value;
          var line := Line(lineId, item.id, item.title, quantity, item.priceMinor, item.priceMinor * quantity);
          c := c.(lines := c.lines + [line], version := c.version + 1);
          r := MutateAndRecalculate(id, c, ItemAdded(lineId, itemId, quantity), ans);
        case UpdateItemQty(lineId, quantity) =>
          var i := FindLine(c.lines, lineId);
          if i == |c.lines| {
            return Err(LineNotFound);
          }
          var line := c.lines[i].(quantity := quantity, totalMinor := c.lines[i].unitPriceMinor * quantity);
          c := c.(lines := c.lines[i := line], version := c.version + 1);
          r := MutateAndRecalculate(id, c, ItemQtyUpdated(lineId, quantity), ans);
        case RemoveItem(lineId) =>
          c := c.(lines := WithoutLine(c.lines, lineId), version := c.version + 1);
          r := MutateAndRecalculate(id, c, ItemRemoved(lineId), ans);
        case ApplyAdjustment(code) =>
          if ans.codeAccepted.Err? {
            return Err(Provider(ans.codeAccepted.error));
          }
          if code !in c.adjustmentCodes {
            c := c.(adjustmentCodes := c.adjustmentCodes + [code]);
          }
          c := c.(version := c.version + 1);
          r := MutateAndRecalculate(id, c, AdjustmentApplied(code), ans);
        case SetFulfillment(methodType, lineItemIds, _, selectedOptionId) =>
          if exists l :: l in lineItemIds && l !in LineIds(c.lines) {
            return Err(LineNotFound);
          }
          if ans.quotes.Err? {
            return Err(FulfillmentQuote(ans.quotes.error));
          }
          var options := ans.quotes.value;
          if selectedOptionId.Some? && !Offers(options, selectedOptionId.value) {
            return Err(FulfillmentOptionNotFound);
          }
          var discounted := ApplyDiscounts(Selected(c, cmd, options), ans.discounts);
          if discounted.Err? {
            return Err(Provider(discounted.error));
          }
          if ans.geo.Err? {
            return Err(Provider(ans.geo.error));
          }
          c := discounted.value.(geoOk := ans.geo.value, version := c.version + 1);
          AppendEvent(id, FulfillmentSelected(methodType, selectedOptionId, c.fulfillmentMinor));
          StoreSnapshot(c);
          r := Ok(c);
      }
    }

    /** One cart command against the stores. */
    method DispatchCartCommand(cmd: Command, cartId: Option<CartId>, ans: Answers) returns (r: Result<Cart, Error>)
      modifies this
      ensures (State(), r) == Dispatch(old(State()), cmd, cartId, ans)
    {
      hide Change, ChangeStatus;
      if !ValidCommand(cmd) {
        return Err(Invalid);
      }
      match cmd {
        case CreateCart(merchantId, currency, tenantId) =>
          r := Create(merchantId, currency, tenantId);
        case GetCart(id) =>
          r := if id in snapshots then Ok(snapshots[id]) else Err(CartNotFound);
        case StartCheckout(id, version) =>
          if id !in snapshots {
            return Err(CartNotFound);
          }
          if snapshots[id].version != version {
            return Err(CartVersionConflict(version, snapshots[id].version));
          }
          r := SetStatus(id, snapshots[id], CheckoutReady, MarkedReady, SM.MarkCheckoutReady);
        case CancelCart(id) =>
          if id !in snapshots {
            return Err(CartNotFound);
          }
          r := SetStatus(id, snapshots[id], Cancelled, MarkedCancelled, SM.Cancel);
        case _ =>
          if cartId.None? {
            return Err(MissingCartId);
          }
          r := ChangeCart(cmd, cartId.value, ans);
      }
    }
  }
}
