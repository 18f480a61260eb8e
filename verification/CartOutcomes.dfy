/** What each cart command stores when it succeeds, and why it fails when it does not. */
module CartOutcomes {
  import opened Wrappers
  import opened CartModel
  import opened CartEngine
  import opened CartInvariants
  import SM = StateMachines
  import Decimal

  // ---- Re-pricing -----------------------------------------------------------------------------

  /** The granted amount: the positive discounts added up, at most a 64-bit number and at most what is owed. */
  predicate IsGranted(discount: int, discounts: seq<AppliedDiscount>, owed: int) {
    && 0 <= discount <= ExactDiscount(discounts) && discount <= Decimal.I64_MAX && (discount <= owed || discount == 0)
    && (discount == ExactDiscount(discounts) || discount == Decimal.I64_MAX || discount == owed || (owed <= 0 && discount == 0))
  }

  /** Discounts and total of `d` follow from its own amounts and the pricing provider's answer. */
  predicate Discounted(d: Cart, answer: Result<seq<AppliedDiscount>, ProviderError>) {
    && d.totalMinor == d.subtotalMinor + d.taxMinor + d.fulfillmentMinor - d.discountMinor
    && (d.adjustmentCodes == [] ==> d.discounts == [] && d.discountMinor == 0)
    && (d.adjustmentCodes != [] ==>
          answer.Ok? && d.discounts == answer.value
          && IsGranted(d.discountMinor, answer.value, d.subtotalMinor + d.taxMinor + d.fulfillmentMinor))
  }

  /** Each line at the last price named for it, and otherwise the same line. */
  predicate AtLastPrices(lines: seq<Line>, priced: seq<Line>, prices: seq<LinePrice>) {
    |priced| == |lines|
    && forall i :: 0 <= i < |lines| ==>
         priced[i] == lines[i].(unitPriceMinor := LastPrice(prices, lines[i]).0, totalMinor := LastPrice(prices, lines[i]).1)
  }

  /** `d` is `c` with these prices, this tax, these discounts and this verdict, and nothing else changed. */
  predicate Recomputed(c: Cart, d: Cart, prices: seq<LinePrice>, tax: int,
                       discounts: Result<seq<AppliedDiscount>, ProviderError>, allowed: bool)
  {
    && AtLastPrices(c.lines, d.lines, prices) && d.subtotalMinor == Subtotal(d.lines)
    && d.taxMinor == tax && d.geoOk == allowed && Discounted(d, discounts)
    && d == c.(lines := d.lines, subtotalMinor := d.subtotalMinor, taxMinor := d.taxMinor, totalMinor := d.totalMinor,
               geoOk := d.geoOk, discounts := d.discounts, discountMinor := d.discountMinor)
  }

  /** A subtotal is the sum of the lines' totals, however they are grouped. */
  lemma {:induction false} SubtotalAdds(a: seq<Line>, b: seq<Line>)
    ensures Subtotal(a + b) == Subtotal(a) + Subtotal(b)
    ensures forall l: Line :: Subtotal([l]) == l.totalMinor
    decreases |b|
  {
    assert forall l: Line :: [l][..0] == [];
    if b == [] {
      assert a + b == a;
    } else {
      assert (a + b)[..|a| + |b| - 1] == a + b[..|b| - 1];
      SubtotalAdds(a, b[..|b| - 1]);
    }
  }

  /** And so is the exact discount of the positive amounts. */
  lemma {:induction false} ExactDiscountAdds(a: seq<AppliedDiscount>, b: seq<AppliedDiscount>)
    ensures ExactDiscount(a + b) == ExactDiscount(a) + ExactDiscount(b)
    ensures forall d: AppliedDiscount :: ExactDiscount([d]) == if d.amountMinor > 0 then d.amountMinor else 0
    decreases |a|
  {
    assert forall d: AppliedDiscount :: [d][1..] == [];
    if a == [] {
      assert a + b == b;
    } else {
      assert (a + b)[1..] == a[1..] + b;
      ExactDiscountAdds(a[1..], b);
    }
  }

  lemma TotalIsGranted(discounts: seq<AppliedDiscount>, owed: int)
    ensures IsGranted(TotalDiscount(discounts, owed), discounts, owed)
  {
    FoldSaturates(0, discounts);
  }

  lemma DiscountsAreRight(c: Cart, answer: Result<seq<AppliedDiscount>, ProviderError>)
    requires ApplyDiscounts(c, answer).Ok?
    ensures var d := ApplyDiscounts(c, answer).value;
            Discounted(d, answer) && d == c.(discounts := d.discounts, discountMinor := d.discountMinor, totalMinor := d.totalMinor)
  {
    if c.adjustmentCodes != [] {
      TotalIsGranted(answer.value, c.subtotalMinor + c.taxMinor + c.fulfillmentMinor);
    }
    hide TotalDiscount, IsGranted;
  }

  lemma PricesAreRight(c: Cart, prices: seq<LinePrice>)
    requires DistinctLines(c.lines)
    ensures var d := WithPrices(c, prices);
            && AtLastPrices(c.lines, d.lines, prices) && d.subtotalMinor == Subtotal(d.lines)
            && d == c.(lines := d.lines, subtotalMinor := d.subtotalMinor)
  {
    PricesLandOnTheirLines(c.lines, prices);
  }

  /** A change that reaches its end stores exactly the recomputed cart. */
  lemma MutateRecomputes(st: Store, id: CartId, c: Cart, primary: Event, ans: Answers)
    requires id in st.states && c.cartId == id && DistinctLines(c.lines) && Mutate(st, id, c, primary, ans).1.Ok?
    ensures ans.prices.Ok? && ans.tax.Ok? && ans.geo.Ok?
    ensures var (out, r) := Mutate(st, id, c, primary, ans);
            && Recomputed(c, r.value, ans.prices.value, ans.tax.value, ans.discounts, ans.geo.value)
            && out.snapshots == st.snapshots[id := r.value]
  {
    MutateEffect(st, id, c, primary, ans);
    if ans.prices.Err? {
      MutateStops(st, id, c, primary, ans);
    } else {
      MutateIsRetax(st, id, c, primary, ans);
      PricesAreRight(c, ans.prices.value);
      var s, p := Staged(st, id, primary), WithPrices(c, ans.prices.value);
      hide Mutate, Staged, WithPrices, AtLastPrices, Subtotal, Balanced, SameContents, Touches, Blocked;
      RetaxRecomputes(s, id, p, ans);
    }
  }

  lemma RetaxRecomputes(st: Store, id: CartId, c: Cart, ans: Answers)
    requires Retax(st, id, c, ans).1.Ok?
    ensures ans.tax.Ok? && ans.geo.Ok?
    ensures var d := Retax(st, id, c, ans).1.value;
            && d.taxMinor == ans.tax.value && d.geoOk == ans.geo.value && Discounted(d, ans.discounts)
            && d == c.(taxMinor := d.taxMinor, totalMinor := d.totalMinor, geoOk := d.geoOk, discounts := d.discounts,
                       discountMinor := d.discountMinor)
  {
    hide ApplyDiscounts, Discounted, Transition;
    var taxed := c.(taxMinor := ans.tax.value);
    DiscountsAreRight(taxed, ans.discounts);
    var discounted := ApplyDiscounts(taxed, ans.discounts).value;
    GeoIsApart(discounted, ans.discounts, ans.geo.value);
  }

  lemma GeoIsApart(d: Cart, answer: Result<seq<AppliedDiscount>, ProviderError>, allowed: bool)
    requires Discounted(d, answer)
    ensures Discounted(d.(geoOk := allowed), answer)
  {
  }

  // ---- One command --------------------------------------------------------------------------------

  /** The cart a change command hands to re-pricing, in terms of the stored one. */
  predicate Edit(before: Cart, cmd: Command, nextLine: nat, ans: Answers, c: Cart) {
    && c == before.(lines := c.lines, adjustmentCodes := c.adjustmentCodes, version := before.version + 1)
    && match cmd
       case AddItem(itemId, quantity) =>
         && ans.item.Ok? && c.adjustmentCodes == before.adjustmentCodes
         && c.lines == before.lines + [Line(LineId(nextLine), ans.item.value.id, ans.item.value.title, quantity,
                                            ans.item.value.priceMinor, ans.item.value.priceMinor * quantity)]
       case UpdateItemQty(lineId, quantity) =>
         && c.adjustmentCodes == before.adjustmentCodes
         && exists i :: 0 <= i < |before.lines| && before.lines[i].lineId == lineId
                        && c.lines == before.lines[i := before.lines[i].(quantity := quantity,
                                                                         totalMinor := before.lines[i].unitPriceMinor * quantity)]
       case RemoveItem(lineId) =>
         && c.adjustmentCodes == before.adjustmentCodes
         && ((c.lines == before.lines && forall l :: l in before.lines ==> l.lineId != lineId)
             || exists i :: 0 <= i < |before.lines| && before.lines[i].lineId == lineId
                            && c.lines == before.lines[..i] + before.lines[i + 1..])
       case ApplyAdjustment(code) =>
         && c.lines == before.lines
         && c.adjustmentCodes == (if code in before.adjustmentCodes then before.adjustmentCodes
                                  else before.adjustmentCodes + [code])
       case _ => false
  }

  lemma {:induction false} NothingDropped(lines: seq<Line>, lineId: string)
    requires forall l :: l in lines ==> l.lineId != lineId
    ensures WithoutLine(lines, lineId) == lines
  {
    if lines != [] {
      var front := lines[..|lines| - 1];
      assert lines[|lines| - 1] in lines && forall l :: l in front ==> l in lines;
      NothingDropped(front, lineId);
    }
  }

  /** Removing a line takes out that one and keeps the order of the others. */
  lemma {:induction false} OneDropped(lines: seq<Line>, lineId: string, i: nat)
    requires DistinctLines(lines) && i < |lines| && lines[i].lineId == lineId
    ensures WithoutLine(lines, lineId) == lines[..i] + lines[i + 1..]
    decreases |lines|
  {
    var n := |lines| - 1;
    var front := lines[..n];
    if i == n {
      forall l | l in front
        ensures l.lineId != lineId
      {
        var j :| 0 <= j < n && front[j] == l;
        assert lines[j] == l;
      }
      NothingDropped(front, lineId);
      assert lines[i + 1..] == [] && lines[..i] + [] == front;
    } else {
      assert front[i] == lines[i];
      OneDropped(front, lineId, i);
      assert front[..i] == lines[..i] && front[i + 1..] + [lines[n]] == lines[i + 1..];
      assert lines[..i] + front[i + 1..] + [lines[n]] == lines[..i] + lines[i + 1..];
    }
  }

  lemma ChangedIsEdit(st: Store, cmd: Command, id: CartId, ans: Answers)
    requires PassesChecks(st, cmd, id, ans) && DistinctLines(st.snapshots[id].lines)
    ensures Edit(st.snapshots[id], cmd, st.nextLine, ans, Changed(st, cmd, id, ans).1)
  {
    hide LineId, WithoutLine;
    if cmd.RemoveItem? {
      RemovedIsEdit(st.snapshots[id], cmd.goneLineId);
    }
    hide DistinctLines;
  }

  lemma RemovedIsEdit(before: Cart, lineId: string)
    requires DistinctLines(before.lines)
    ensures var rest := WithoutLine(before.lines, lineId);
            || (rest == before.lines && forall l :: l in before.lines ==> l.lineId != lineId)
            || exists i :: 0 <= i < |before.lines| && before.lines[i].lineId == lineId
                           && rest == before.lines[..i] + before.lines[i + 1..]
  {
    var i := FindLine(before.lines, lineId);
    if i < |before.lines| {
      OneDropped(before.lines, lineId, i);
    } else {
      NothingDropped(before.lines, lineId);
    }
    hide WithoutLine, FindLine;
  }

  /** Editing keeps line identifiers apart. */
  lemma ChangedKeepsDistinct(st: Store, cmd: Command, id: CartId, ans: Answers)
    requires Inv(st) && PassesChecks(st, cmd, id, ans)
    ensures id in st.states && st.snapshots[id].cartId == id && DistinctLines(st.snapshots[id].lines)
    ensures DistinctLines(Changed(st, cmd, id, ans).1.lines)
  {
    assert CartOk(st, id);
    var before := st.snapshots[id];
    hide LogTracks, Balanced, Inv, CartOk;
    match cmd
    case AddItem(itemId, quantity) =>
      var item := ans.item.value;
      AddIsFaithful(st, before, Line(LineId(st.nextLine), item.id, item.title, quantity, item.priceMinor,
                                     item.priceMinor * quantity), itemId);
    case RemoveItem(lineId) => DropKeepsDistinct(before.lines, lineId);
    case _ =>
  }

  /** The event that says what was asked for. */
  predicate Announces(cmd: Command, nextLine: nat, e: Event) {
    match cmd
    case AddItem(itemId, quantity) => e == ItemAdded(LineId(nextLine), itemId, quantity)
    case UpdateItemQty(lineId, quantity) => e == ItemQtyUpdated(lineId, quantity)
    case RemoveItem(lineId) => e == ItemRemoved(lineId)
    case ApplyAdjustment(code) => e == AdjustmentApplied(code)
    case _ => false
  }

  /**
   A successful item or adjustment command stores exactly the edited cart, recomputed: the
   item the catalog named on a line of its own, the quantity asked for, the line gone or
   the code applied, every line at its last named price, and tax, discounts, total and
   geo verdict as the providers answered; and it logs what was asked for and each stage.
   */
  lemma ChangeOutcome(st: Store, cmd: Command, id: CartId, ans: Answers) returns (edited: Cart, e: Event)
    requires Inv(st) && IsChange(cmd) && !cmd.SetFulfillment? && Change(st, cmd, id, ans).1.Ok?
    ensures id in st.snapshots && ans.prices.Ok? && ans.tax.Ok? && ans.geo.Ok?
    ensures var (out, r) := Change(st, cmd, id, ans);
            && Edit(st.snapshots[id], cmd, st.nextLine, ans, edited)
            && Recomputed(edited, r.value, ans.prices.value, ans.tax.value, ans.discounts, ans.geo.value)
            && out.snapshots == st.snapshots[id := r.value]
            && Announces(cmd, st.nextLine, e)
            && Log(out, id) == Log(st, id) + [e, Repriced, Retaxed(ans.tax.value), GeoChecked(ans.geo.value)]
  {
    hide Change, Changed, Mutate, Inv, Recomputed, Edit, DistinctLines, LineId;
    if !PassesChecks(st, cmd, id, ans) {
      ChangeRefused(st, cmd, id, ans);
    }
    var (s, c, primary) := Changed(st, cmd, id, ans);
    edited, e := c, primary;
    ChangedIsAnnounced(st, cmd, id, ans);
    ChangedKeepsDistinct(st, cmd, id, ans);
    ChangedIsEdit(st, cmd, id, ans);
    ChangeIsMutate(st, cmd, id, ans);
    hide PassesChecks;
    MutateRecomputes(s, id, c, e, ans);
    MutateEffect(s, id, c, e, ans);
  }

  lemma ChangedIsAnnounced(st: Store, cmd: Command, id: CartId, ans: Answers)
    requires PassesChecks(st, cmd, id, ans)
    ensures Announces(cmd, st.nextLine, Changed(st, cmd, id, ans).2)
  {
    hide LineId, WithoutLine, FindLine;
  }

  // ---- Fulfillment ----------------------------------------------------------------------------------

  /** The option's price among the quoted ones: that of the first with this identifier, and zero without one. */
  predicate IsPriceOf(amount: int, options: seq<FulfillmentOption>, id: string) {
    || (amount == 0 && forall i :: 0 <= i < |options| ==> options[i].id != id)
    || exists i :: 0 <= i < |options| && options[i].id == id && options[i].amountMinor == amount
                   && forall j :: 0 <= j < i ==> options[j].id != id
  }

  lemma {:induction false} AmountIsPrice(options: seq<FulfillmentOption>, id: string)
    ensures IsPriceOf(OptionAmount(options, id), options, id)
  {
    if options != [] && options[0].id != id {
      AmountIsPrice(options[1..], id);
      var amount := OptionAmount(options[1..], id);
      if i :| 0 <= i < |options| - 1 && options[1..][i].id == id && options[1..][i].amountMinor == amount
              && forall j :: 0 <= j < i ==> options[1..][j].id != id {
        assert options[i + 1] == options[1..][i];
        assert forall j :: 0 < j < i + 1 ==> options[j] == options[1..][j - 1];
      } else {
        assert forall j :: 0 < j < |options| ==> options[j] == options[1..][j - 1];
      }
    }
  }

  /** The new method comes last, for the lines asked for or all of them; methods of the other type stay. */
  ghost predicate Fulfilled(before: Cart, cmd: Command, options: seq<FulfillmentOption>, d: Cart)
    requires cmd.SetFulfillment?
  {
    && |d.methods| > 0
    && (var m := d.methods[|d.methods| - 1];
        && m.methodType == cmd.methodType && m.destinationId == cmd.destinationId && m.options == options
        && m.selectedOptionId == cmd.selectedOptionId
        && m.lineItemIds == if cmd.lineItemIds == [] then LineIds(before.lines) else cmd.lineItemIds)
    && (forall m :: m in d.methods[..|d.methods| - 1] <==> m in before.methods && m.methodType != cmd.methodType)
    && match cmd.selectedOptionId
       case None => d.fulfillmentMinor == 0
       case Some(id) => IsPriceOf(d.fulfillmentMinor, options, id) && exists o :: o in options && o.id == id
  }

  /**
   A successful fulfillment selection replaces the method of its type by the quoted one,
   charges the selected option, and refreshes discounts, total and geo verdict; lines and
   tax stay.
   */
  lemma SelectionOutcome(st: Store, cmd: Command, id: CartId, ans: Answers)
    requires Inv(st) && cmd.SetFulfillment? && Change(st, cmd, id, ans).1.Ok?
    ensures id in st.snapshots && ans.quotes.Ok? && ans.geo.Ok?
    ensures forall l :: l in cmd.lineItemIds ==> l in LineIds(st.snapshots[id].lines)
    ensures var (out, r) := Change(st, cmd, id, ans);
            var before := st.snapshots[id];
            && Fulfilled(before, cmd, ans.quotes.value, r.value) && Discounted(r.value, ans.discounts)
            && r.value.geoOk == ans.geo.value && r.value.version == before.version + 1
            && r.value == before.(methods := r.value.methods, fulfillmentMinor := r.value.fulfillmentMinor,
                                  discounts := r.value.discounts, discountMinor := r.value.discountMinor,
                                  totalMinor := r.value.totalMinor, geoOk := r.value.geoOk, version := r.value.version)
            && out.snapshots == st.snapshots[id := r.value]
  {
    assert CartOk(st, id);
    hide ApplyDiscounts, Discounted, Inv, CartOk, LogTracks;
    var before := st.snapshots[id];
    var chosen := Selected(before, cmd, ans.quotes.value);
    DiscountsAreRight(chosen, ans.discounts);
    var d := ApplyDiscounts(chosen, ans.discounts).value;
    GeoAndVersionApart(d, ans.discounts, ans.geo.value, before.version + 1);
    SelectedIsFulfilled(before, cmd, ans.quotes.value);
    hide Selected, LineIds, WithoutMethod, WellFormed;
  }

  lemma SelectedIsFulfilled(before: Cart, cmd: Command, options: seq<FulfillmentOption>)
    requires cmd.SetFulfillment? && DistinctMethods(before.methods)
    requires cmd.selectedOptionId.Some? ==> Offers(options, cmd.selectedOptionId.value)
    ensures Fulfilled(before, cmd, options, Selected(before, cmd, options))
  {
    var d := Selected(before, cmd, options);
    MethodDropped(before.methods, cmd.methodType);
    assert d.methods[..|d.methods| - 1] == WithoutMethod(before.methods, cmd.methodType);
    if cmd.selectedOptionId.Some? {
      AmountIsPrice(options, cmd.selectedOptionId.value);
    }
    hide WithoutMethod, OptionAmount, IsPriceOf;
  }

  lemma GeoAndVersionApart(d: Cart, answer: Result<seq<AppliedDiscount>, ProviderError>, allowed: bool, version: nat)
    requires Discounted(d, answer)
    ensures Discounted(d.(geoOk := allowed, version := version), answer)
  {
  }

  // ---- Creation and status ------------------------------------------------------------------------------

  /** What the remaining commands store: a new empty cart of the right owner, or the old one with another status. */
  lemma StatusOutcome(st: Store, cmd: Command, cartId: Option<CartId>, ans: Answers)
    requires Inv(st) && !IsChange(cmd) && Dispatch(st, cmd, cartId, ans).1.Ok?
    ensures var (out, r) := Dispatch(st, cmd, cartId, ans);
            match cmd
            case CreateCart(merchant, currency, tenant) =>
              && r.value.cartId !in st.snapshots && out.snapshots == st.snapshots[r.value.cartId := r.value]
              && r.value.version == 1 && r.value.merchantId == merchant && r.value.currency == currency
              && r.value.tenantId == tenant && r.value.lines == [] && r.value.methods == [] && r.value.adjustmentCodes == []
              && r.value.discounts == [] && r.value.status == Draft && r.value.geoOk && r.value.taxMinor == 0
              && r.value.fulfillmentMinor == 0 && r.value.discountMinor == 0 && r.value.subtotalMinor == 0 && r.value.totalMinor == 0
            case GetCart(id) => out == st && id in st.snapshots && r.value == st.snapshots[id]
            case StartCheckout(id, version) =>
              && id in st.snapshots && st.snapshots[id].version == version
              && r.value == st.snapshots[id].(status := CheckoutReady, version := version + 1)
              && out.snapshots == st.snapshots[id := r.value]
            case CancelCart(id) =>
              && id in st.snapshots
              && r.value == st.snapshots[id].(status := Cancelled, version := st.snapshots[id].version + 1)
              && out.snapshots == st.snapshots[id := r.value]
            case _ => true
  {
    assert CartOk(st, st.nextCart);
    match cmd
    case StartCheckout(id, _) => assert CartOk(st, id);
    case CancelCart(id) => assert CartOk(st, id);
    case _ =>
  }

  // ---- Why a command fails ----------------------------------------------------------------------------

  predicate IsBlank(text: string) {
    |text| == 0
  }

  /** The fields a command cannot do without. */
  predicate Incomplete(cmd: Command) {
    match cmd
    case CreateCart(merchant, currency, _) => IsBlank(merchant) || |currency| < 3 || |currency| > 3
    case AddItem(item, quantity) => IsBlank(item) || quantity < 1
    case UpdateItemQty(line, _) => IsBlank(line)
    case RemoveItem(line) => IsBlank(line)
    case ApplyAdjustment(code) => IsBlank(code)
    case GetCart(_) => false
    case StartCheckout(_, version) => version < 1
    case CancelCart(_) => false
    case SetFulfillment(_, _, destination, _) => IsBlank(destination)
  }

  function TargetOf(cmd: Command, cartId: Option<CartId>): Option<CartId> {
    match cmd
    case GetCart(id) => Some(id)
    case StartCheckout(id, _) => Some(id)
    case CancelCart(id) => Some(id)
    case _ => cartId
  }

  /** Its item is unknown to the catalog, which is asked before the cart is looked up. */
  predicate UnknownItem(cmd: Command, ans: Answers) {
    cmd.AddItem? && ans.item.Err?
  }

  /**
   The reasons that are not the providers' while re-pricing, each exactly: an incomplete
   command, a change without a cart, an unknown cart, another version than the stored one,
   an unknown line, an option that is not on offer, a failed quote.
   */
  lemma FailureReasons(st: Store, cmd: Command, cartId: Option<CartId>, ans: Answers)
    requires Inv(st)
    ensures var r := Dispatch(st, cmd, cartId, ans).1;
            var target := TargetOf(cmd, cartId);
            && (r == Err(Invalid) <==> Incomplete(cmd))
            && (r == Err(MissingCartId) <==> !Incomplete(cmd) && IsChange(cmd) && cartId.None?)
            && (r == Err(CartNotFound) <==>
                  !Incomplete(cmd) && !cmd.CreateCart? && target.Some? && target.value !in st.snapshots && !UnknownItem(cmd, ans))
            && (forall expected, current :: r == Err(CartVersionConflict(expected, current)) <==>
                  !Incomplete(cmd) && cmd.StartCheckout? && cmd.target in st.snapshots && expected == cmd.cartVersion
                  && current == st.snapshots[cmd.target].version && current != expected)
            && (!Incomplete(cmd) && UnknownItem(cmd, ans) && cartId.Some? ==> r == Err(Provider(ans.item.error)))
  {
    if TargetOf(cmd, cartId).Some? {
      assert CartOk(st, TargetOf(cmd, cartId).value);
    }
    hide Change, Inv, CartOk, WellFormed, LogTracks, Minted;
    match cmd
    case CreateCart(_, _, _) =>
    case GetCart(_) =>
    case StartCheckout(_, _) =>
    case CancelCart(_) =>
    case _ =>
      if !Incomplete(cmd) && cartId.Some? {
        ChangeReasons(st, cmd, cartId.value, ans);
      }
  }

  /** The change has none of the reasons that come before any provider is asked to re-price. */
  lemma ChangeReasons(st: Store, cmd: Command, id: CartId, ans: Answers)
    requires Inv(st) && IsChange(cmd)
    ensures var r := Change(st, cmd, id, ans).1;
            && r != Err(Invalid) && r != Err(MissingCartId) && (forall e, c :: r != Err(CartVersionConflict(e, c)))
            && (r == Err(CartNotFound) <==> id !in st.snapshots && !UnknownItem(cmd, ans))
            && (UnknownItem(cmd, ans) ==> r == Err(Provider(ans.item.error)))
            && (r == Err(LineNotFound) <==>
                  && id in st.snapshots
                  && ((cmd.UpdateItemQty? && forall l :: l in st.snapshots[id].lines ==> l.lineId != cmd.lineId)
                      || (cmd.SetFulfillment? && exists l :: l in cmd.lineItemIds && l !in LineIds(st.snapshots[id].lines))))
            && (r.Err? && r.error.FulfillmentQuote? ==> cmd.SetFulfillment? && ans.quotes == Err(r.error.why))
            && (r == Err(FulfillmentOptionNotFound) ==>
                  && cmd.SetFulfillment? && ans.quotes.Ok? && cmd.selectedOptionId.Some?
                  && forall o :: o in ans.quotes.value ==> o.id != cmd.selectedOptionId.value)
  {
    assert CartOk(st, id);
    if cmd.SetFulfillment? {
      hide ApplyDiscounts, Selected, Inv, CartOk;
    } else if PassesChecks(st, cmd, id, ans) {
      ChangeErrors(st, cmd, id, ans);
      hide Change, Inv, CartOk, Mutate;
    } else {
      hide Mutate, LineId, WithoutLine, Inv, CartOk;
      if id in st.snapshots && cmd.UpdateItemQty? {
        assert forall l :: l in st.snapshots[id].lines ==> l.lineId != cmd.lineId;
      }
    }
  }

  /** Past its own checks, a change fails only at a provider or at the state machine. */
  lemma ChangeErrors(st: Store, cmd: Command, id: CartId, ans: Answers)
    requires Inv(st) && PassesChecks(st, cmd, id, ans)
    ensures IsChange(cmd)
    ensures var r := Change(st, cmd, id, ans).1; r.Ok? || r.error.Provider? || r.error.InvalidStateTransition?
  {
    assert CartOk(st, id);
    hide Change, Changed, Inv, CartOk, Mutate;
    ChangeIsMutate(st, cmd, id, ans);
    var (s, c, e) := Changed(st, cmd, id, ans);
    MutateEffect(s, id, c, e, ans);
  }

  /** The first of the providers asked, in this order, that failed to answer. */
  function FirstFailure(prices: Option<ProviderError>, tax: Option<ProviderError>, discounts: Option<ProviderError>,
                        geo: Option<ProviderError>): Option<ProviderError>
  {
    if prices.Some? then prices else if tax.Some? then tax else if discounts.Some? then discounts else geo
  }

  function Failure<T>(answer: Result<T, ProviderError>): Option<ProviderError> {
    match answer
    case Ok(_) => None
    case Err(e) => Some(e)
  }

  lemma MutateFails(st: Store, id: CartId, c: Cart, primary: Event, ans: Answers)
    requires id in st.states && !Blocked(st.states[id])
    ensures var first := FirstFailure(Failure(ans.prices), Failure(ans.tax),
                                      if |c.adjustmentCodes| > 0 then Failure(ans.discounts) else None, Failure(ans.geo));
            var r := Mutate(st, id, c, primary, ans).1;
            if first.Some? then r == Err(Provider(first.value)) else r.Ok?
  {
    hide ApplyPrices, Subtotal, TotalDiscount, Log, PutSnapshot;
    if ans.prices.Ok? {
      assert |WithPrices(c, ans.prices.value).adjustmentCodes| == |c.adjustmentCodes|;
    }
  }

  /**
   Success and failure of an item or adjustment change, exactly: past its own checks and
   unless the cart is stuck, it succeeds if and only if every provider it asks answers -
   the discounts are asked for only with a code on the cart - and else fails with the first
   missing answer of price, tax, discount and address, in this order.
   */
  lemma ChangeFailsExactly(st: Store, cmd: Command, id: CartId, ans: Answers)
    requires Inv(st) && PassesChecks(st, cmd, id, ans) && id in st.states && !Blocked(st.states[id])
    ensures IsChange(cmd)
    ensures var codes := |st.snapshots[id].adjustmentCodes| > 0 || cmd.ApplyAdjustment?;
            var first := FirstFailure(Failure(ans.prices), Failure(ans.tax), if codes then Failure(ans.discounts) else None,
                                      Failure(ans.geo));
            var r := Change(st, cmd, id, ans).1;
            if first.Some? then r == Err(Provider(first.value)) else r.Ok?
  {
    hide Change, Changed, Mutate, Inv, Blocked, FirstFailure, Failure;
    ChangeIsMutate(st, cmd, id, ans);
    var (s, c, e) := Changed(st, cmd, id, ans);
    MutateFails(s, id, c, e, ans);
  }

  /**
   A selection, exactly: it fails on an unknown line, a failed quote, an option not on offer,
   a failed discount answer when there are codes, or a failed address check, in this order,
   and succeeds otherwise, whatever state the cart is in.
   */
  lemma SelectionFailsExactly(st: Store, cmd: Command, id: CartId, ans: Answers)
    requires cmd.SetFulfillment? && id in st.snapshots
    ensures var r, c := Change(st, cmd, id, ans).1, st.snapshots[id];
            var first := FirstFailure(None, None, if |c.adjustmentCodes| > 0 then Failure(ans.discounts) else None, Failure(ans.geo));
            if exists l :: l in cmd.lineItemIds && l !in LineIds(c.lines) then r == Err(LineNotFound)
            else if ans.quotes.Err? then r == Err(FulfillmentQuote(ans.quotes.error))
            else if cmd.selectedOptionId.Some? && (forall o :: o in ans.quotes.value ==> o.id != cmd.selectedOptionId.value)
            then r == Err(FulfillmentOptionNotFound)
            else if first.Some? then r == Err(Provider(first.value)) else r.Ok?
  {
    hide TotalDiscount, LineIds, WithoutMethod, OptionAmount, Append, PutSnapshot;
    if ans.quotes.Ok? {
      assert |Selected(st.snapshots[id], cmd, ans.quotes.value).adjustmentCodes| == |st.snapshots[id].adjustmentCodes|;
    }
  }

  // ---- Tax and state between commands -----------------------------------------------------------------

  /** The log names the tax that is stored. */
  predicate TaxLogged(st: Store, id: CartId) {
    id in st.snapshots ==> LoggedTax(Log(st, id)) == st.snapshots[id].taxMinor
  }

  /** Unless a change of it was stopped part-way, the cart's lifecycle is not between two stages. */
  predicate Untangled(st: Store, id: CartId) {
    id in st.snapshots && Unfinished(Log(st, id)) == 0 ==>
      id in st.states && st.states[id] != SM.Repriced && st.states[id] != SM.Retaxed
  }

  lemma StagesTax(log: seq<Event>, primary: Event, tax: int, allowed: bool)
    ensures LoggedTax(log + Stages(primary, tax, allowed)) == tax
  {
    LoggedTaxAppend(log + [primary, Repriced], Retaxed(tax));
    LoggedTaxAppend(log + [primary, Repriced] + [Retaxed(tax)], GeoChecked(allowed));
    assert log + [primary, Repriced] + [Retaxed(tax)] + [GeoChecked(allowed)] == log + Stages(primary, tax, allowed);
  }

  lemma MutateState(st: Store, id: CartId, c: Cart, primary: Event, ans: Answers)
    requires id in st.states && Mutate(st, id, c, primary, ans).1.Ok?
    ensures id in Mutate(st, id, c, primary, ans).0.states && Mutate(st, id, c, primary, ans).0.states[id] == SM.GeoChecked
  {
    hide ApplyDiscounts, WithPrices;
  }

  /** A change leaves the log's tax right and the lifecycle untangled, unless it stalls. */
  lemma ChangeTax(st: Store, cmd: Command, id: CartId, ans: Answers)
    requires Inv(st) && IsChange(cmd) && ValidCommand(cmd) && Untangled(st, id)
    requires !Stalls(st, cmd, Some(id), ans, id)
    ensures (TaxLogged(st, id) ==> TaxLogged(Change(st, cmd, id, ans).0, id)) && Untangled(Change(st, cmd, id, ans).0, id)
  {
    assert CartOk(st, id);
    hide Inv, CartOk, Mutate, Changed, LogTracks, WellFormed;
    if cmd.SetFulfillment? {
      SelectTax(st, cmd, id, ans);
    } else if PassesChecks(st, cmd, id, ans) {
      var (s, c, e) := Changed(st, cmd, id, ans);
      ChangeIsMutate(st, cmd, id, ans);
      MutateEffect(s, id, c, e, ans);
      if !Blocked(st.states[id]) {
        MutateOutcome(s, id, c, e, ans);
        hide Change, Unfinished;
        StagesTax(Log(st, id), e, ans.tax.value, ans.geo.value);
        MutateState(s, id, c, e, ans);
      } else {
        hide Change, Unfinished;
      }
    } else {
      ChangeRefused(st, cmd, id, ans);
    }
  }

  lemma SelectTax(st: Store, cmd: Command, id: CartId, ans: Answers)
    requires Inv(st) && cmd.SetFulfillment? && Untangled(st, id)
    ensures (TaxLogged(st, id) ==> TaxLogged(Change(st, cmd, id, ans).0, id)) && Untangled(Change(st, cmd, id, ans).0, id)
  {
    var (out, r) := Change(st, cmd, id, ans);
    if r.Ok? {
      SelectionOutcome(st, cmd, id, ans);
      var e := FulfillmentSelected(cmd.methodType, cmd.selectedOptionId, r.value.fulfillmentMinor);
      assert Log(out, id) == Log(st, id) + [e] && out.states == st.states by {
        hide ApplyDiscounts, Selected, Offers;
      }
      LoggedTaxAppend(Log(st, id), e);
      UnfinishedAppend(Log(st, id), e);
      hide Change, Inv, LoggedTax, Unfinished, Discounted, Fulfilled;
    } else {
      assert out == st by {
        hide ApplyDiscounts, Selected, Offers;
      }
    }
  }

  /** The stores after a status change, as far as this cart goes. */
  lemma StatusHere(st: Store, id: CartId, status: CartStatus, e: Event, t: SM.CartEvent)
    requires id in st.snapshots && st.snapshots[id].cartId == id && id in st.states
    requires t == SM.MarkCheckoutReady || t == SM.Cancel
    ensures var out := ChangeStatus(st, id, st.snapshots[id], status, e, t).0;
            && Log(out, id) == Log(st, id) + [e] && id in out.snapshots && id in out.states
            && out.snapshots[id].taxMinor == st.snapshots[id].taxMinor
            && (out.states[id] == st.states[id] || out.states[id] == SM.CheckoutReady || out.states[id] == SM.Cancelled)
  {
  }

  lemma StatusTax(st: Store, id: CartId, status: CartStatus, e: Event, t: SM.CartEvent)
    requires Inv(st) && id in st.snapshots && Untangled(st, id)
    requires (e.MarkedReady? && t == SM.MarkCheckoutReady) || (e.MarkedCancelled? && t == SM.Cancel)
    ensures TaxLogged(st, id) ==> TaxLogged(ChangeStatus(st, id, st.snapshots[id], status, e, t).0, id)
    ensures Untangled(ChangeStatus(st, id, st.snapshots[id], status, e, t).0, id)
  {
    assert CartOk(st, id);
    hide Inv, LogTracks, WellFormed, ChangeStatus;
    StatusHere(st, id, status, e, t);
    LoggedTaxAppend(Log(st, id), e);
    UnfinishedAppend(Log(st, id), e);
    hide CartOk, LoggedTax, Unfinished, Log;
  }

  /** A command never touches what another cart's log says, and a new cart starts untaxed. */
  lemma ElsewhereTax(st: Store, cmd: Command, cartId: Option<CartId>, ans: Answers, id: CartId)
    requires TargetOf(cmd, cartId) != Some(id) || cmd.CreateCart?
    requires Inv(st) && Untangled(st, id)
    ensures (TaxLogged(st, id) ==> TaxLogged(Dispatch(st, cmd, cartId, ans).0, id)) && Untangled(Dispatch(st, cmd, cartId, ans).0, id)
  {
    hide Inv, TaxLogged, Untangled, Change, ChangeStatus;
    if ValidCommand(cmd) {
      match cmd
      case CreateCart(_, _, _) => CreateTax(st, cmd, cartId, ans, id);
      case GetCart(_) =>
      case StartCheckout(target, _) =>
        if target in st.snapshots {
          StatusElsewhere(st, target, CheckoutReady, MarkedReady, SM.MarkCheckoutReady, id);
        }
      case CancelCart(target) =>
        if target in st.snapshots {
          StatusElsewhere(st, target, Cancelled, MarkedCancelled, SM.Cancel, id);
        }
      case _ =>
        if cartId.Some? {
          ChangeElsewhere(st, cmd, cartId.value, ans);
          KeysKept(st, cmd, cartId.value, ans);
          SameTax(st, Change(st, cmd, cartId.value, ans).0, id);
        }
    }
  }

  lemma SameTax(st: Store, out: Store, id: CartId)
    requires SameElsewhere(st, out, id) && st.states.Keys <= out.states.Keys && Untangled(st, id)
    ensures (TaxLogged(st, id) ==> TaxLogged(out, id)) && Untangled(out, id)
  {
    hide LoggedTax, Unfinished;
  }

  lemma StatusElsewhere(st: Store, target: CartId, status: CartStatus, e: Event, t: SM.CartEvent, id: CartId)
    requires Inv(st) && target in st.snapshots && target != id && Untangled(st, id)
    ensures TaxLogged(st, id) ==> TaxLogged(ChangeStatus(st, target, st.snapshots[target], status, e, t).0, id)
    ensures Untangled(ChangeStatus(st, target, st.snapshots[target], status, e, t).0, id)
  {
    assert CartOk(st, target);
    hide Inv, CartOk, TaxLogged, Untangled;
    SameTax(st, ChangeStatus(st, target, st.snapshots[target], status, e, t).0, id);
  }

  lemma CreateTax(st: Store, cmd: Command, cartId: Option<CartId>, ans: Answers, id: CartId)
    requires Inv(st) && cmd.CreateCart? && ValidCommand(cmd) && Untangled(st, id)
    ensures (TaxLogged(st, id) ==> TaxLogged(Dispatch(st, cmd, cartId, ans).0, id)) && Untangled(Dispatch(st, cmd, cartId, ans).0, id)
  {
    var out := Dispatch(st, cmd, cartId, ans).0;
    if id == st.nextCart {
      CreatedHere(st, cmd, cartId, ans);
      var e := Created(cmd.merchantId, cmd.currency);
      LoggedTaxAppend([], e);
      UnfinishedAppend([], e);
      assert [] + [e] == [e];
      hide LoggedTax, Unfinished, Dispatch, Inv;
    } else {
      CreatedElsewhere(st, cmd, cartId, ans, id);
      hide TaxLogged, Untangled, Dispatch, Inv;
      SameTax(st, out, id);
    }
  }

  lemma CreatedHere(st: Store, cmd: Command, cartId: Option<CartId>, ans: Answers)
    requires Inv(st) && cmd.CreateCart? && ValidCommand(cmd)
    ensures var out := Dispatch(st, cmd, cartId, ans).0;
            && Log(out, st.nextCart) == [Created(cmd.merchantId, cmd.currency)]
            && st.nextCart in out.snapshots && out.snapshots[st.nextCart].taxMinor == 0
            && st.nextCart in out.states && out.states[st.nextCart] == SM.CartCreated
  {
    assert CartOk(st, st.nextCart);
    hide Inv, CartOk;
  }

  lemma CreatedElsewhere(st: Store, cmd: Command, cartId: Option<CartId>, ans: Answers, id: CartId)
    requires cmd.CreateCart? && ValidCommand(cmd) && id != st.nextCart
    ensures var out := Dispatch(st, cmd, cartId, ans).0; SameElsewhere(st, out, id) && st.states.Keys <= out.states.Keys
  {
  }

  lemma KeysKept(st: Store, cmd: Command, id: CartId, ans: Answers)
    requires Inv(st) && IsChange(cmd)
    ensures st.states.Keys == Change(st, cmd, id, ans).0.states.Keys
  {
    assert CartOk(st, id);
    hide Inv, CartOk, Mutate, Changed, SelectFulfillment;
    if cmd.SetFulfillment? {
      if id in st.snapshots {
        SelectStates(st, id, st.snapshots[id], cmd, ans);
      }
    } else if PassesChecks(st, cmd, id, ans) {
      var (s, c, e) := Changed(st, cmd, id, ans);
      ChangeIsMutate(st, cmd, id, ans);
      MutateEffect(s, id, c, e, ans);
      hide Change;
    } else {
      ChangeRefused(st, cmd, id, ans);
    }
  }

  lemma SelectStates(st: Store, id: CartId, c: Cart, cmd: Command, ans: Answers)
    requires cmd.SetFulfillment?
    ensures SelectFulfillment(st, id, c, cmd, ans).0.states == st.states
  {
    hide ApplyDiscounts, Selected, Offers;
  }

  lemma ChangeElsewhere(st: Store, cmd: Command, id: CartId, ans: Answers)
    requires Inv(st) && IsChange(cmd)
    ensures forall other: CartId :: other != id ==> SameElsewhere(st, Change(st, cmd, id, ans).0, other)
  {
    assert CartOk(st, id);
    hide Inv, CartOk, Mutate, Changed, LogTracks, WellFormed;
    if cmd.SetFulfillment? {
      hide ApplyDiscounts, Selected, Offers;
    } else if PassesChecks(st, cmd, id, ans) {
      var (s, c, e) := Changed(st, cmd, id, ans);
      ChangeIsMutate(st, cmd, id, ans);
      MutateEffect(s, id, c, e, ans);
      hide Change;
      forall other: CartId | other != id
        ensures SameElsewhere(st, Change(st, cmd, id, ans).0, other)
      {
        assert SameElsewhere(s, Change(st, cmd, id, ans).0, other);
      }
    } else {
      ChangeRefused(st, cmd, id, ans);
    }
  }

  /**
   One command, any answers: unless it stalls on this cart, the log still names the stored
   tax, and the cart is still open to changes as far as its stages go.
   */
  lemma DispatchTax(st: Store, cmd: Command, cartId: Option<CartId>, ans: Answers, id: CartId)
    requires Inv(st) && Untangled(st, id) && !Stalls(st, cmd, cartId, ans, id)
    ensures (TaxLogged(st, id) ==> TaxLogged(Dispatch(st, cmd, cartId, ans).0, id)) && Untangled(Dispatch(st, cmd, cartId, ans).0, id)
  {
    hide Inv, TaxLogged, Untangled, Change, ChangeStatus, Stalls;
    if TargetOf(cmd, cartId) != Some(id) || cmd.CreateCart? {
      ElsewhereTax(st, cmd, cartId, ans, id);
    } else if ValidCommand(cmd) {
      match cmd
      case GetCart(_) =>
      case StartCheckout(_, _) =>
        if id in st.snapshots {
          StatusTax(st, id, CheckoutReady, MarkedReady, SM.MarkCheckoutReady);
        }
      case CancelCart(_) =>
        if id in st.snapshots {
          StatusTax(st, id, Cancelled, MarkedCancelled, SM.Cancel);
        }
      case _ => ChangeTax(st, cmd, id, ans);
    }
  }
}
