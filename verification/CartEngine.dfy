/** Cart commands over the event, snapshot and state stores. */
module CartEngine {
  import opened Wrappers
  import opened CartModel
  import SM = StateMachines
  import Decimal

  datatype Event =
    | Created(merchantId: string, currency: string)
    | ItemAdded(lineId: string, itemId: string, quantity: nat)
    | ItemQtyUpdated(lineId: string, quantity: nat)
    | ItemRemoved(lineId: string)
    | AdjustmentApplied(code: string)
    | FulfillmentSelected(methodType: MethodType, selectedOptionId: Option<string>, amountMinor: int)
    | Repriced
    | Retaxed(taxMinor: int)
    | GeoChecked(allowed: bool)
    | MarkedReady
    | MarkedCancelled

  datatype Command =
    | CreateCart(merchantId: string, currency: string, tenantId: Option<string>)
    | AddItem(itemId: string, quantity: nat)
    | UpdateItemQty(lineId: string, newQuantity: nat)
    | RemoveItem(goneLineId: string)
    | ApplyAdjustment(code: string)
    | GetCart(target: CartId)
    | StartCheckout(target: CartId, cartVersion: nat)
    | CancelCart(target: CartId)
    | SetFulfillment(methodType: MethodType, lineItemIds: seq<string>, destinationId: string,
                     selectedOptionId: Option<string>)

  datatype Error =
    | Invalid
    | MissingCartId
    | CartNotFound
    | LineNotFound
    | FulfillmentOptionNotFound
    | FulfillmentQuote(why: ProviderError)
    | InvalidStateTransition
    | CartVersionConflict(expected: nat, current: nat)
    | Provider(error: ProviderError)

  datatype CatalogItem = CatalogItem(id: string, title: string, priceMinor: int)

  /** What the providers answer during one command; each may also fail. */
  datatype Answers = Answers(
    item: Result<CatalogItem, ProviderError>,
    prices: Result<seq<LinePrice>, ProviderError>,
    tax: Result<int, ProviderError>,
    discounts: Result<seq<AppliedDiscount>, ProviderError>,
    geo: Result<bool, ProviderError>,
    codeAccepted: Result<(), ProviderError>,
    quotes: Result<seq<FulfillmentOption>, ProviderError>)

  /** The three per-cart stores and the identifier supply. */
  datatype Store = Store(
    snapshots: map<CartId, Cart>,
    events: map<CartId, seq<Event>>,
    states: map<CartId, SM.CartState>,
    nextCart: nat,
    nextLine: nat)

  const EMPTY := Store(map[], map[], map[], 0, 0)

  type Outcome = (Store, Result<Cart, Error>)

  function LineId(n: nat): string {
    "li_" + Decimal.ShowNat(n)
  }

  lemma LineIdInjective(a: nat, b: nat)
    requires LineId(a) == LineId(b)
    ensures a == b
  {
    assert LineId(a)[3..] == Decimal.ShowNat(a) && LineId(b)[3..] == Decimal.ShowNat(b);
    Decimal.ShowNatInjective(a, b);
  }

  function Log(st: Store, id: CartId): seq<Event> {
    if id in st.events then st.events[id] else []
  }

  function Append(st: Store, id: CartId, e: Event): Store {
    st.(events := st.events[id := Log(st, id) + [e]])
  }

  function PutSnapshot(st: Store, c: Cart): Store {
    st.(snapshots := st.snapshots[c.cartId := c])
  }

  function Transition(st: Store, id: CartId, e: SM.CartEvent): Result<Store, Error> {
    if id !in st.states then Err(CartNotFound) else
      match SM.NextCartState(st.states[id], e)
      case None => Err(InvalidStateTransition)
      case Some(next) => Ok(st.(states := st.states[id := next]))
  }

  predicate ValidCommand(cmd: Command) {
    match cmd
    case CreateCart(merchant, currency, _) => merchant != "" && |currency| == 3
    case AddItem(item, quantity) => item != "" && quantity > 0
    case UpdateItemQty(line, _) => line != ""
    case RemoveItem(line) => line != ""
    case ApplyAdjustment(code) => code != ""
    case GetCart(_) => true
    case StartCheckout(_, version) => version > 0
    case CancelCart(_) => true
    case SetFulfillment(_, _, destination, _) => destination != ""
  }

  /**
   Record the change, then re-price, re-tax, discount and geo-check the cart; each
   stage is logged when it succeeds, and the snapshot is stored only at the end.
   */
  function Mutate(st: Store, id: CartId, c: Cart, primary: Event, ans: Answers): Outcome {
    match Transition(st, id, SM.ItemChanged)
    case Err(e) => (st, Err(e))
    case Ok(changed) =>
      var logged := Append(changed, id, primary);
      match ans.prices
      case Err(e) => (logged, Err(Provider(e)))
      case Ok(prices) =>
        var priced := WithPrices(c, prices);
        match Transition(logged, id, SM.PricingResolved)
        case Err(e) => (logged, Err(e))
        case Ok(moved) => Retax(Append(moved, id, Repriced), id, priced, ans)
  }

  function Retax(st: Store, id: CartId, c: Cart, ans: Answers): Outcome {
    match ans.tax
    case Err(e) => (st, Err(Provider(e)))
    case Ok(tax) =>
      match ApplyDiscounts(c.(taxMinor := tax), ans.discounts)
      case Err(e) => (st, Err(Provider(e)))
      case Ok(discounted) =>
        match Transition(st, id, SM.TaxResolved)
        case Err(e) => (st, Err(e))
        case Ok(moved) => GeoCheck(Append(moved, id, Retaxed(tax)), id, discounted, ans)
  }

  function GeoCheck(st: Store, id: CartId, c: Cart, ans: Answers): Outcome {
    match ans.geo
    case Err(e) => (st, Err(Provider(e)))
    case Ok(allowed) =>
      var checked := c.(geoOk := allowed);
      match Transition(st, id, SM.GeoValidated)
      case Err(e) => (st, Err(e))
      case Ok(moved) => (PutSnapshot(Append(moved, id, GeoChecked(allowed)), checked), Ok(checked))
  }

  function NewCart(id: CartId, merchantId: string, currency: string, tenantId: Option<string>): Cart {
    Cart(id, 1, currency, merchantId, tenantId, [], 0, 0, 0, true, Draft, [], 0, [], [], 0)
  }

  function WithoutLine(lines: seq<Line>, lineId: string): seq<Line> {
    if lines == [] then []
    else if lines[|lines| - 1].lineId == lineId then WithoutLine(lines[..|lines| - 1], lineId)
    else WithoutLine(lines[..|lines| - 1], lineId) + [lines[|lines| - 1]]
  }

  function WithoutMethod(methods: seq<FulfillmentMethod>, t: MethodType): seq<FulfillmentMethod> {
    if methods == [] then []
    else if methods[|methods| - 1].methodType == t then WithoutMethod(methods[..|methods| - 1], t)
    else WithoutMethod(methods[..|methods| - 1], t) + [methods[|methods| - 1]]
  }

  function LineIds(lines: seq<Line>): seq<string> {
    seq(|lines|, i requires 0 <= i < |lines| => lines[i].lineId)
  }

  predicate Offers(options: seq<FulfillmentOption>, id: string) {
    exists o :: o in options && o.id == id
  }

  /** The cart after a fulfillment selection, before its discounts and geo verdict are refreshed. */
  function Selected(c: Cart, cmd: Command, options: seq<FulfillmentOption>): Cart
    requires cmd.SetFulfillment?
  {
    var items := if cmd.lineItemIds == [] then LineIds(c.lines) else cmd.lineItemIds;
    var m := FulfillmentMethod(cmd.methodType, items, cmd.destinationId, options, cmd.selectedOptionId);
    c.(methods := WithoutMethod(c.methods, cmd.methodType) + [m],
       fulfillmentMinor := if cmd.selectedOptionId.None? then 0 else OptionAmount(options, cmd.selectedOptionId.value))
  }

  function SelectFulfillment(st: Store, id: CartId, c: Cart, cmd: Command, ans: Answers): Outcome
    requires cmd.SetFulfillment?
  {
    if exists l :: l in cmd.lineItemIds && l !in LineIds(c.lines) then (st, Err(LineNotFound))
    else
      match ans.quotes
      case Err(e) => (st, Err(FulfillmentQuote(e)))
      case Ok(options) =>
        if cmd.selectedOptionId.Some? && !Offers(options, cmd.selectedOptionId.value) then
          (st, Err(FulfillmentOptionNotFound))
        else
          match ApplyDiscounts(Selected(c, cmd, options), ans.discounts)
          case Err(e) => (st, Err(Provider(e)))
          case Ok(discounted) =>
            match ans.geo
            case Err(e) => (st, Err(Provider(e)))
            case Ok(allowed) =>
              var done := discounted.(geoOk := allowed, version := c.version + 1);
              var e := FulfillmentSelected(cmd.methodType, cmd.selectedOptionId, done.fulfillmentMinor);
              (PutSnapshot(Append(st, id, e), done), Ok(done))
  }

  /** Store the new status first and only then move the state machine. */
  function ChangeStatus(st: Store, id: CartId, c: Cart, status: CartStatus, e: Event, t: SM.CartEvent): Outcome {
    var done := c.(status := status, version := c.version + 1);
    var stored := PutSnapshot(Append(st, id, e), done);
    match Transition(stored, id, t)
    case Err(error) => (stored, Err(error))
    case Ok(moved) => (moved, Ok(done))
  }

  function Dispatch(st: Store, cmd: Command, cartId: Option<CartId>, ans: Answers): Outcome {
    if !ValidCommand(cmd) then (st, Err(Invalid)) else
      match cmd
      case CreateCart(merchantId, currency, tenantId) =>
        var id := st.nextCart;
        var c := NewCart(id, merchantId, currency, tenantId);
        var stored := PutSnapshot(Append(st, id, Created(merchantId, currency)), c);
        (stored.(states := stored.states[id := SM.CartCreated], nextCart := id + 1), Ok(c))
      case GetCart(id) => (st, if id in st.snapshots then Ok(st.snapshots[id]) else Err(CartNotFound))
      case StartCheckout(id, version) =>
        if id !in st.snapshots then (st, Err(CartNotFound))
        else if st.snapshots[id].version != version then
          (st, Err(CartVersionConflict(version, st.snapshots[id].version)))
        else ChangeStatus(st, id, st.snapshots[id], CheckoutReady, MarkedReady, SM.MarkCheckoutReady)
      case CancelCart(id) =>
        if id !in st.snapshots then (st, Err(CartNotFound))
        else ChangeStatus(st, id, st.snapshots[id], Cancelled, MarkedCancelled, SM.Cancel)
      case _ =>
        if cartId.None? then (st, Err(MissingCartId))
        else Change(st, cmd, cartId.value, ans)
  }

  /** Commands that change the contents of an existing cart. */
  predicate IsChange(cmd: Command) {
    cmd.AddItem? || cmd.UpdateItemQty? || cmd.RemoveItem? || cmd.ApplyAdjustment? || cmd.SetFulfillment?
  }

  function Change(st: Store, cmd: Command, id: CartId, ans: Answers): Outcome
    requires IsChange(cmd)
  {
    if cmd.AddItem? && ans.item.Err? then (st, Err(Provider(ans.item.error)))
    else if id !in st.snapshots then (st, Err(CartNotFound))
    else
      var c := st.snapshots[id];
      match cmd
      case AddItem(itemId, quantity) =>
        var lineId := LineId(st.nextLine);
        var item := ans.item.value;
        var line := Line(lineId, item.id, item.title, quantity, item.priceMinor, item.priceMinor * quantity);
        Mutate(st.(nextLine := st.nextLine + 1), id, c.(lines := c.lines + [line], version := c.version + 1),
               ItemAdded(lineId, itemId, quantity), ans)
      case UpdateItemQty(lineId, quantity) =>
        var i := FindLine(c.lines, lineId);
        if i == |c.lines| then (st, Err(LineNotFound)) else
          var line := c.lines[i].(quantity := quantity, totalMinor := c.lines[i].unitPriceMinor * quantity);
          Mutate(st, id, c.(lines := c.lines[i := line], version := c.version + 1),
                 ItemQtyUpdated(lineId, quantity), ans)
      case RemoveItem(lineId) =>
        Mutate(st, id, c.(lines := WithoutLine(c.lines, lineId), version := c.version + 1), ItemRemoved(lineId), ans)
      case ApplyAdjustment(code) =>
        if ans.codeAccepted.Err? then (st, Err(Provider(ans.codeAccepted.error))) else
          var codes := if code in c.adjustmentCodes then c.adjustmentCodes else c.adjustmentCodes + [code];
          Mutate(st, id, c.(adjustmentCodes := codes, version := c.version + 1), AdjustmentApplied(code), ans)
      case SetFulfillment(_, _, _, _) => SelectFulfillment(st, id, c, cmd, ans)
  }
}
