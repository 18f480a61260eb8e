/** Cart projections, pricing answers and the amounts derived from them. */
module CartModel {
  import opened Wrappers
  import Decimal

  type CartId = nat

  datatype Line = Line(lineId: string, itemId: string, title: string, quantity: nat,
                       unitPriceMinor: int, totalMinor: int)

  /** A price the pricing provider names for a line. */
  datatype LinePrice = LinePrice(lineId: string, unitPriceMinor: int, totalMinor: int)

  datatype AppliedDiscount = AppliedDiscount(code: string, amountMinor: int, lineId: Option<string>)

  datatype MethodType = Shipping | Pickup

  datatype FulfillmentOption = FulfillmentOption(id: string, amountMinor: int)

  /** One method; its single group carries the quoted options and the selection. */
  datatype FulfillmentMethod = FulfillmentMethod(methodType: MethodType, lineItemIds: seq<string>,
                                                 destinationId: string, options: seq<FulfillmentOption>,
                                                 selectedOptionId: Option<string>)

  datatype CartStatus = Draft | CheckoutReady | Cancelled

  datatype Cart = Cart(
    cartId: CartId, version: nat, currency: string, merchantId: string, tenantId: Option<string>,
    lines: seq<Line>, subtotalMinor: int, taxMinor: int, totalMinor: int, geoOk: bool, status: CartStatus,
    methods: seq<FulfillmentMethod>, fulfillmentMinor: int,
    adjustmentCodes: seq<string>, discounts: seq<AppliedDiscount>, discountMinor: int)

  datatype ProviderError = ProviderError(reason: string)

  // ---- Discounts ------------------------------------------------------------------------

  function Positive(n: int): int {
    if n > 0 then n else 0
  }

  function SaturatingAdd(a: int, b: int): int {
    if a + b > Decimal.I64_MAX then Decimal.I64_MAX else a + b
  }

  function FoldDiscounts(acc: int, discounts: seq<AppliedDiscount>): int
    decreases |discounts|
  {
    if discounts == [] then acc
    else FoldDiscounts(SaturatingAdd(acc, Positive(discounts[0].amountMinor)), discounts[1..])
  }

  /** Total of the granted discounts, never more than what is owed. */
  function TotalDiscount(discounts: seq<AppliedDiscount>, owed: int): int {
    var raw := FoldDiscounts(0, discounts);
    if raw < Positive(owed) then raw else Positive(owed)
  }

  /** The exact, unbounded sum of the positive amounts. */
  function ExactDiscount(discounts: seq<AppliedDiscount>): int {
    if discounts == [] then 0 else Positive(discounts[0].amountMinor) + ExactDiscount(discounts[1..])
  }

  lemma {:induction false} FoldSaturates(acc: int, discounts: seq<AppliedDiscount>)
    requires 0 <= acc <= Decimal.I64_MAX
    ensures ExactDiscount(discounts) >= 0
    ensures FoldDiscounts(acc, discounts)
         == if acc + ExactDiscount(discounts) > Decimal.I64_MAX then Decimal.I64_MAX else acc + ExactDiscount(discounts)
    decreases |discounts|
  {
    if discounts != [] {
      FoldSaturates(SaturatingAdd(acc, Positive(discounts[0].amountMinor)), discounts[1..]);
    }
  }

  /**
   Saturation is invisible after the clamp: for any 64-bit amount owed the result is the
   exact sum of the positive discounts, cut off at what is owed, and never negative.
   */
  lemma DiscountIsExactSumClamped(discounts: seq<AppliedDiscount>, owed: int)
    requires owed <= Decimal.I64_MAX
    ensures 0 <= TotalDiscount(discounts, owed) <= Positive(owed)
    ensures TotalDiscount(discounts, owed)
         == if ExactDiscount(discounts) < Positive(owed) then ExactDiscount(discounts) else Positive(owed)
  {
    FoldSaturates(0, discounts);
  }

  // ---- Prices -----------------------------------------------------------------------------

  /** Position of the line with this id, or the number of lines. */
  function FindLine(lines: seq<Line>, lineId: string): (i: nat)
    ensures i <= |lines| && (i < |lines| ==> lines[i].lineId == lineId)
    ensures forall j :: 0 <= j < i ==> lines[j].lineId != lineId
  {
    if lines == [] || lines[0].lineId == lineId then 0 else 1 + FindLine(lines[1..], lineId)
  }

  function ApplyPrice(lines: seq<Line>, p: LinePrice): seq<Line> {
    var i := FindLine(lines, p.lineId);
    if i == |lines| then lines
    else lines[i := lines[i].(unitPriceMinor := p.unitPriceMinor, totalMinor := p.totalMinor)]
  }

  function ApplyPrices(lines: seq<Line>, prices: seq<LinePrice>): seq<Line>
    decreases |prices|
  {
    if prices == [] then lines else ApplyPrices(ApplyPrice(lines, prices[0]), prices[1..])
  }

  function Subtotal(lines: seq<Line>): int {
    if lines == [] then 0 else Subtotal(lines[..|lines| - 1]) + lines[|lines| - 1].totalMinor
  }

  /** New prices line by line, then the subtotal, as the repricing loop does it. */
  method RepriceLines(lines: seq<Line>, prices: seq<LinePrice>) returns (priced: seq<Line>, subtotal: int)
    ensures priced == ApplyPrices(lines, prices)
    ensures subtotal == Subtotal(priced)
  {
    priced := lines;
    var i := 0;
    assert prices[0..] == prices;
    while i < |prices|
      invariant 0 <= i <= |prices|
      invariant ApplyPrices(lines, prices) == ApplyPrices(priced, prices[i..])
    {
      assert prices[i..][1..] == prices[i + 1..];
      var at := FindLine(priced, prices[i].lineId);
      if at < |priced| {
        priced := priced[at := priced[at].(unitPriceMinor := prices[i].unitPriceMinor,
                                           totalMinor := prices[i].totalMinor)];
      }
      i := i + 1;
    }
    subtotal := 0;
    i := 0;
    while i < |priced|
      invariant 0 <= i <= |priced|
      invariant subtotal == Subtotal(priced[..i])
    {
      assert priced[..i + 1][..i] == priced[..i];
      subtotal := subtotal + priced[i].totalMinor;
      i := i + 1;
    }
    assert priced[..|priced|] == priced;
  }

  function Gross(c: Cart): int {
    c.subtotalMinor + c.taxMinor + c.fulfillmentMinor
  }

  /** Re-evaluate the adjustment codes; the provider is asked only when there are any. */
  function ApplyDiscounts(c: Cart, answer: Result<seq<AppliedDiscount>, ProviderError>): Result<Cart, ProviderError> {
    if c.adjustmentCodes == [] then Ok(c.(discounts := [], discountMinor := 0, totalMinor := Gross(c)))
    else
      match answer
      case Err(e) => Err(e)
      case Ok(discounts) =>
        var d := TotalDiscount(discounts, Gross(c));
        Ok(c.(discounts := discounts, discountMinor := d, totalMinor := Gross(c) - d))
  }

  function WithPrices(c: Cart, prices: seq<LinePrice>): Cart {
    var lines := ApplyPrices(c.lines, prices);
    c.(lines := lines, subtotalMinor := Subtotal(lines))
  }

  // ---- Invariants of a stored cart ----------------------------------------------------------

  predicate DistinctLines(lines: seq<Line>) {
    forall i, j :: 0 <= i < j < |lines| ==> lines[i].lineId != lines[j].lineId
  }

  predicate DistinctMethods(methods: seq<FulfillmentMethod>) {
    forall i, j :: 0 <= i < j < |methods| ==> methods[i].methodType != methods[j].methodType
  }

  function OptionAmount(options: seq<FulfillmentOption>, id: string): int {
    if options == [] then 0
    else if options[0].id == id then options[0].amountMinor
    else OptionAmount(options[1..], id)
  }

  /** Price of the option selected in the most recent method; nothing when none is. */
  function SelectedAmount(methods: seq<FulfillmentMethod>): int {
    if methods == [] then 0 else
      var last := methods[|methods| - 1];
      match last.selectedOptionId
      case None => 0
      case Some(id) => OptionAmount(last.options, id)
  }

  /** The sums that every stored cart satisfies. */
  predicate Balanced(c: Cart) {
    && c.subtotalMinor == Subtotal(c.lines)
    && c.totalMinor == c.subtotalMinor + c.taxMinor + c.fulfillmentMinor - c.discountMinor
    && 0 <= c.discountMinor <= Positive(c.subtotalMinor + c.taxMinor + c.fulfillmentMinor)
    && (c.adjustmentCodes == [] ==> c.discountMinor == 0 && c.discounts == [])
  }

  predicate WellFormed(c: Cart) {
    && Balanced(c)
    && DistinctLines(c.lines)
    && DistinctMethods(c.methods)
    && c.fulfillmentMinor == SelectedAmount(c.methods)
  }

  /** What repricing must leave alone. */
  function Skeleton(lines: seq<Line>): seq<(string, nat)> {
    seq(|lines|, i requires 0 <= i < |lines| => (lines[i].lineId, lines[i].quantity))
  }

  lemma {:induction false} PricingKeepsSkeleton(lines: seq<Line>, prices: seq<LinePrice>)
    ensures Skeleton(ApplyPrices(lines, prices)) == Skeleton(lines)
    ensures DistinctLines(lines) ==> DistinctLines(ApplyPrices(lines, prices))
    decreases |prices|
  {
    if prices != [] {
      var once := ApplyPrice(lines, prices[0]);
      assert Skeleton(once) == Skeleton(lines);
      assert forall i :: 0 <= i < |lines| ==> once[i].lineId == lines[i].lineId;
      PricingKeepsSkeleton(once, prices[1..]);
    }
  }

  /** A line ends with the last price the provider named for it, or keeps its own. */
  function LastPrice(prices: seq<LinePrice>, line: Line): (int, int) {
    if prices == [] then (line.unitPriceMinor, line.totalMinor)
    else
      var last := prices[|prices| - 1];
      if last.lineId == line.lineId then (last.unitPriceMinor, last.totalMinor)
      else LastPrice(prices[..|prices| - 1], line)
  }

  lemma {:induction false} ApplyPricesSnoc(lines: seq<Line>, prices: seq<LinePrice>, p: LinePrice)
    ensures ApplyPrices(lines, prices + [p]) == ApplyPrice(ApplyPrices(lines, prices), p)
    decreases |prices|
  {
    if prices == [] {
      assert ([] + [p])[1..] == [];
    } else {
      assert (prices + [p])[1..] == prices[1..] + [p];
      ApplyPricesSnoc(ApplyPrice(lines, prices[0]), prices[1..], p);
    }
  }

  /** Repricing line by line is the same as giving each line its last named price. */
  lemma {:induction false} PricesLandOnTheirLines(lines: seq<Line>, prices: seq<LinePrice>)
    requires DistinctLines(lines)
    ensures var priced := ApplyPrices(lines, prices);
            |priced| == |lines| && forall i :: 0 <= i < |lines| ==>
              priced[i] == lines[i].(unitPriceMinor := LastPrice(prices, lines[i]).0,
                                     totalMinor := LastPrice(prices, lines[i]).1)
    decreases |prices|
  {
    if prices != [] {
      var front, p := prices[..|prices| - 1], prices[|prices| - 1];
      PricesLandOnTheirLines(lines, front);
      assert prices == front + [p];
      ApplyPricesSnoc(lines, front, p);
      hide ApplyPrices;
      var before := ApplyPrices(lines, front);
      assert forall i :: 0 <= i < |lines| ==> before[i].lineId == lines[i].lineId;
    }
  }
}
