/** What every run of cart commands keeps: the sums of each stored cart, and its event log. */
module CartInvariants {
  import opened Wrappers
  import opened CartModel
  import opened CartEngine
  import SM = StateMachines

  // ---- Folding the event stream -----------------------------------------------------------

  /** What a cart's event stream says about it. */
  datatype View = View(lines: seq<(string, nat)>, codes: seq<string>, fulfillmentMinor: int,
                       status: CartStatus, version: nat)

  const BLANK := View([], [], 0, Draft, 0)

  function SetQuantity(lines: seq<(string, nat)>, lineId: string, quantity: nat): seq<(string, nat)> {
    if lines == [] then []
    else if lines[0].0 == lineId then [(lineId, quantity)] + lines[1..]
    else [lines[0]] + SetQuantity(lines[1..], lineId, quantity)
  }

  function DropLine(lines: seq<(string, nat)>, lineId: string): seq<(string, nat)> {
    if lines == [] then []
    else if lines[|lines| - 1].0 == lineId then DropLine(lines[..|lines| - 1], lineId)
    else DropLine(lines[..|lines| - 1], lineId) + [lines[|lines| - 1]]
  }

  function FoldEvent(v: View, e: Event): View {
    match e
    case Created(_, _) => View([], [], 0, Draft, 1)
    case ItemAdded(l, _, q) => v.(lines := v.lines + [(l, q)], version := v.version + 1)
    case ItemQtyUpdated(l, q) => v.(lines := SetQuantity(v.lines, l, q), version := v.version + 1)
    case ItemRemoved(l) => v.(lines := DropLine(v.lines, l), version := v.version + 1)
    case AdjustmentApplied(c) =>
      v.(codes := if c in v.codes then v.codes else v.codes + [c], version := v.version + 1)
    case FulfillmentSelected(_, _, amount) => v.(fulfillmentMinor := amount, version := v.version + 1)
    case MarkedReady => v.(status := CheckoutReady, version := v.version + 1)
    case MarkedCancelled => v.(status := Cancelled, version := v.version + 1)
    case _ => v
  }

  function Fold(log: seq<Event>): View {
    if log == [] then BLANK else FoldEvent(Fold(log[..|log| - 1]), log[|log| - 1])
  }

  lemma FoldAppend(log: seq<Event>, e: Event)
    ensures Fold(log + [e]) == FoldEvent(Fold(log), e)
  {
    assert (log + [e])[..|log|] == log;
  }

  function ViewOf(c: Cart): View {
    View(Skeleton(c.lines), c.adjustmentCodes, c.fulfillmentMinor, c.status, c.version)
  }

  predicate IsPrimary(e: Event) {
    e.ItemAdded? || e.ItemQtyUpdated? || e.ItemRemoved? || e.AdjustmentApplied?
  }

  /** Changes that were logged but never reached their geo check, and so never reached the snapshot. */
  function Unfinished(log: seq<Event>): int {
    if log == [] then 0 else
      var last := log[|log| - 1];
      Unfinished(log[..|log| - 1]) + (if IsPrimary(last) then 1 else if last.GeoChecked? then -1 else 0)
  }

  lemma UnfinishedAppend(log: seq<Event>, e: Event)
    ensures Unfinished(log + [e]) == Unfinished(log) + (if IsPrimary(e) then 1 else if e.GeoChecked? then -1 else 0)
  {
    assert (log + [e])[..|log|] == log;
  }

  /** The tax of the last re-taxing that was logged. */
  function LoggedTax(log: seq<Event>): int {
    if log == [] then 0
    else if log[|log| - 1].Retaxed? then log[|log| - 1].taxMinor
    else LoggedTax(log[..|log| - 1])
  }

  lemma LoggedTaxAppend(log: seq<Event>, e: Event)
    ensures LoggedTax(log + [e]) == if e.Retaxed? then e.taxMinor else LoggedTax(log)
  {
    assert (log + [e])[..|log|] == log;
  }

  // ---- The invariant --------------------------------------------------------------------------

  /** Every line identifier is one the engine has handed out. */
  predicate Minted(lines: seq<Line>, nextLine: nat) {
    forall i :: 0 <= i < |lines| ==> IsMinted(lines[i].lineId, nextLine)
  }

  predicate IsMinted(id: string, nextLine: nat) {
    exists k: nat :: k < nextLine && id == LineId(k)
  }

  /** The log against the snapshot: equal up to the version gap left by unfinished changes. */
  predicate LogTracks(log: seq<Event>, c: Cart) {
    && Unfinished(log) >= 0
    && Fold(log).version == c.version + Unfinished(log)
    && Fold(log).status == c.status
    && Fold(log).fulfillmentMinor == c.fulfillmentMinor
    && (Unfinished(log) == 0 ==> Fold(log).lines == Skeleton(c.lines) && Fold(log).codes == c.adjustmentCodes)
  }

  predicate CartOk(st: Store, id: CartId) {
    && (id in st.snapshots ==>
          && st.snapshots[id].cartId == id && id < st.nextCart && id in st.states
          && WellFormed(st.snapshots[id])
          && Minted(st.snapshots[id].lines, st.nextLine)
          && LogTracks(Log(st, id), st.snapshots[id]))
    && (id !in st.snapshots ==> id !in st.states && id !in st.events)
  }

  ghost predicate Inv(st: Store) {
    && (forall id: CartId :: CartOk(st, id))
    && (forall id: CartId :: id in st.snapshots ==> id < st.nextCart)
  }

  // ---- Small steps ------------------------------------------------------------------------------

  lemma SkeletonAppend(lines: seq<Line>, line: Line)
    ensures Skeleton(lines + [line]) == Skeleton(lines) + [(line.lineId, line.quantity)]
  {
  }

  lemma {:induction false} DropMatches(lines: seq<Line>, lineId: string)
    ensures Skeleton(WithoutLine(lines, lineId)) == DropLine(Skeleton(lines), lineId)
    ensures forall l :: l in WithoutLine(lines, lineId) <==> l in lines && l.lineId != lineId
  {
    if lines != [] {
      var front, last := lines[..|lines| - 1], lines[|lines| - 1];
      DropMatches(front, lineId);
      assert lines == front + [last];
      assert Skeleton(lines)[..|lines| - 1] == Skeleton(front);
      SkeletonAppend(WithoutLine(front, lineId), last);
    }
  }

  lemma {:induction false} DropKeepsDistinct(lines: seq<Line>, lineId: string)
    requires DistinctLines(lines)
    ensures DistinctLines(WithoutLine(lines, lineId))
  {
    if lines != [] {
      var front, last := lines[..|lines| - 1], lines[|lines| - 1];
      DropKeepsDistinct(front, lineId);
      DropMatches(front, lineId);
      forall l | l in WithoutLine(front, lineId)
        ensures l.lineId != last.lineId
      {
        var i :| 0 <= i < |front| && front[i] == l;
        assert lines[i] == l;
      }
    }
  }

  lemma {:induction false} QuantityMatches(lines: seq<Line>, i: nat, line: Line)
    requires i < |lines| && i == FindLine(lines, line.lineId) && lines[i].lineId == line.lineId
    ensures Skeleton(lines[i := line]) == SetQuantity(Skeleton(lines), line.lineId, line.quantity)
    decreases |lines|
  {
    assert Skeleton(lines)[1..] == Skeleton(lines[1..]);
    assert Skeleton(lines)[0] == (lines[0].lineId, lines[0].quantity);
    if i == 0 {
      assert Skeleton(lines[0 := line]) == [(line.lineId, line.quantity)] + Skeleton(lines[1..]);
    } else {
      QuantityMatches(lines[1..], i - 1, line);
      assert lines[i := line] == [lines[0]] + lines[1..][i - 1 := line];
      assert Skeleton(lines[i := line]) == [Skeleton(lines)[0]] + Skeleton(lines[1..][i - 1 := line]);
    }
  }

  lemma {:induction false} MethodDropped(methods: seq<FulfillmentMethod>, t: MethodType)
    requires DistinctMethods(methods)
    ensures forall m :: m in WithoutMethod(methods, t) <==> m in methods && m.methodType != t
    ensures DistinctMethods(WithoutMethod(methods, t))
  {
    if methods != [] {
      var front, last := methods[..|methods| - 1], methods[|methods| - 1];
      MethodDropped(front, t);
      assert methods == front + [last];
      forall m | m in WithoutMethod(front, t)
        ensures m.methodType != last.methodType
      {
        var i :| 0 <= i < |front| && front[i] == m;
        assert methods[i] == m;
      }
    }
  }

  lemma TotalDiscountInRange(discounts: seq<AppliedDiscount>, owed: int)
    ensures 0 <= TotalDiscount(discounts, owed) <= Positive(owed)
  {
    FoldSaturates(0, discounts);
  }

  lemma DiscountsBalance(c: Cart, answer: Result<seq<AppliedDiscount>, ProviderError>)
    requires c.subtotalMinor == Subtotal(c.lines)
    requires ApplyDiscounts(c, answer).Ok?
    ensures var d := ApplyDiscounts(c, answer).value;
            Balanced(d) && d == c.(discounts := d.discounts, discountMinor := d.discountMinor, totalMinor := d.totalMinor)
  {
    if c.adjustmentCodes != [] {
      TotalDiscountInRange(answer.value, Gross(c));
    }
  }

  /** Everything but prices and derived amounts survives repricing. */
  predicate SameContents(c: Cart, d: Cart) {
    && Skeleton(d.lines) == Skeleton(c.lines) && (DistinctLines(c.lines) ==> DistinctLines(d.lines))
    && d.cartId == c.cartId && d.version == c.version && d.currency == c.currency && d.merchantId == c.merchantId
    && d.tenantId == c.tenantId && d.status == c.status && d.methods == c.methods
    && d.fulfillmentMinor == c.fulfillmentMinor && d.adjustmentCodes == c.adjustmentCodes
  }

  /** The log of a successful change: the change itself and its three stages. */
  function Stages(primary: Event, tax: int, allowed: bool): seq<Event> {
    [primary, Repriced, Retaxed(tax), GeoChecked(allowed)]
  }

  /** Only this cart's log, state and snapshot may differ. */
  ghost predicate Touches(st: Store, out: Store, id: CartId) {
    && out.nextCart == st.nextCart && out.nextLine == st.nextLine
    && out.states.Keys == st.states.Keys
    && (forall other: CartId :: other != id ==> SameElsewhere(st, out, other))
  }

  predicate SameElsewhere(st: Store, out: Store, other: CartId) {
    && Log(out, other) == Log(st, other)
    && (other in out.events <==> other in st.events)
    && (other in out.snapshots <==> other in st.snapshots)
    && (other in out.snapshots ==> out.snapshots[other] == st.snapshots[other])
    && (other in out.states ==> other in st.states && out.states[other] == st.states[other])
  }

  lemma GeoCheckEffect(st: Store, id: CartId, c: Cart, ans: Answers)
    requires id in st.states && c.cartId == id && st.states[id] == SM.Retaxed
    ensures var (out, r) := GeoCheck(st, id, c, ans);
            && Touches(st, out, id)
            && (r.Err? ==> out == st && r.error.Provider?)
            && (r.Ok? ==> ans.geo.Ok? && r.value == c.(geoOk := ans.geo.value)
                          && out.snapshots == st.snapshots[id := r.value]
                          && Log(out, id) == Log(st, id) + [GeoChecked(ans.geo.value)])
  {
  }

  lemma RetaxEffect(st: Store, id: CartId, c: Cart, ans: Answers)
    requires id in st.states && c.cartId == id && st.states[id] == SM.Repriced
    requires c.subtotalMinor == Subtotal(c.lines)
    ensures var (out, r) := Retax(st, id, c, ans);
            && Touches(st, out, id)
            && (r.Err? ==> out.snapshots == st.snapshots && r.error.Provider?
                           && (Log(out, id) == Log(st, id)
                               || exists tax :: Log(out, id) == Log(st, id) + [Retaxed(tax)]))
            && (r.Ok? ==> ans.tax.Ok? && ans.geo.Ok?
                          && Balanced(r.value) && r.value.lines == c.lines && SameContents(c, r.value)
                          && r.value.taxMinor == ans.tax.value
                          && out.snapshots == st.snapshots[id := r.value]
                          && Log(out, id) == Log(st, id) + [Retaxed(ans.tax.value), GeoChecked(ans.geo.value)])
  {
    hide ApplyDiscounts, GeoCheck, Subtotal;
    if ans.tax.Ok? && ApplyDiscounts(c.(taxMinor := ans.tax.value), ans.discounts).Ok? {
      var tax := ans.tax.value;
      DiscountsBalance(c.(taxMinor := tax), ans.discounts);
      var discounted := ApplyDiscounts(c.(taxMinor := tax), ans.discounts).value;
      var logged := Append(Transition(st, id, SM.TaxResolved).value, id, Retaxed(tax));
      assert Log(logged, id) == Log(st, id) + [Retaxed(tax)];
      assert Touches(st, logged, id);
      GeoCheckEffect(logged, id, discounted, ans);
      var (out, r) := GeoCheck(logged, id, discounted, ans);
      forall other: CartId | other != id
        ensures SameElsewhere(st, out, other)
      {
        assert SameElsewhere(st, logged, other) && SameElsewhere(logged, out, other);
      }
      if r.Ok? {
        GeoKeeps(c, discounted, ans.geo.value);
        assert Log(st, id) + [Retaxed(tax)] + [GeoChecked(ans.geo.value)]
            == Log(st, id) + [Retaxed(tax), GeoChecked(ans.geo.value)];
      }
    }
  }

  lemma GeoKeeps(c: Cart, d: Cart, allowed: bool)
    requires Balanced(d) && d.lines == c.lines && SameContents(c, d)
    ensures var checked := d.(geoOk := allowed); Balanced(checked) && checked.lines == c.lines && SameContents(c, checked)
  {
  }

  /** The log of a change that failed part-way: at most the first two stages follow it. */
  ghost predicate PartialStages(before: seq<Event>, primary: Event, after: seq<Event>) {
    || after == before + [primary]
    || after == before + [primary, Repriced]
    || exists tax :: after == before + [primary, Repriced, Retaxed(tax)]
  }

  predicate Blocked(s: SM.CartState) {
    s == SM.Repriced || s == SM.Retaxed || s == SM.Cancelled
  }

  /** The stores once a change has been logged and its prices resolved. */
  function Staged(st: Store, id: CartId, primary: Event): (r: Store)
    requires id in st.states && !Blocked(st.states[id])
    ensures r.states == st.states[id := SM.Repriced] && r.snapshots == st.snapshots
    ensures r.nextCart == st.nextCart && r.nextLine == st.nextLine
    ensures r.events == st.events[id := Log(st, id) + [primary] + [Repriced]]
  {
    var logged := Append(Transition(st, id, SM.ItemChanged).value, id, primary);
    Append(Transition(logged, id, SM.PricingResolved).value, id, Repriced)
  }

  lemma MutateIsRetax(st: Store, id: CartId, c: Cart, primary: Event, ans: Answers)
    requires id in st.states && !Blocked(st.states[id]) && ans.prices.Ok?
    ensures Mutate(st, id, c, primary, ans) == Retax(Staged(st, id, primary), id, WithPrices(c, ans.prices.value), ans)
  {
    hide Retax, WithPrices;
  }

  /** What is left when the change is refused, or when prices cannot be resolved. */
  lemma MutateStops(st: Store, id: CartId, c: Cart, primary: Event, ans: Answers)
    requires id in st.states && (Blocked(st.states[id]) || ans.prices.Err?)
    ensures var (out, r) := Mutate(st, id, c, primary, ans);
            if Blocked(st.states[id]) then out == st && r == Err(InvalidStateTransition)
            else r == Err(Provider(ans.prices.error)) && out.snapshots == st.snapshots
                 && Log(out, id) == Log(st, id) + [primary] && Touches(st, out, id)
  {
    hide Retax, WithPrices;
  }

  /** Exactly what `Mutate` does to the stores, by outcome. */
  lemma MutateEffect(st: Store, id: CartId, c: Cart, primary: Event, ans: Answers)
    requires id in st.states && c.cartId == id
    ensures var (out, r) := Mutate(st, id, c, primary, ans);
            && Touches(st, out, id)
            && (r == Err(InvalidStateTransition) <==> Blocked(st.states[id]))
            && (Blocked(st.states[id]) ==> out == st)
            && (r.Err? ==> out.snapshots == st.snapshots)
            && (r.Err? && !Blocked(st.states[id]) ==>
                  r.error.Provider? && PartialStages(Log(st, id), primary, Log(out, id)))
            && (r.Ok? ==>
                  && ans.tax.Ok? && ans.geo.Ok?
                  && out.snapshots == st.snapshots[id := r.value]
                  && Log(out, id) == Log(st, id) + Stages(primary, ans.tax.value, ans.geo.value)
                  && SameContents(c, r.value) && Balanced(r.value) && r.value.taxMinor == ans.tax.value)
  {
    hide Mutate, Retax, WithPrices, Subtotal, Balanced, SameContents;
    if !Blocked(st.states[id]) && ans.prices.Ok? {
      var repriced := Staged(st, id, primary);
      MutateIsRetax(st, id, c, primary, ans);
      PricedContents(c, ans.prices.value);
      assert Touches(st, repriced, id) && Log(repriced, id) == Log(st, id) + [primary, Repriced];
      hide Staged, Touches, PartialStages, Blocked;
      AfterRepricing(st, repriced, id, c, WithPrices(c, ans.prices.value), primary, ans);
    } else {
      hide Blocked;
      MutateStops(st, id, c, primary, ans);
    }
  }

  lemma PricedContents(c: Cart, prices: seq<LinePrice>)
    ensures SameContents(c, WithPrices(c, prices))
    ensures WithPrices(c, prices).subtotalMinor == Subtotal(WithPrices(c, prices).lines)
  {
    PricingKeepsSkeleton(c.lines, prices);
  }

  lemma AfterRepricing(st: Store, repriced: Store, id: CartId, c: Cart, priced: Cart, primary: Event, ans: Answers)
    requires id in repriced.states && repriced.states[id] == SM.Repriced
    requires SameContents(c, priced) && priced.cartId == id && priced.subtotalMinor == Subtotal(priced.lines)
    requires Touches(st, repriced, id) && repriced.snapshots == st.snapshots
    requires Log(repriced, id) == Log(st, id) + [primary, Repriced]
    ensures var (out, r) := Retax(repriced, id, priced, ans);
            && Touches(st, out, id)
            && (r.Err? ==> out.snapshots == st.snapshots && r.error.Provider?
                           && PartialStages(Log(st, id), primary, Log(out, id)))
            && (r.Ok? ==>
                  && ans.tax.Ok? && ans.geo.Ok?
                  && out.snapshots == st.snapshots[id := r.value]
                  && Log(out, id) == Log(st, id) + Stages(primary, ans.tax.value, ans.geo.value)
                  && SameContents(c, r.value) && Balanced(r.value) && r.value.taxMinor == ans.tax.value)
  {
    RetaxEffect(repriced, id, priced, ans);
    hide Retax, Subtotal, Balanced;
    var log := Log(st, id);
    forall other: CartId | other != id
      ensures SameElsewhere(st, Retax(repriced, id, priced, ans).0, other)
    {
      assert SameElsewhere(st, repriced, other);
      assert SameElsewhere(repriced, Retax(repriced, id, priced, ans).0, other);
    }
    var (out, r) := Retax(repriced, id, priced, ans);
    if r.Err? && Log(out, id) != Log(repriced, id) {
      var tax :| Log(out, id) == Log(repriced, id) + [Retaxed(tax)];
      assert Log(out, id) == log + [primary, Repriced, Retaxed(tax)];
    }
    if ans.tax.Ok? && ans.geo.Ok? {
      assert log + [primary, Repriced] + [Retaxed(ans.tax.value), GeoChecked(ans.geo.value)]
          == log + Stages(primary, ans.tax.value, ans.geo.value);
    }
  }

  lemma StagesFold(log: seq<Event>, primary: Event, tax: int, allowed: bool)
    requires IsPrimary(primary)
    ensures Fold(log + Stages(primary, tax, allowed)) == FoldEvent(Fold(log), primary)
    ensures Unfinished(log + Stages(primary, tax, allowed)) == Unfinished(log)
  {
    PartialFold(log, primary, log + [primary, Repriced, Retaxed(tax)]);
    var l3 := log + [primary, Repriced, Retaxed(tax)];
    FoldAppend(l3, GeoChecked(allowed));
    UnfinishedAppend(l3, GeoChecked(allowed));
    assert l3 + [GeoChecked(allowed)] == log + Stages(primary, tax, allowed);
  }

  lemma PartialFold(log: seq<Event>, primary: Event, after: seq<Event>)
    requires IsPrimary(primary) && PartialStages(log, primary, after)
    ensures Fold(after) == FoldEvent(Fold(log), primary)
    ensures Unfinished(after) == Unfinished(log) + 1
  {
    hide Fold, Unfinished;
    var l1 := log + [primary];
    FoldAppend(log, primary);
    UnfinishedAppend(log, primary);
    if after != l1 {
      var l2 := l1 + [Repriced];
      FoldAppend(l1, Repriced);
      UnfinishedAppend(l1, Repriced);
      assert l2 == log + [primary, Repriced];
      if after != l2 {
        var tax :| after == log + [primary, Repriced, Retaxed(tax)];
        FoldAppend(l2, Retaxed(tax));
        UnfinishedAppend(l2, Retaxed(tax));
        assert after == l2 + [Retaxed(tax)];
      }
    }
  }

  // ---- Preservation ------------------------------------------------------------------------------

  lemma MintedGrows(lines: seq<Line>, a: nat, b: nat)
    requires Minted(lines, a) && a <= b
    ensures Minted(lines, b)
  {
    forall i | 0 <= i < |lines|
      ensures IsMinted(lines[i].lineId, b)
    {
      var k: nat :| k < a && lines[i].lineId == LineId(k);
      assert k < b;
    }
  }

  lemma MintedByIds(c: seq<Line>, d: seq<Line>, n: nat)
    requires Minted(c, n) && Skeleton(c) == Skeleton(d)
    ensures Minted(d, n)
  {
    forall i | 0 <= i < |d|
      ensures IsMinted(d[i].lineId, n)
    {
      assert |Skeleton(c)| == |Skeleton(d)| && Skeleton(c)[i] == Skeleton(d)[i];
      assert IsMinted(c[i].lineId, n);
    }
  }

  /** A change to the cart's contents, seen from both sides: the new contents and the event that says so. */
  ghost predicate FaithfulChange(before: Cart, c: Cart, primary: Event, nextLine: nat) {
    && IsPrimary(primary)
    && c.cartId == before.cartId && c.status == before.status
    && DistinctLines(c.lines) && Minted(c.lines, nextLine)
    && DistinctMethods(c.methods) && c.fulfillmentMinor == SelectedAmount(c.methods)
    && c.fulfillmentMinor == before.fulfillmentMinor
    && c.version == before.version + 1
    && ViewOf(c) == FoldEvent(ViewOf(before), primary)
    && (forall v: View :: FoldEvent(v, primary).version == v.version + 1
          && FoldEvent(v, primary).status == v.status && FoldEvent(v, primary).fulfillmentMinor == v.fulfillmentMinor)
  }

  lemma OthersKept(st: Store, out: Store, id: CartId)
    requires Inv(st) && id in st.snapshots
    requires st.nextCart <= out.nextCart && st.nextLine <= out.nextLine
    requires forall other: CartId :: other != id ==> SameElsewhere(st, out, other)
    requires st.states.Keys <= out.states.Keys
    requires forall other: CartId :: other != id ==> (other in out.states <==> other in st.states)
    requires CartOk(out, id) && id in out.snapshots
    ensures Inv(out)
  {
    forall other: CartId
      ensures CartOk(out, other)
      ensures other in out.snapshots ==> other < out.nextCart
    {
      assert CartOk(st, other);
      if other != id {
        assert SameElsewhere(st, out, other);
        if other in st.snapshots {
          MintedGrows(st.snapshots[other].lines, st.nextLine, out.nextLine);
        }
      }
    }
  }

  lemma TracksSuccess(log: seq<Event>, before: Cart, c: Cart, d: Cart, primary: Event, tax: int, allowed: bool, n: nat)
    requires LogTracks(log, before) && FaithfulChange(before, c, primary, n) && SameContents(c, d)
    ensures LogTracks(log + Stages(primary, tax, allowed), d)
  {
    StagesFold(log, primary, tax, allowed);
    hide Fold, Unfinished;
    assert ViewOf(c) == ViewOf(d);
    assert FoldEvent(Fold(log), primary).version == Fold(log).version + 1;
    if Unfinished(log) == 0 {
      assert Fold(log) == ViewOf(before);
    }
  }

  lemma TracksFailure(log: seq<Event>, before: Cart, c: Cart, primary: Event, after: seq<Event>, n: nat)
    requires LogTracks(log, before) && FaithfulChange(before, c, primary, n)
    requires PartialStages(log, primary, after)
    ensures LogTracks(after, before)
  {
    PartialFold(log, primary, after);
    hide Fold, Unfinished;
    assert FoldEvent(Fold(log), primary).version == Fold(log).version + 1;
  }

  /** Every change command, whatever the providers answer, keeps the invariant. */
  lemma MutatedCartOk(st0: Store, st: Store, id: CartId, c: Cart, primary: Event, ans: Answers)
    requires CartOk(st0, id) && id in st0.snapshots && st0.snapshots[id].cartId == id
    requires st == st0.(nextLine := st.nextLine) && st0.nextLine <= st.nextLine
    requires FaithfulChange(st0.snapshots[id], c, primary, st.nextLine)
    ensures CartOk(Mutate(st, id, c, primary, ans).0, id)
  {
    var (out, r) := Mutate(st, id, c, primary, ans);
    var before, log := st0.snapshots[id], Log(st0, id);
    MutateEffect(st, id, c, primary, ans);
    hide Mutate, Balanced, SelectedAmount, FaithfulChange, Minted, LogTracks, Skeleton;
    MintedGrows(before.lines, st0.nextLine, st.nextLine);
    if r.Ok? {
      TracksSuccess(log, before, c, r.value, primary, ans.tax.value, ans.geo.value, st.nextLine);
      MintedByIds(c.lines, r.value.lines, st.nextLine);
      WellFormedAfter(before, c, r.value, primary, st.nextLine);
    } else if Log(out, id) != log {
      TracksFailure(log, before, c, primary, Log(out, id), st.nextLine);
    }
  }

  lemma MutateKeeps(st0: Store, st: Store, id: CartId, c: Cart, primary: Event, ans: Answers)
    requires Inv(st0) && id in st0.snapshots
    requires st == st0.(nextLine := st.nextLine) && st0.nextLine <= st.nextLine
    requires FaithfulChange(st0.snapshots[id], c, primary, st.nextLine)
    ensures Inv(Mutate(st, id, c, primary, ans).0)
  {
    var out := Mutate(st, id, c, primary, ans).0;
    assert CartOk(st0, id);
    MutatedCartOk(st0, st, id, c, primary, ans);
    MutateEffect(st, id, c, primary, ans);
    hide Mutate, Balanced, WellFormed, Minted, LogTracks, FaithfulChange, SameContents;
    forall other: CartId | other != id
      ensures SameElsewhere(st0, out, other)
    {
      assert SameElsewhere(st, out, other);
    }
    OthersKept(st0, out, id);
  }

  lemma WellFormedAfter(before: Cart, c: Cart, d: Cart, primary: Event, n: nat)
    requires FaithfulChange(before, c, primary, n) && SameContents(c, d) && Balanced(d)
    ensures WellFormed(d)
  {
  }

  lemma AddIsFaithful(st: Store, before: Cart, line: Line, itemId: string)
    requires WellFormed(before) && Minted(before.lines, st.nextLine)
    requires line.lineId == LineId(st.nextLine)
    ensures FaithfulChange(before, before.(lines := before.lines + [line], version := before.version + 1),
                           ItemAdded(line.lineId, itemId, line.quantity), st.nextLine + 1)
  {
    var c := before.(lines := before.lines + [line], version := before.version + 1);
    forall i | 0 <= i < |before.lines|
      ensures before.lines[i].lineId != line.lineId
    {
      assert IsMinted(before.lines[i].lineId, st.nextLine);
      var k: nat :| k < st.nextLine && before.lines[i].lineId == LineId(k);
      if LineId(k) == LineId(st.nextLine) {
        LineIdInjective(k, st.nextLine);
      }
    }
    MintedGrows(before.lines, st.nextLine, st.nextLine + 1);
    assert IsMinted(line.lineId, st.nextLine + 1);
    forall i | 0 <= i < |c.lines|
      ensures IsMinted(c.lines[i].lineId, st.nextLine + 1)
    {
      assert i < |before.lines| ==> c.lines[i] == before.lines[i];
    }
    SkeletonAppend(before.lines, line);
    hide LineId, Balanced, SelectedAmount, IsMinted;
  }

  lemma UpdateIsFaithful(before: Cart, lineId: string, quantity: nat, n: nat)
    requires WellFormed(before) && Minted(before.lines, n) && FindLine(before.lines, lineId) < |before.lines|
    ensures var i := FindLine(before.lines, lineId);
            var line := before.lines[i].(quantity := quantity, totalMinor := before.lines[i].unitPriceMinor * quantity);
            FaithfulChange(before, before.(lines := before.lines[i := line], version := before.version + 1),
                           ItemQtyUpdated(lineId, quantity), n)
  {
    var i := FindLine(before.lines, lineId);
    var line := before.lines[i].(quantity := quantity, totalMinor := before.lines[i].unitPriceMinor * quantity);
    QuantityMatches(before.lines, i, line);
    var c := before.lines[i := line];
    forall j | 0 <= j < |c|
      ensures c[j].lineId == before.lines[j].lineId && IsMinted(c[j].lineId, n)
    {
      assert IsMinted(before.lines[j].lineId, n);
    }
  }

  lemma RemoveIsFaithful(before: Cart, lineId: string, n: nat)
    requires WellFormed(before) && Minted(before.lines, n)
    ensures FaithfulChange(before, before.(lines := WithoutLine(before.lines, lineId), version := before.version + 1),
                           ItemRemoved(lineId), n)
  {
    DropMatches(before.lines, lineId);
    DropKeepsDistinct(before.lines, lineId);
    var c := WithoutLine(before.lines, lineId);
    forall j | 0 <= j < |c|
      ensures IsMinted(c[j].lineId, n)
    {
      assert c[j] in before.lines;
      var i :| 0 <= i < |before.lines| && before.lines[i] == c[j];
      assert IsMinted(before.lines[i].lineId, n);
    }
  }

  lemma {:induction false} OfferedAmount(methods: seq<FulfillmentMethod>, m: FulfillmentMethod)
    ensures SelectedAmount(methods + [m])
         == match m.selectedOptionId case None => 0 case Some(id) => OptionAmount(m.options, id)
  {
    assert (methods + [m])[|methods|] == m;
  }

  lemma SelectionIsWellFormed(c: Cart, cmd: Command, options: seq<FulfillmentOption>,
                              answer: Result<seq<AppliedDiscount>, ProviderError>, allowed: bool)
    returns (done: Cart)
    requires WellFormed(c) && cmd.SetFulfillment?
    requires ApplyDiscounts(Selected(c, cmd, options), answer).Ok?
    ensures done == ApplyDiscounts(Selected(c, cmd, options), answer).value.(geoOk := allowed, version := c.version + 1)
    ensures WellFormed(done) && done.lines == c.lines && done.cartId == c.cartId && done.status == c.status
    ensures done.adjustmentCodes == c.adjustmentCodes
  {
    var chosen := Selected(c, cmd, options);
    var kept := WithoutMethod(c.methods, cmd.methodType);
    MethodDropped(c.methods, cmd.methodType);
    OfferedAmount(kept, chosen.methods[|chosen.methods| - 1]);
    DiscountsBalance(chosen, answer);
    done := ApplyDiscounts(chosen, answer).value.(geoOk := allowed, version := c.version + 1);
    assert forall i :: 0 <= i < |kept| ==> kept[i] in kept;
    hide SelectedAmount, Subtotal, ApplyDiscounts;
  }

  lemma SelectKeeps(st: Store, id: CartId, cmd: Command, ans: Answers)
    requires Inv(st) && id in st.snapshots && cmd.SetFulfillment?
    ensures Inv(SelectFulfillment(st, id, st.snapshots[id], cmd, ans).0)
  {
    hide Subtotal, ApplyDiscounts, Fold, Unfinished, Minted, Selected, WellFormed;
    var c := st.snapshots[id];
    var (out, r) := SelectFulfillment(st, id, c, cmd, ans);
    assert CartOk(st, id);
    if r.Ok? {
      var done := SelectionIsWellFormed(c, cmd, ans.quotes.value, ans.discounts, ans.geo.value);
      var e := FulfillmentSelected(cmd.methodType, cmd.selectedOptionId, r.value.fulfillmentMinor);
      FoldAppend(Log(st, id), e);
      UnfinishedAppend(Log(st, id), e);
      assert r.value == done && Log(out, id) == Log(st, id) + [e];
      assert LogTracks(Log(out, id), r.value);
      assert CartOk(out, id);
      forall other: CartId | other != id
        ensures SameElsewhere(st, out, other)
      {
      }
      OthersKept(st, out, id);
    }
  }

  lemma StatusKeeps(st: Store, id: CartId, status: CartStatus, e: Event, t: SM.CartEvent)
    requires Inv(st) && id in st.snapshots
    requires (e.MarkedReady? && status.CheckoutReady?) || (e.MarkedCancelled? && status.Cancelled?)
    ensures Inv(ChangeStatus(st, id, st.snapshots[id], status, e, t).0)
  {
    var c := st.snapshots[id];
    var out := ChangeStatus(st, id, c, status, e, t).0;
    assert CartOk(st, id);
    FoldAppend(Log(st, id), e);
    UnfinishedAppend(Log(st, id), e);
    assert Log(out, id) == Log(st, id) + [e];
    hide Fold, Unfinished, Subtotal, SelectedAmount, Minted;
    assert LogTracks(Log(out, id), out.snapshots[id]);
    assert CartOk(out, id);
    forall other: CartId | other != id
      ensures SameElsewhere(st, out, other)
    {
    }
    OthersKept(st, out, id);
  }

  lemma CreateKeeps(st: Store, cmd: Command, ans: Answers)
    requires Inv(st) && cmd.CreateCart? && ValidCommand(cmd)
    ensures Inv(Dispatch(st, cmd, None, ans).0)
  {
    var (out, r) := Dispatch(st, cmd, None, ans);
    var id := st.nextCart;
    assert CartOk(st, id);
    var e := Created(cmd.merchantId, cmd.currency);
    FoldAppend([], e);
    UnfinishedAppend([], e);
    assert [] + [e] == [e] && Log(out, id) == [e];
    assert Skeleton(r.value.lines) == [];
    assert CartOk(out, id);
    forall other: CartId
      ensures CartOk(out, other)
      ensures other in out.snapshots ==> other < out.nextCart
    {
      assert CartOk(st, other);
      if other != id {
        assert Log(out, other) == Log(st, other);
      }
    }
  }

  /** One command, any answers: the invariant holds afterwards, whether the command succeeded or not. */
  lemma DispatchKeeps(st: Store, cmd: Command, cartId: Option<CartId>, ans: Answers)
    requires Inv(st)
    ensures Inv(Dispatch(st, cmd, cartId, ans).0)
  {
    hide Mutate, SelectFulfillment, ChangeStatus, WellFormed, Minted, LogTracks, FaithfulChange;
    if ValidCommand(cmd) {
      match cmd
      case CreateCart(_, _, _) =>
        CreateKeeps(st, cmd, ans);
      case GetCart(_) =>
      case StartCheckout(id, _) =>
        if id in st.snapshots {
          StatusKeeps(st, id, CheckoutReady, MarkedReady, SM.MarkCheckoutReady);
        }
      case CancelCart(id) =>
        if id in st.snapshots {
          StatusKeeps(st, id, Cancelled, MarkedCancelled, SM.Cancel);
        }
      case _ =>
        if cartId.Some? {
          ChangeKeeps(st, cmd, cartId.value, ans);
        }
    }
  }

  lemma ChangeKeeps(st: Store, cmd: Command, id: CartId, ans: Answers)
    requires Inv(st) && IsChange(cmd)
    ensures Inv(Change(st, cmd, id, ans).0)
  {
    hide Mutate, SelectFulfillment, LogTracks, FaithfulChange, FindLine, WithoutLine, LineId;
    if id in st.snapshots && !(cmd.AddItem? && ans.item.Err?) {
      var c := st.snapshots[id];
      assert CartOk(st, id);
      match cmd
      case AddItem(itemId, quantity) =>
        var item := ans.item.value;
        var line := Line(LineId(st.nextLine), item.id, item.title, quantity, item.priceMinor, item.priceMinor * quantity);
        AddIsFaithful(st, c, line, itemId);
        MutateKeeps(st, st.(nextLine := st.nextLine + 1), id,
                    c.(lines := c.lines + [line], version := c.version + 1),
                    ItemAdded(line.lineId, itemId, quantity), ans);
      case UpdateItemQty(lineId, quantity) =>
        var i := FindLine(c.lines, lineId);
        if i < |c.lines| {
          UpdateIsFaithful(c, lineId, quantity, st.nextLine);
          var line := c.lines[i].(quantity := quantity, totalMinor := c.lines[i].unitPriceMinor * quantity);
          MutateKeeps(st, st, id, c.(lines := c.lines[i := line], version := c.version + 1),
                      ItemQtyUpdated(lineId, quantity), ans);
        }
      case RemoveItem(lineId) =>
        RemoveIsFaithful(c, lineId, st.nextLine);
        MutateKeeps(st, st, id, c.(lines := WithoutLine(c.lines, lineId), version := c.version + 1),
                    ItemRemoved(lineId), ans);
      case ApplyAdjustment(code) =>
        if ans.codeAccepted.Ok? {
          var codes := if code in c.adjustmentCodes then c.adjustmentCodes else c.adjustmentCodes + [code];
          AdjustIsFaithful(c, code, st.nextLine);
          MutateKeeps(st, st, id, c.(adjustmentCodes := codes, version := c.version + 1),
                      AdjustmentApplied(code), ans);
        }
      case SetFulfillment(_, _, _, _) =>
        SelectKeeps(st, id, cmd, ans);
    }
  }

  lemma AdjustIsFaithful(before: Cart, code: string, n: nat)
    requires WellFormed(before) && Minted(before.lines, n)
    ensures var codes := if code in before.adjustmentCodes then before.adjustmentCodes
                         else before.adjustmentCodes + [code];
            FaithfulChange(before, before.(adjustmentCodes := codes, version := before.version + 1),
                           AdjustmentApplied(code), n)
  {
  }

  lemma EmptyIsOk()
    ensures Inv(EMPTY)
  {
  }

  // ---- Main results ---------------------------------------------------------------------------------

  /** Checkout stores a re-priced cart under the same identifier; log and sums still agree. */
  lemma CheckoutRepricingKeeps(st: Store, c: Cart)
    requires Inv(st) && c.cartId in st.snapshots
    requires SameContents(st.snapshots[c.cartId], c) && Balanced(c)
    ensures Inv(PutSnapshot(st, c))
    ensures Fold(Log(PutSnapshot(st, c), c.cartId)) == ViewOf(c)
       <==> Fold(Log(st, c.cartId)) == ViewOf(st.snapshots[c.cartId])
  {
    var id := c.cartId;
    var out := PutSnapshot(st, c);
    var before := st.snapshots[id];
    assert CartOk(st, id);
    MintedByIds(before.lines, c.lines, st.nextLine);
    hide Fold, Unfinished, Balanced, SelectedAmount;
    assert WellFormed(c);
    assert CartOk(out, id);
    forall other: CartId | other != id
      ensures SameElsewhere(st, out, other)
    {
    }
    OthersKept(st, out, id);
    assert ViewOf(c) == ViewOf(before);
  }

  /** A status change that the lifecycle is going to refuse, seen from the stores before the command. */
  predicate RefusedStatusChange(st: Store, cmd: Command) {
    match cmd
    case StartCheckout(id, version) =>
      && ValidCommand(cmd) && id in st.snapshots && st.snapshots[id].version == version
      && id in st.states && (st.states[id] == SM.CheckoutReady || st.states[id] == SM.Cancelled)
    case CancelCart(id) => id in st.snapshots && id in st.states && st.states[id] == SM.Cancelled
    case _ => false
  }

  /**
   A failing command changes the snapshots exactly when it starts checkout, at the stored
   version, on a cart that is already ready or cancelled, or cancels a cancelled one: the
   new status has been stored by the time the state machine refuses.
   */
  lemma FailureAndSnapshots(st: Store, cmd: Command, cartId: Option<CartId>, ans: Answers)
    requires Inv(st)
    ensures var (out, r) := Dispatch(st, cmd, cartId, ans);
            r.Err? && out.snapshots != st.snapshots <==> RefusedStatusChange(st, cmd)
  {
    hide Inv, LogTracks, WellFormed, Minted;
    if ValidCommand(cmd) {
      match cmd
      case CreateCart(_, _, _) =>
      case GetCart(_) =>
      case StartCheckout(id, _) =>
        if id in st.snapshots {
          StatusStored(st, id);
        }
      case CancelCart(id) =>
        if id in st.snapshots {
          StatusStored(st, id);
        }
      case _ =>
        if cartId.Some? && cartId.value in st.snapshots && Change(st, cmd, cartId.value, ans).1.Err? {
          FailedChange(st, cmd, cartId.value, ans);
        }
    }
  }

  lemma StatusStored(st: Store, id: CartId)
    requires Inv(st) && id in st.snapshots
    ensures id in st.states && st.snapshots[id].cartId == id
    ensures forall c: Cart :: c.cartId == id && c.version == st.snapshots[id].version + 1
                        ==> st.snapshots[id := c] != st.snapshots
  {
    assert CartOk(st, id);
    forall c: Cart | c.cartId == id && c.version == st.snapshots[id].version + 1
      ensures st.snapshots[id := c] != st.snapshots
    {
      assert st.snapshots[id := c][id] == c;
    }
  }

  // ---- Commands that re-price -----------------------------------------------------------------------

  /** The command's own checks: its item is known, its line is there, its code is accepted. */
  predicate PassesChecks(st: Store, cmd: Command, id: CartId, ans: Answers) {
    && id in st.snapshots
    && match cmd
       case AddItem(_, _) => ans.item.Ok?
       case UpdateItemQty(lineId, _) => FindLine(st.snapshots[id].lines, lineId) < |st.snapshots[id].lines|
       case RemoveItem(_) => true
       case ApplyAdjustment(_) => ans.codeAccepted.Ok?
       case _ => false
  }

  /** The changed cart and the event that a command hands on to re-pricing, and the identifiers left. */
  function Changed(st: Store, cmd: Command, id: CartId, ans: Answers): (r: (Store, Cart, Event))
    requires PassesChecks(st, cmd, id, ans)
    ensures r.0 == st.(nextLine := r.0.nextLine) && r.1.cartId == st.snapshots[id].cartId && IsPrimary(r.2)
    ensures r.1.adjustmentCodes == (if cmd.ApplyAdjustment? && cmd.code !in st.snapshots[id].adjustmentCodes
                                    then st.snapshots[id].adjustmentCodes + [cmd.code]
                                    else st.snapshots[id].adjustmentCodes)
  {
    var c := st.snapshots[id];
    match cmd
    case AddItem(itemId, quantity) =>
      var item := ans.item.value;
      var line := Line(LineId(st.nextLine), item.id, item.title, quantity, item.priceMinor, item.priceMinor * quantity);
      (st.(nextLine := st.nextLine + 1), c.(lines := c.lines + [line], version := c.version + 1),
       ItemAdded(line.lineId, itemId, quantity))
    case UpdateItemQty(lineId, quantity) =>
      var i := FindLine(c.lines, lineId);
      var line := c.lines[i].(quantity := quantity, totalMinor := c.lines[i].unitPriceMinor * quantity);
      (st, c.(lines := c.lines[i := line], version := c.version + 1), ItemQtyUpdated(lineId, quantity))
    case RemoveItem(lineId) =>
      (st, c.(lines := WithoutLine(c.lines, lineId), version := c.version + 1), ItemRemoved(lineId))
    case ApplyAdjustment(code) =>
      var codes := if code in c.adjustmentCodes then c.adjustmentCodes else c.adjustmentCodes + [code];
      (st, c.(adjustmentCodes := codes, version := c.version + 1), AdjustmentApplied(code))
  }

  lemma ChangeIsMutate(st: Store, cmd: Command, id: CartId, ans: Answers)
    requires IsChange(cmd) && PassesChecks(st, cmd, id, ans)
    ensures var (s, c, e) := Changed(st, cmd, id, ans); Change(st, cmd, id, ans) == Mutate(s, id, c, e, ans)
  {
    hide Mutate, FindLine, LineId, WithoutLine;
  }

  lemma ChangeRefused(st: Store, cmd: Command, id: CartId, ans: Answers)
    requires IsChange(cmd) && !cmd.SetFulfillment? && !PassesChecks(st, cmd, id, ans)
    ensures var (out, r) := Change(st, cmd, id, ans);
            out == st && r.Err? && r != Err(InvalidStateTransition)
  {
    hide Mutate, FindLine, LineId, WithoutLine;
  }

  lemma FailedChange(st: Store, cmd: Command, id: CartId, ans: Answers)
    requires Inv(st) && id in st.snapshots && IsChange(cmd)
    requires Change(st, cmd, id, ans).1.Err?
    ensures Change(st, cmd, id, ans).0.snapshots == st.snapshots
  {
    assert CartOk(st, id);
    if !cmd.SetFulfillment? {
      hide Change, Changed, PassesChecks, Inv, CartOk, Mutate;
      if PassesChecks(st, cmd, id, ans) {
        var (s, c, e) := Changed(st, cmd, id, ans);
        ChangeIsMutate(st, cmd, id, ans);
        MutateEffect(s, id, c, e, ans);
      } else {
        ChangeRefused(st, cmd, id, ans);
      }
    } else {
      hide ApplyDiscounts, Selected;
    }
  }

  /**
   The state machine refuses an item or adjustment command exactly when the command passes
   its own checks and an earlier failure left the cart between stages, or it is
   cancelled; from there no such command succeeds, and none of them changes snapshot, log
   or state.
   */
  lemma BlockedExactly(st: Store, cmd: Command, id: CartId, ans: Answers)
    requires Inv(st) && id in st.snapshots && IsChange(cmd) && !cmd.SetFulfillment?
    ensures id in st.states
    ensures var (out, r) := Change(st, cmd, id, ans);
            && (r == Err(InvalidStateTransition) <==> Blocked(st.states[id]) && PassesChecks(st, cmd, id, ans))
            && (Blocked(st.states[id]) ==>
                  r.Err? && out.snapshots == st.snapshots && out.events == st.events && out.states == st.states)
  {
    assert CartOk(st, id);
    hide Change, Changed, PassesChecks, Inv, CartOk, Mutate;
    if PassesChecks(st, cmd, id, ans) {
      var (s, c, e) := Changed(st, cmd, id, ans);
      ChangeIsMutate(st, cmd, id, ans);
      MutateEffect(s, id, c, e, ans);
    } else {
      ChangeRefused(st, cmd, id, ans);
    }
  }

  // ---- Unfinished changes, seen from the outside ------------------------------------------------------

  /** Whether one of the providers that re-pricing consults fails; discounts are asked for only when there are codes. */
  predicate ProvidersFail(codes: seq<string>, ans: Answers) {
    ans.prices.Err? || ans.tax.Err? || (codes != [] && ans.discounts.Err?) || ans.geo.Err?
  }

  /** The command gets past its own checks and the state machine, and so reaches re-pricing. */
  predicate Reprices(st: Store, cmd: Command, id: CartId, ans: Answers) {
    ValidCommand(cmd) && PassesChecks(st, cmd, id, ans) && id in st.states && !Blocked(st.states[id])
  }

  /** The command reaches re-pricing and a provider then fails. */
  predicate Stalls(st: Store, cmd: Command, cartId: Option<CartId>, ans: Answers, id: CartId) {
    && cartId == Some(id) && Reprices(st, cmd, id, ans)
    && ProvidersFail(if cmd.ApplyAdjustment? then st.snapshots[id].adjustmentCodes + [cmd.code]
                     else st.snapshots[id].adjustmentCodes, ans)
  }

  lemma RetaxOutcome(st: Store, id: CartId, c: Cart, ans: Answers)
    requires id in st.states && st.states[id] == SM.Repriced
    ensures Retax(st, id, c, ans).1.Err? <==> ans.tax.Err? || (c.adjustmentCodes != [] && ans.discounts.Err?) || ans.geo.Err?
  {
    hide TotalDiscount;
  }

  lemma MutateOutcome(st: Store, id: CartId, c: Cart, primary: Event, ans: Answers)
    requires id in st.states && !Blocked(st.states[id])
    ensures Mutate(st, id, c, primary, ans).1.Err? <==> ProvidersFail(c.adjustmentCodes, ans)
  {
    hide Retax, ApplyPrices, Subtotal;
    if ans.prices.Ok? {
      var logged := Append(Transition(st, id, SM.ItemChanged).value, id, primary);
      var moved := Append(Transition(logged, id, SM.PricingResolved).value, id, Repriced);
      RetaxOutcome(moved, id, WithPrices(c, ans.prices.value), ans);
    }
  }

  lemma MutateUnfinished(st: Store, id: CartId, c: Cart, primary: Event, ans: Answers)
    requires id in st.states && c.cartId == id && IsPrimary(primary)
    ensures Unfinished(Log(Mutate(st, id, c, primary, ans).0, id))
         == Unfinished(Log(st, id)) + (if !Blocked(st.states[id]) && ProvidersFail(c.adjustmentCodes, ans) then 1 else 0)
  {
    MutateEffect(st, id, c, primary, ans);
    var (out, r) := Mutate(st, id, c, primary, ans);
    if !Blocked(st.states[id]) {
      MutateOutcome(st, id, c, primary, ans);
      if r.Ok? {
        StagesFold(Log(st, id), primary, ans.tax.value, ans.geo.value);
      } else {
        PartialFold(Log(st, id), primary, Log(out, id));
      }
    }
    hide Mutate, Fold, Unfinished, Balanced;
  }

  /** This cart's log has one more unfinished change exactly if it stalled, and no other cart's log changed. */
  ghost predicate Counted(st: Store, out: Store, id: CartId, stalled: bool) {
    && Unfinished(Log(out, id)) == Unfinished(Log(st, id)) + (if stalled then 1 else 0)
    && forall other: CartId :: other != id ==> Log(out, other) == Log(st, other)
  }

  lemma ChangeCounted(st: Store, cmd: Command, id: CartId, ans: Answers)
    requires Inv(st) && IsChange(cmd) && ValidCommand(cmd)
    ensures Counted(st, Change(st, cmd, id, ans).0, id, Stalls(st, cmd, Some(id), ans, id))
  {
    assert CartOk(st, id);
    hide Inv, CartOk, Mutate, Unfinished, Blocked, Changed;
    if cmd.SetFulfillment? {
      if id in st.snapshots {
        SelectUnfinished(st, id, st.snapshots[id], cmd, ans);
      }
    } else if PassesChecks(st, cmd, id, ans) {
      var (s, c, e) := Changed(st, cmd, id, ans);
      assert ProvidersFail(c.adjustmentCodes, ans)
          == ProvidersFail(if cmd.ApplyAdjustment? then st.snapshots[id].adjustmentCodes + [cmd.code]
                           else st.snapshots[id].adjustmentCodes, ans);
      hide Change, PassesChecks, ProvidersFail, Counted;
      ChangeIsMutate(st, cmd, id, ans);
      MutateCounted(st, s, id, c, e, ans);
    } else {
      ChangeRefused(st, cmd, id, ans);
      hide Change, PassesChecks;
    }
  }

  lemma MutateCounted(st0: Store, st: Store, id: CartId, c: Cart, primary: Event, ans: Answers)
    requires id in st.states && c.cartId == id && IsPrimary(primary) && st == st0.(nextLine := st.nextLine)
    ensures var out := Mutate(st, id, c, primary, ans).0;
            Counted(st0, out, id, !Blocked(st0.states[id]) && ProvidersFail(c.adjustmentCodes, ans))
  {
    MutateEffect(st, id, c, primary, ans);
    MutateUnfinished(st, id, c, primary, ans);
    var out := Mutate(st, id, c, primary, ans).0;
    hide Mutate, Unfinished, ProvidersFail;
    forall other: CartId | other != id
      ensures Log(out, other) == Log(st0, other)
    {
      assert SameElsewhere(st, out, other);
    }
  }

  lemma SelectUnfinished(st: Store, id: CartId, c: Cart, cmd: Command, ans: Answers)
    requires cmd.SetFulfillment?
    ensures var out := SelectFulfillment(st, id, c, cmd, ans).0;
            Counted(st, out, id, false)
  {
    hide ApplyDiscounts, Selected, Unfinished;
    var out := SelectFulfillment(st, id, c, cmd, ans).0;
    if out != st {
      var e := Log(out, id)[|Log(st, id)|];
      assert e.FulfillmentSelected? && Log(out, id) == Log(st, id) + [e];
      UnfinishedAppend(Log(st, id), e);
    }
  }

  lemma StatusUnfinished(st: Store, id: CartId, status: CartStatus, e: Event, t: SM.CartEvent, other: CartId)
    requires id in st.snapshots && st.snapshots[id].cartId == id && (e.MarkedReady? || e.MarkedCancelled?)
    ensures Unfinished(Log(ChangeStatus(st, id, st.snapshots[id], status, e, t).0, other)) == Unfinished(Log(st, other))
  {
    UnfinishedAppend(Log(st, id), e);
    hide Unfinished;
    assert Log(ChangeStatus(st, id, st.snapshots[id], status, e, t).0, id) == Log(st, id) + [e];
  }

  lemma CreateUnfinished(st: Store, cmd: Command, cartId: Option<CartId>, ans: Answers, other: CartId)
    requires Inv(st) && cmd.CreateCart? && ValidCommand(cmd)
    ensures Unfinished(Log(Dispatch(st, cmd, cartId, ans).0, other)) == Unfinished(Log(st, other))
  {
    UnfinishedAppend(Log(st, st.nextCart), Created(cmd.merchantId, cmd.currency));
    hide Unfinished, Inv;
  }

  /** A command adds one unfinished change to a cart's log when it stalls on it, and otherwise none. */
  lemma DispatchUnfinished(st: Store, cmd: Command, cartId: Option<CartId>, ans: Answers, id: CartId)
    requires Inv(st)
    ensures Unfinished(Log(Dispatch(st, cmd, cartId, ans).0, id))
         == Unfinished(Log(st, id)) + (if Stalls(st, cmd, cartId, ans, id) then 1 else 0)
  {
    if ValidCommand(cmd) {
      match cmd
      case CreateCart(_, _, _) => CreateUnfinished(st, cmd, cartId, ans, id);
      case GetCart(_) =>
      case StartCheckout(target, _) =>
        assert CartOk(st, target);
        if target in st.snapshots {
          StatusUnfinished(st, target, CheckoutReady, MarkedReady, SM.MarkCheckoutReady, id);
        }
        hide Inv, CartOk, Unfinished, ChangeStatus;
      case CancelCart(target) =>
        assert CartOk(st, target);
        if target in st.snapshots {
          StatusUnfinished(st, target, Cancelled, MarkedCancelled, SM.Cancel, id);
        }
        hide Inv, CartOk, Unfinished, ChangeStatus;
      case _ =>
        if cartId.Some? {
          ChangeCounted(st, cmd, cartId.value, ans);
          hide Change, Unfinished, Inv;
        }
    }
  }
}
