/** The cart and checkout lifecycles. */
module StateMachines {
  import opened Wrappers

  datatype CartState = CartCreated | ItemsMutated | Repriced | Retaxed | GeoChecked | CheckoutReady | Cancelled

  datatype CartEvent = ItemChanged | PricingResolved | TaxResolved | GeoValidated | MarkCheckoutReady | Cancel

  function NextCartState(current: CartState, event: CartEvent): Option<CartState> {
    match (current, event)
    case (CartCreated, ItemChanged) => Some(ItemsMutated)
    case (ItemsMutated, ItemChanged) => Some(ItemsMutated)
    case (ItemsMutated, PricingResolved) => Some(Repriced)
    case (Repriced, TaxResolved) => Some(Retaxed)
    case (Retaxed, GeoValidated) => Some(GeoChecked)
    case (CartCreated, MarkCheckoutReady) => Some(CheckoutReady)
    case (ItemsMutated, MarkCheckoutReady) => Some(CheckoutReady)
    case (Repriced, MarkCheckoutReady) => Some(CheckoutReady)
    case (Retaxed, MarkCheckoutReady) => Some(CheckoutReady)
    case (GeoChecked, MarkCheckoutReady) => Some(CheckoutReady)
    case (GeoChecked, ItemChanged) => Some(ItemsMutated)
    case (CheckoutReady, ItemChanged) => Some(ItemsMutated)
    case (CartCreated, Cancel) => Some(Cancelled)
    case (ItemsMutated, Cancel) => Some(Cancelled)
    case (Repriced, Cancel) => Some(Cancelled)
    case (Retaxed, Cancel) => Some(Cancelled)
    case (GeoChecked, Cancel) => Some(Cancelled)
    case (CheckoutReady, Cancel) => Some(Cancelled)
    case _ => None
  }

  datatype CheckoutState =
    | Received | Validated | Priced | Taxed | GeoPassed | PaymentAuthorized | Committed
    | ReceiptGenerated | Completed | Rejected | AuthFailed | CommitFailed | TimedOut

  datatype CheckoutEvent =
    | ValidatePassed | PriceResolved | TaxFound | GeoOk | Authorized | CommitDone
    | ReceiptDone | Complete | Reject | PaymentFailed | CommitBroke | Timeout

  function NextCheckoutState(current: CheckoutState, event: CheckoutEvent): Option<CheckoutState> {
    match (current, event)
    case (Received, ValidatePassed) => Some(Validated)
    case (Validated, PriceResolved) => Some(Priced)
    case (Priced, TaxFound) => Some(Taxed)
    case (Taxed, GeoOk) => Some(GeoPassed)
    case (GeoPassed, Authorized) => Some(PaymentAuthorized)
    case (PaymentAuthorized, CommitDone) => Some(Committed)
    case (Committed, ReceiptDone) => Some(ReceiptGenerated)
    case (ReceiptGenerated, Complete) => Some(Completed)
    case (Received, Reject) => Some(Rejected)
    case (Validated, Reject) => Some(Rejected)
    case (Priced, Reject) => Some(Rejected)
    case (GeoPassed, PaymentFailed) => Some(AuthFailed)
    case (PaymentAuthorized, CommitBroke) => Some(CommitFailed)
    case (_, Timeout) => Some(TimedOut)
    case _ => None
  }

  /** Fold of events; an impossible one stops the machine. */
  function RunCheckout(s: CheckoutState, events: seq<CheckoutEvent>): Option<CheckoutState>
    decreases |events|
  {
    if events == [] then Some(s) else
      match NextCheckoutState(s, events[0])
      case None => None
      case Some(next) => RunCheckout(next, events[1..])
  }

  function Position(s: CheckoutState): nat {
    match s
    case Received => 0 case Validated => 1 case Priced => 2 case Taxed => 3 case GeoPassed => 4
    case PaymentAuthorized => 5 case Committed => 6 case ReceiptGenerated => 7 case Completed => 8
    case _ => 9
  }

  /** The events that lead to completion, in the one order that exists. */
  const COMPLETION := [ValidatePassed, PriceResolved, TaxFound, GeoOk, Authorized, CommitDone, ReceiptDone, Complete]

  lemma OneStep(s: CheckoutState, e: CheckoutEvent)
    requires NextCheckoutState(s, e).Some? && Position(NextCheckoutState(s, e).value) <= 8
    ensures Position(s) < 8 && e == COMPLETION[Position(s)]
    ensures Position(NextCheckoutState(s, e).value) == Position(s) + 1
  {
  }

  lemma {:induction false} PositionNeverReturns(s: CheckoutState, events: seq<CheckoutEvent>)
    requires RunCheckout(s, events) == Some(Completed)
    ensures Position(s) <= 8
    decreases |events|
  {
    if events != [] {
      PositionNeverReturns(NextCheckoutState(s, events[0]).value, events[1..]);
      OneStep(s, events[0]);
    }
  }

  /**
   A checkout completes along exactly one path: any event sequence that ends in
   Completed is the rest of the completion order from where it started.
   */
  lemma {:induction false} CompletionIsUnique(s: CheckoutState, events: seq<CheckoutEvent>)
    requires RunCheckout(s, events) == Some(Completed)
    ensures Position(s) <= 8 && events == COMPLETION[Position(s)..]
    decreases |events|
  {
    PositionNeverReturns(s, events);
    if events != [] {
      var next := NextCheckoutState(s, events[0]).value;
      PositionNeverReturns(next, events[1..]);
      OneStep(s, events[0]);
      CompletionIsUnique(next, events[1..]);
      hide NextCheckoutState;
      var p := Position(s);
      assert events == [events[0]] + events[1..];
      assert COMPLETION[p..] == [COMPLETION[p]] + COMPLETION[p + 1..];
    }
  }

  lemma {:induction false} RunThen(s: CheckoutState, events: seq<CheckoutEvent>, e: CheckoutEvent)
    ensures RunCheckout(s, events + [e]) == match RunCheckout(s, events)
                                            case None => None
                                            case Some(t) => NextCheckoutState(t, e)
    decreases |events|
  {
    hide NextCheckoutState;
    if events == [] {
      assert events + [e] == [e] && [e][1..] == [];
    } else {
      assert (events + [e])[1..] == events[1..] + [e];
      if NextCheckoutState(s, events[0]).Some? {
        RunThen(NextCheckoutState(s, events[0]).value, events[1..], e);
      }
    }
  }

  /** A checkout on its way is where its events, the first of the completion order, have brought it. */
  lemma {:induction false} ReachedExactly(events: seq<CheckoutEvent>, s: CheckoutState)
    requires Position(s) <= 8
    ensures RunCheckout(Received, events) == Some(s) <==> events == COMPLETION[..Position(s)]
    decreases |events|
  {
    if events != [] {
      var front, e := events[..|events| - 1], events[|events| - 1];
      assert events == front + [e];
      RunThen(Received, front, e);
      var t := RunCheckout(Received, front);
      if t.Some? && Position(t.value) <= 8 {
        ReachedExactly(front, t.value);
        OnlyStep(t.value, e, s);
        assert Position(t.value) < 8 ==>
            COMPLETION[..Position(t.value) + 1] == COMPLETION[..Position(t.value)] + [COMPLETION[Position(t.value)]];
      } else if t.Some? {
        FailedStaysOff(t.value, e);
      }
      if events == COMPLETION[..Position(s)] {
        var p := Position(s) - 1;
        assert front == COMPLETION[..p] && e == COMPLETION[p];
        ReachedExactly(front, At(p));
        OnlyStep(At(p), e, s);
      }
    }
  }

  /** The state at this place of the way to completion. */
  function At(p: nat): (s: CheckoutState)
    requires p <= 8
    ensures Position(s) == p
  {
    match p
    case 0 => Received case 1 => Validated case 2 => Priced case 3 => Taxed case 4 => GeoPassed
    case 5 => PaymentAuthorized case 6 => Committed case 7 => ReceiptGenerated case _ => Completed
  }

  lemma OnlyStep(t: CheckoutState, e: CheckoutEvent, s: CheckoutState)
    requires Position(t) <= 8 && Position(s) <= 8
    ensures NextCheckoutState(t, e) == Some(s) <==> Position(t) < 8 && e == COMPLETION[Position(t)] && Position(s) == Position(t) + 1
  {
  }

  lemma FailedStaysOff(t: CheckoutState, e: CheckoutEvent)
    requires Position(t) == 9
    ensures NextCheckoutState(t, e) == if e.Timeout? then Some(TimedOut) else None
  {
  }

  /**
   The failures, exactly: a checkout is rejected by a Reject before it is taxed, and by
   nothing else; it fails authorization only right after the address check, and fails to
   commit only right after the authorization.
   */
  lemma FailedExactly(events: seq<CheckoutEvent>)
    ensures RunCheckout(Received, events) == Some(Rejected) <==>
              exists k :: 0 <= k <= 2 && events == COMPLETION[..k] + [CheckoutEvent.Reject]
    ensures RunCheckout(Received, events) == Some(AuthFailed) <==> events == COMPLETION[..4] + [PaymentFailed]
    ensures RunCheckout(Received, events) == Some(CommitFailed) <==> events == COMPLETION[..5] + [CommitBroke]
  {
    if events != [] {
      var front, e := events[..|events| - 1], events[|events| - 1];
      assert events == front + [e];
      RunThen(Received, front, e);
      var t := RunCheckout(Received, front);
      hide RunCheckout;
      if t.Some? && Position(t.value) <= 8 {
        ReachedExactly(front, t.value);
      }
      forall k | 0 <= k <= 5 && front == COMPLETION[..k]
        ensures t == Some(At(k))
      {
        ReachedExactly(front, At(k));
      }
      forall k | 0 <= k <= 5
        ensures events == COMPLETION[..k] + [e] <==> front == COMPLETION[..k]
      {
        assert (COMPLETION[..k] + [e])[..|COMPLETION[..k] + [e]| - 1] == COMPLETION[..k];
      }
    }
  }
}
