/**
 How failing checkout calls end, over whole runs: which failures give the idempotency key
 back, and which leave it in flight for ever.
 */
module CheckoutOutcomes {
  import opened Wrappers
  import opened CartModel
  import opened Checkout
  import opened CheckoutSafety
  import Idempotency

  /** The world after the first `i` events. */
  function At(policy: Policy, events: seq<Event>, i: nat): World
    requires i <= |events|
  {
    Run(Begin(policy), events[..i])
  }

  lemma AtNext(policy: Policy, events: seq<Event>, i: nat)
    requires i < |events|
    ensures At(policy, events, i + 1) == Next(At(policy, events, i), events[i])
    ensures Inv(At(policy, events, i))
  {
    assert events[..i + 1] == events[..i] + [events[i]];
    RunSnoc(Begin(policy), events[..i], events[i]);
    BeginOk(policy);
    RunKeeps(Begin(policy), events[..i]);
  }

  lemma AtPrefix(policy: Policy, events: seq<Event>, n: nat, i: nat)
    requires i <= n <= |events|
    ensures At(policy, events[..n], i) == At(policy, events, i)
  {
    assert events[..n][..i] == events[..i];
  }

  // ---- Failing calls and their keys -----------------------------------------------------------------

  /** This step fails, or dies in the store, and leaves the key in flight with nobody working on it. */
  predicate StepStrands(w: World, pid: Pid, ans: Answer)
    requires pid in w.procs
  {
    match w.procs[pid].phase
    case Claiming => KeyOf(w.procs[pid].req) !in w.keys && ans.store.FailedAfter?
    case Releasing(_) => ans.store.FailedBefore?
    case Reserving(c, i) => i < |c.lines| && !ans.store.Done?
    case Authorizing(_) => ans.auth.Err?
    case Committing(_, _) => !ans.store.Done?
    case Capturing(_, _, _) => ans.capture.Err?
    case Ordering(_, _, _, _) => !ans.store.Done?
    case Receipting(_, _) => ans.receipt.Err?
    case Finalizing(_, _) => !ans.store.Done?
    case Enqueueing(_, _) => !ans.store.Done?
    case Refusing(_, _) => !ans.store.Done?
    case Completing(_) => ans.store.FailedBefore?
    case _ => false
  }

  /** The event strands this key: such a step, or the death of the call that owns the key. */
  predicate Strands(w: World, e: Event, key: Key) {
    match e
    case Crash(pid) => pid in w.procs && KeyOf(w.procs[pid].req) == key && Owns(w.procs[pid].phase)
    case Step(pid, ans) => pid in w.procs && KeyOf(w.procs[pid].req) == key && StepStrands(w, pid, ans)
    case _ => false
  }

  /** What a step does to its own key and to who owns it, phase by phase. */
  lemma OwnerStep(w: World, pid: Pid, ans: Answer)
    requires pid in w.procs && Owns(w.procs[pid].phase)
    requires KeyOf(w.procs[pid].req) in w.keys && w.keys[KeyOf(w.procs[pid].req)].InFlight?
    ensures var v, key, phase := Next(w, Step(pid, ans)), KeyOf(w.procs[pid].req), w.procs[pid].phase;
            && (key !in v.keys <==> phase.Releasing? && !ans.store.FailedBefore?)
            && (key in v.keys && v.keys[key].Completed? <==> phase.Completing? && !ans.store.FailedBefore?)
            && (StepStrands(w, pid, ans) <==> key in v.keys && v.keys[key].InFlight? && !Owns(v.procs[pid].phase))
            && v.procs == w.procs[pid := v.procs[pid]] && v.procs[pid].req == w.procs[pid].req
            && (forall other :: other != key ==> (other in v.keys <==> other in w.keys) && (other in v.keys ==> v.keys[other] == w.keys[other]))
  {
    hide RepriceForCheckout, ApplyReservation, PolicyRejects, RefusedResult, TotalsOf, KeyOf;
  }

  lemma OutsiderStep(w: World, pid: Pid, ans: Answer)
    requires pid in w.procs && !Owns(w.procs[pid].phase)
    ensures var v, key, phase := Next(w, Step(pid, ans)), KeyOf(w.procs[pid].req), w.procs[pid].phase;
            && v.procs == w.procs[pid := v.procs[pid]] && v.procs[pid].req == w.procs[pid].req
            && (phase.Claiming? && key !in w.keys ==>
                  && (key in v.keys <==> !ans.store.FailedBefore?) && (key in v.keys ==> v.keys[key].InFlight?)
                  && (Owns(v.procs[pid].phase) <==> ans.store.Done?))
            && (!phase.Claiming? || key in w.keys ==> v.keys == w.keys && !Owns(v.procs[pid].phase))
            && (forall other :: other != key ==> (other in v.keys <==> other in w.keys) && (other in v.keys ==> v.keys[other] == w.keys[other]))
  {
    hide ApplyReservation, KeyOf;
  }

  lemma OwnedKeyInFlight(w: World, pid: Pid)
    requires Inv(w) && pid in w.procs && Owns(w.procs[pid].phase)
    ensures var key := KeyOf(w.procs[pid].req);
            && key in w.keys && w.keys[key].InFlight? && !Abandoned(w, key)
            && forall p :: p in w.procs && p != pid && KeyOf(w.procs[p].req) == key ==> !Owns(w.procs[p].phase)
  {
    assert KeyOk(w, KeyOf(w.procs[pid].req));
    hide ByKey, TraceOf, TraceOfResult, WellTraced;
  }

  lemma FreeKeyUnowned(w: World, key: Key)
    requires Inv(w) && key !in w.keys
    ensures forall p :: p in w.procs && KeyOf(w.procs[p].req) == key ==> !Owns(w.procs[p].phase)
  {
    assert KeyOk(w, key);
    hide ByKey, TraceOf, TraceOfResult, WellTraced;
  }

  lemma StrandedByOwner(w: World, pid: Pid, ans: Answer, key: Key)
    requires Inv(w) && pid in w.procs && Owns(w.procs[pid].phase)
    ensures Abandoned(Next(w, Step(pid, ans)), key) <==> Abandoned(w, key) || Strands(w, Step(pid, ans), key)
  {
    OwnedKeyInFlight(w, pid);
    OwnerStep(w, pid, ans);
    hide Next, Inv, KeyOf, StepStrands, Owns;
    var v := Next(w, Step(pid, ans));
    assert forall p :: p in w.procs && p != pid ==> p in v.procs && v.procs[p] == w.procs[p];
  }

  lemma StrandedByOutsider(w: World, pid: Pid, ans: Answer, key: Key)
    requires Inv(w) && pid in w.procs && !Owns(w.procs[pid].phase)
    ensures Abandoned(Next(w, Step(pid, ans)), key) <==> Abandoned(w, key) || Strands(w, Step(pid, ans), key)
  {
    var v, mine := Next(w, Step(pid, ans)), KeyOf(w.procs[pid].req);
    OutsiderStep(w, pid, ans);
    if w.procs[pid].phase.Claiming? && mine !in w.keys {
      FreeKeyUnowned(w, mine);
      hide Next, Inv, KeyOf, Owns;
      assert forall p :: p in w.procs && p != pid ==> p in v.procs && v.procs[p] == w.procs[p];
    } else {
      OutsiderStrandsNot(w, pid, ans);
      hide Next, Inv, KeyOf, Owns, StepStrands;
      assert forall p :: p in w.procs && p != pid ==> p in v.procs && v.procs[p] == w.procs[p];
    }
  }

  lemma OutsiderStrandsNot(w: World, pid: Pid, ans: Answer)
    requires pid in w.procs && !Owns(w.procs[pid].phase)
    requires !w.procs[pid].phase.Claiming? || KeyOf(w.procs[pid].req) in w.keys
    ensures !StepStrands(w, pid, ans)
  {
  }

  lemma StrandedByCrash(w: World, pid: Pid, key: Key)
    requires Inv(w)
    ensures Abandoned(Next(w, Crash(pid)), key) <==> Abandoned(w, key) || Strands(w, Crash(pid), key)
  {
    if pid in w.procs {
      var v := Next(w, Crash(pid));
      if Owns(w.procs[pid].phase) {
        OwnedKeyInFlight(w, pid);
      }
      hide Inv, KeyOf;
      assert forall p :: p in w.procs && p != pid ==> p in v.procs && v.procs[p] == w.procs[p];
    }
  }

  lemma StrandedByArrival(w: World, pid: Pid, req: Request, key: Key)
    requires Inv(w)
    ensures Abandoned(Next(w, Arrive(pid, req)), key) <==> Abandoned(w, key)
  {
    hide Inv, KeyOf, ValidRequest;
    var v := Next(w, Arrive(pid, req));
    assert forall p :: p in w.procs ==> p in v.procs && v.procs[p] == w.procs[p];
  }

  /** One event leaves a key abandoned exactly when the key was abandoned before or the event strands it. */
  lemma StrandedExactly(w: World, e: Event, key: Key)
    requires Inv(w)
    ensures Abandoned(Next(w, e), key) <==> Abandoned(w, key) || Strands(w, e, key)
  {
    match e
    case Step(pid, ans) =>
      if pid in w.procs {
        hide Inv, Next, Abandoned, StepStrands;
        if Owns(w.procs[pid].phase) {
          StrandedByOwner(w, pid, ans, key);
        } else {
          StrandedByOutsider(w, pid, ans, key);
        }
      }
    case Crash(pid) => StrandedByCrash(w, pid, key);
    case Arrive(pid, req) => StrandedByArrival(w, pid, req, key);
    case EditCart(_) =>
    case EditReservations(_) =>
  }

  /**
   Which keys are lost, over whole runs: a key is in flight with nobody working on it
   exactly when some event of the run stranded it.
   */
  lemma {:induction false} AbandonedExactly(policy: Policy, events: seq<Event>, key: Key)
    ensures Abandoned(Run(Begin(policy), events), key)
       <==> exists i | 0 <= i < |events| :: Strands(At(policy, events, i), events[i], key)
    decreases |events|
  {
    hide Strands, Next, Inv;
    assert events[..|events|] == events;
    if events == [] {
      assert key !in Begin(policy).keys;
    } else {
      hide Abandoned;
      var n := |events| - 1;
      var front := events[..n];
      AbandonedExactly(policy, front, key);
      AtNext(policy, events, n);
      StrandedExactly(At(policy, events, n), events[n], key);
      forall i | 0 <= i < n
        ensures At(policy, front, i) == At(policy, events, i) && front[i] == events[i]
      {
        AtPrefix(policy, events, n, i);
      }
      hide At;
      if i :| 0 <= i < n && Strands(At(policy, front, i), front[i], key) {
        assert Strands(At(policy, events, i), events[i], key);
      }
      if i :| 0 <= i < |events| && Strands(At(policy, events, i), events[i], key) {
        assert i < n ==> Strands(At(policy, front, i), front[i], key);
      }
    }
  }

  lemma {:induction false} RunConcat(w: World, a: seq<Event>, b: seq<Event>)
    ensures Run(w, a + b) == Run(Run(w, a), b)
    decreases |a|
  {
    hide Next;
    if a == [] {
      assert a + b == b;
    } else {
      assert (a + b)[1..] == a[1..] + b;
      RunConcat(Next(w, a[0]), a[1..], b);
    }
  }

  /** A stranded key stays in flight for the rest of the run, and nothing more is ever done under it. */
  lemma StrandedForEver(policy: Policy, events: seq<Event>, i: nat, key: Key)
    requires i < |events| && Strands(At(policy, events, i), events[i], key)
    ensures Abandoned(Run(Begin(policy), events), key)
    ensures ByKey(Run(Begin(policy), events).effects, key) == ByKey(At(policy, events, i + 1).effects, key)
  {
    hide Strands, Next, Inv, Abandoned, ByKey;
    AtNext(policy, events, i);
    StrandedExactly(At(policy, events, i), events[i], key);
    assert events == events[..i + 1] + events[i + 1..];
    RunConcat(Begin(policy), events[..i + 1], events[i + 1..]);
    AbandonedStays(At(policy, events, i + 1), events[i + 1..], key);
  }

  /** The settle step of a checkout fails: the cart is missing, foreign or stale, a provider fails, it may not be sold, or it costs another amount. */
  predicate SettleFails(w: World, pid: Pid, ans: Answer)
    requires pid in w.procs
  {
    var req := w.procs[pid].req;
    match w.procs[pid].phase
    case Loading =>
      req.cartId !in w.snapshots
      || (w.snapshots[req.cartId].tenantId.Some? && w.snapshots[req.cartId].tenantId.value != req.tenantId)
      || w.snapshots[req.cartId].version != req.cartVersion
    case Settling(c) => RepriceForCheckout(c, ans).Err? || ans.geo.Err?
    case Saving(c) => !ans.store.Done? || !c.geoOk || req.amountMinor != c.totalMinor
    case _ => false
  }

  /** A call sets out to give its key back exactly when settling its cart fails, and at no other point. */
  lemma ReleasingExactly(w: World, pid: Pid, ans: Answer)
    requires pid in w.procs
    ensures Next(w, Step(pid, ans)).procs[pid].phase.Releasing? <==> SettleFails(w, pid, ans)
  {
    hide RepriceForCheckout, ApplyReservation, ApplyOp, PolicyRejects, RefusedResult, TotalsOf, KeyOf;
  }

  /** This step is a call ending with an error. */
  predicate Fails(w: World, pid: Pid, ans: Answer) {
    && pid in w.procs && !w.procs[pid].phase.Finished?
    && Next(w, Step(pid, ans)).procs[pid].phase.Finished? && Next(w, Step(pid, ans)).procs[pid].phase.outcome.Err?
  }

  /**
   Where a failing call leaves its key: given back, with nothing done under it, exactly
   when the release after a failed settle takes effect or the claim itself never did;
   completed exactly when recording the result took effect; as another call left it when
   that call was in flight; and otherwise in flight for ever.
   */
  lemma FailedCallKey(w: World, pid: Pid, ans: Answer)
    requires Inv(w) && Fails(w, pid, ans)
    ensures var v, key, phase := Next(w, Step(pid, ans)), KeyOf(w.procs[pid].req), w.procs[pid].phase;
            && (key !in v.keys <==> || (phase.Releasing? && !ans.store.FailedBefore?)
                                    || (phase.Claiming? && key !in w.keys && ans.store.FailedBefore?))
            && (key !in v.keys ==> ByKey(v.effects, key) == [])
            && (key in v.keys && v.keys[key].Completed? <==> phase.Completing? && ans.store.FailedAfter?)
            && (phase.Claiming? && key in w.keys ==> v.keys == w.keys)
            && (key in v.keys && v.keys[key].InFlight? && !(phase.Claiming? && key in w.keys) <==> StepStrands(w, pid, ans))
            && (StepStrands(w, pid, ans) ==> Abandoned(v, key))
  {
    var v, key, phase := Next(w, Step(pid, ans)), KeyOf(w.procs[pid].req), w.procs[pid].phase;
    NextKeeps(w, Step(pid, ans));
    assert KeyOk(v, key) && KeyOk(w, key) && ProcOk(w, pid);
    StrandedExactly(w, Step(pid, ans), key);
    FailingPhases(w, pid, ans);
    if Owns(phase) {
      OwnedKeyInFlight(w, pid);
      OwnerStep(w, pid, ans);
    } else {
      OutsiderStep(w, pid, ans);
    }
    hide Next, Inv, ByKey, TraceOf, TraceOfResult, WellTraced, PhaseOk, KeyOf, Abandoned;
  }

  /** The phases in which a call can end with an error, and the store outcome of the last of them. */
  lemma FailingPhases(w: World, pid: Pid, ans: Answer)
    requires Fails(w, pid, ans)
    ensures var phase := w.procs[pid].phase;
            && (phase.Claiming? || Owns(phase))
            && (phase.Completing? ==> !ans.store.Done?)
            && (phase.Claiming? ==> var found := Idempotency.Current(w.keys, KeyOf(w.procs[pid].req));
                  found == Some(Idempotency.InFlight) || (found.None? && !ans.store.Done?))
  {
    hide RepriceForCheckout, ApplyReservation, ApplyOp, PolicyRejects, RefusedResult, TotalsOf, KeyOf;
  }

  const LINE := Line("li_0", "sku", "Item", 1, 5, 5)
  const CART := Cart(0, 2, "EUR", "m", None, [LINE], 5, 0, 5, true, Draft, [], 0, [], [], 0)
  const REQUEST := Request("t", "m", 0, 2, "EUR", None, 5, "token", "key")

  function Replying(store: StoreOutcome): Answer {
    Answer(store, Ok([]), Ok(0), Ok([]), Ok(true), Ok((true, "ref")), Ok(true), Ok("receipt"))
  }

  lemma SampleClaimed(policy: Policy) returns (events: seq<Event>, w: World)
    ensures w == Run(Begin(policy), events) && |events| == 3
    ensures w.procs == map[0 := Proc(REQUEST, Loading)] && w.keys == map[KeyOf(REQUEST) := Idempotency.InFlight]
    ensures w.snapshots == map[0 := CART] && w.effects == []
  {
    var w1 := Next(Begin(policy), EditCart(CART));
    var w2 := Next(w1, Arrive(0, REQUEST));
    assert w2.procs == map[0 := Proc(REQUEST, Claiming)] && w2.snapshots == map[0 := CART];
    w := Next(w2, Step(0, Replying(Done)));
    assert w.procs == map[0 := Proc(REQUEST, Loading)];
    hide Next;
    var one := [EditCart(CART)];
    var two := one + [Arrive(0, REQUEST)];
    events := two + [Step(0, Replying(Done))];
    RunSnoc(Begin(policy), [], EditCart(CART));
    assert [] + [EditCart(CART)] == one;
    RunSnoc(Begin(policy), one, Arrive(0, REQUEST));
    RunSnoc(Begin(policy), two, Step(0, Replying(Done)));
  }

  lemma SampleSettles(w3: World) returns (w4: World, w5: World)
    requires w3.procs == map[0 := Proc(REQUEST, Loading)] && w3.snapshots == map[0 := CART] && w3.effects == []
    ensures w4 == Next(w3, Step(0, Replying(Done))) && w5 == Next(w4, Step(0, Replying(Done)))
    ensures w5.procs == map[0 := Proc(REQUEST, Saving(CART))] && w5.keys == w3.keys && w5.effects == []
  {
    w4 := Next(w3, Step(0, Replying(Done)));
    assert w4.procs == map[0 := Proc(REQUEST, Settling(CART))] && w4.keys == w3.keys && w4.effects == [];
    SampleReprices();
    w5 := Next(w4, Step(0, Replying(Done)));
  }

  lemma SampleFails(w5: World) returns (w6: World, end: World)
    requires w5.procs == map[0 := Proc(REQUEST, Saving(CART))] && w5.effects == []
    ensures w6 == Next(w5, Step(0, Replying(Done))) && end == Next(w6, Step(0, Replying(FailedBefore)))
    ensures end.procs == map[0 := Proc(REQUEST, Finished(Err(Store)))] && end.keys == w5.keys && end.effects == []
  {
    w6 := Next(w5, Step(0, Replying(Done)));
    assert w6.procs == map[0 := Proc(REQUEST, Reserving(CART, 0))] && w6.keys == w5.keys && w6.effects == [];
    end := Next(w6, Step(0, Replying(FailedBefore)));
  }

  /**
   A reservation that fails before any payment does not give the key back: the call ends
   with an error, nothing was done under the key, and yet it is in flight for ever.
   */
  lemma FailedReservationStrands(policy: Policy) returns (events: seq<Event>, end: World)
    ensures end == Run(Begin(policy), events) && |events| == 7
    ensures 0 in end.procs && end.procs[0] == Proc(REQUEST, Finished(Err(Store)))
    ensures Abandoned(end, KeyOf(REQUEST)) && ByKey(end.effects, KeyOf(REQUEST)) == []
  {
    var ok, fail := Step(0, Replying(Done)), Step(0, Replying(FailedBefore));
    var three, w3 := SampleClaimed(policy);
    var w4, w5 := SampleSettles(w3);
    var w6;
    w6, end := SampleFails(w5);
    hide Next;
    events := three + [ok] + [ok] + [ok] + [fail];
    RunSnoc(Begin(policy), three, ok);
    RunSnoc(Begin(policy), three + [ok], ok);
    RunSnoc(Begin(policy), three + [ok] + [ok], ok);
    RunSnoc(Begin(policy), three + [ok] + [ok] + [ok], fail);
  }

  lemma SampleReprices()
    ensures RepriceForCheckout(CART, Replying(Done)) == Ok(CART)
  {
    assert Subtotal([LINE][..0]) == 0 && [LINE][..0] == [];
    assert Subtotal([LINE]) == 5;
  }
}
