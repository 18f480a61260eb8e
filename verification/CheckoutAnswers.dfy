/**
 What decides a checkout: the policy's verdict and the providers' answers, read off the
 events of a run, against the result that is recorded and the effects that are made.
 */
module CheckoutAnswers {
  import opened Wrappers
  import opened CartModel
  import opened Checkout
  import opened CheckoutSafety
  import opened CheckoutOutcomes
  import Idempotency

  /** One deciding answer: the policy's on a cart, then payment, capture and receipt. */
  datatype Told =
    | Judged(refused: bool, cart: Cart)
    | Authorized(payment: Result<(bool, string), ProviderError>)
    | Charged(capture: Result<bool, ProviderError>)
    | Receipted(text: Result<string, ProviderError>)

  predicate IsUpper(c: char) {
    'A' <= c <= 'Z'
  }

  /** The same text but for the case of its ASCII letters. */
  predicate SameButCase(a: string, b: string) {
    |a| == |b| && forall i :: 0 <= i < |a| ==>
      a[i] == b[i]
      || (IsUpper(a[i]) && b[i] as int == a[i] as int + 32)
      || (IsUpper(b[i]) && a[i] as int == b[i] as int + 32)
  }

  /** Nothing in the policy speaks against this payment. */
  predicate Permitted(policy: Policy, req: Request, total: int) {
    && (policy.maxTotalMinor.Some? ==> total <= policy.maxTotalMinor.value)
    && (req.country.Some? ==> forall b :: b in policy.blockedCountries ==> !SameButCase(b, req.country.value))
    && (policy.requireReference ==> req.token != "")
  }

  /** A request with everything a checkout needs. */
  predicate Usable(req: Request) {
    && |req.tenantId| > 0 && |req.merchantId| > 0 && |req.currency| == 3 && |req.idempotencyKey| > 0 && |req.token| > 0
    && req.cartVersion >= 1 && 0 <= req.amountMinor
  }

  lemma ValidIsUsable(req: Request)
    ensures ValidRequest(req) <==> Usable(req)
  {
  }

  /** What a call in this phase is told by its next step. */
  function Say(policy: Policy, req: Request, phase: Phase, ans: Answer): seq<Told> {
    match phase
    case Reserving(c, i) => if i < |c.lines| then [] else [Judged(!Permitted(policy, req, c.totalMinor), c)]
    case Authorizing(_) => [Authorized(ans.auth)]
    case Capturing(_, _, _) => [Charged(ans.capture)]
    case Receipting(_, _) => [Receipted(ans.receipt)]
    case _ => []
  }

  function Heard(w: World, e: Event, key: Key): seq<Told> {
    if e.Step? && e.pid in w.procs && KeyOf(w.procs[e.pid].req) == key
    then Say(w.policy, w.procs[e.pid].req, w.procs[e.pid].phase, e.answer) else []
  }

  /** Everything calls under this key were told in the run, in order. */
  function Transcript(policy: Policy, events: seq<Event>, key: Key): seq<Told> {
    if events == [] then []
    else
      var front := events[..|events| - 1];
      Transcript(policy, front, key) + Heard(Run(Begin(policy), front), events[|events| - 1], key)
  }

  /** The result names the amounts of this cart. */
  predicate NamesAmounts(r: TransactionResult, c: Cart) {
    && r.totals.subtotalMinor == c.subtotalMinor && r.totals.taxMinor == c.taxMinor
    && r.totals.discountMinor == c.discountMinor && r.totals.fulfillmentMinor == c.fulfillmentMinor
    && r.totals.totalMinor == c.totalMinor
  }

  /** These answers, and no others, lead to this result. */
  predicate Explains(told: seq<Told>, r: TransactionResult) {
    && told != [] && told[0].Judged? && NamesAmounts(r, told[0].cart)
    && match r.status
       case Rejected =>
         told[0].refused && told[1..] == []
         && r.paymentReference.None? && r.receipt.None? && r.orderId.None? && r.paymentState.PaymentFailed?
       case AuthFailed =>
         !told[0].refused && r.paymentReference.Some? && told[1..] == [Authorized(Ok((false, r.paymentReference.value)))]
         && r.receipt.None? && r.orderId.None? && r.paymentState.PaymentFailed?
       case Completed =>
         !told[0].refused && r.paymentReference.Some? && r.receipt.Some? && r.orderId.Some?
         && told[1..] == [Authorized(Ok((true, r.paymentReference.value))), Charged(Ok(r.paymentState.Captured?)),
                          Receipted(Ok(r.receipt.value))]
  }

  /** What the call that owns its key has been told on its way to this phase. */
  predicate Backs(told: seq<Told>, phase: Phase) {
    match phase
    case Authorizing(c) => told == [Judged(false, c)]
    case Committing(c, reference) => told == [Judged(false, c), Authorized(Ok((true, reference)))]
    case Capturing(c, reference, _) => told == [Judged(false, c), Authorized(Ok((true, reference)))]
    case Ordering(c, reference, _, captured) =>
      told == [Judged(false, c), Authorized(Ok((true, reference))), Charged(Ok(captured))]
    case Receipting(c, r) =>
      && r.status.Completed? && r.paymentReference.Some? && r.orderId.Some? && NamesAmounts(r, c)
      && told == [Judged(false, c), Authorized(Ok((true, r.paymentReference.value))), Charged(Ok(r.paymentState.Captured?))]
    case Finalizing(_, r) => Explains(told, r)
    case Enqueueing(_, r) => Explains(told, r)
    case Refusing(_, r) => Explains(told, r)
    case Completing(r) => Explains(told, r)
    case _ => told == []
  }

  lemma SameIsSame(a: string, b: string)
    ensures SameIgnoringCase(a, b) <==> SameButCase(a, b)
  {
  }

  lemma PolicyIsPermission(policy: Policy, req: Request, total: int)
    ensures PolicyRejects(policy, req, total) <==> !Permitted(policy, req, total)
  {
    if req.country.Some? {
      forall b: string {
        SameIsSame(b, req.country.value);
      }
    }
    hide SameIgnoringCase, SameButCase;
  }

  /** Each step of an owning call is backed by what the call has been told, its own answer included. */
  ghost predicate MoveBacked(m: Move, told: seq<Told>) {
    && (Owns(m.phase) ==> Backs(told, m.phase))
    && (m.op.Release? ==> told == []) && !m.op.Claim?
    && (m.op.Complete? ==> Explains(told, m.op.result))
    && (m.effect.Some? && m.effect.value.Commit? ==> Authorized(Ok((true, m.effect.value.reference))) in told)
  }

  /** The steps that hear an answer. */
  lemma TalkingMove(policy: Policy, req: Request, phase: Phase, claimed: Option<Idempotency.State<TransactionResult>>,
                    snapshot: Option<Cart>, ans: Answer, newId: nat, told: seq<Told>)
    requires phase.Reserving? || phase.Authorizing? || phase.Capturing? || phase.Receipting?
    requires Backs(told, phase)
    ensures MoveBacked(Advance(policy, req, phase, claimed, snapshot, ans, newId), told + Say(policy, req, phase, ans))
  {
    hide PolicyRejects, Permitted;
    match phase
    case Reserving(c, i) =>
      PolicyIsPermission(policy, req, c.totalMinor);
      assert [Judged(!Permitted(policy, req, c.totalMinor), c)][1..] == [];
    case Authorizing(c) =>
      assert (told + [Authorized(ans.auth)])[1..] == [Authorized(ans.auth)];
    case Capturing(_, _, _) =>
    case Receipting(c, r) =>
      assert (told + [Receipted(ans.receipt)])[1..]
          == [Authorized(Ok((true, r.paymentReference.value))), Charged(Ok(r.paymentState.Captured?)), Receipted(ans.receipt)];
  }

  /** And the ones that do not. */
  lemma QuietMove(policy: Policy, req: Request, phase: Phase, claimed: Option<Idempotency.State<TransactionResult>>,
                  snapshot: Option<Cart>, ans: Answer, newId: nat, told: seq<Told>)
    requires !phase.Reserving? && !phase.Authorizing? && !phase.Capturing? && !phase.Receipting?
    requires Owns(phase) && Backs(told, phase)
    ensures MoveBacked(Advance(policy, req, phase, claimed, snapshot, ans, newId), told)
    ensures Say(policy, req, phase, ans) == []
  {
    hide PolicyRejects, Permitted, RepriceForCheckout, Explains;
  }

  lemma MoveTold(policy: Policy, req: Request, phase: Phase, claimed: Option<Idempotency.State<TransactionResult>>,
                 snapshot: Option<Cart>, ans: Answer, newId: nat, told: seq<Told>)
    requires Owns(phase) && Backs(told, phase)
    ensures MoveBacked(Advance(policy, req, phase, claimed, snapshot, ans, newId), told + Say(policy, req, phase, ans))
  {
    hide *;
    if phase.Reserving? || phase.Authorizing? || phase.Capturing? || phase.Receipting? {
      TalkingMove(policy, req, phase, claimed, snapshot, ans, newId, told);
    } else {
      QuietMove(policy, req, phase, claimed, snapshot, ans, newId, told);
      assert told + [] == told;
    }
  }

  // ---- Whole runs ---------------------------------------------------------------------------------

  /** Every commit made under the key names the reference of an approval that was told. */
  predicate CommitsBacked(told: seq<Told>, trace: seq<Effect>) {
    forall e :: e in trace && e.Commit? ==> Authorized(Ok((true, e.reference))) in told
  }

  ghost predicate ToldOk(w: World, key: Key, told: seq<Told>) {
    && (forall p :: p in w.procs && KeyOf(w.procs[p].req) == key && Owns(w.procs[p].phase) ==> Backs(told, w.procs[p].phase))
    && (key !in w.keys ==> told == [])
    && (key in w.keys && w.keys[key].Completed? ==> Explains(told, w.keys[key].result))
    && CommitsBacked(told, ByKey(w.effects, key))
  }

  lemma BackedLater(told: seq<Told>, more: seq<Told>, trace: seq<Effect>, e: Option<Effect>)
    requires CommitsBacked(told, trace)
    requires e.Some? && e.value.Commit? ==> Authorized(Ok((true, e.value.reference))) in told + more
    ensures CommitsBacked(told + more, if e.Some? then trace + [e.value] else trace)
  {
  }

  /** A step of the call that owns the key. */
  lemma OwnerTold(w: World, pid: Pid, ans: Answer, told: seq<Told>)
    requires Inv(w) && pid in w.procs && Owns(w.procs[pid].phase) && ToldOk(w, KeyOf(w.procs[pid].req), told)
    ensures ToldOk(Next(w, Step(pid, ans)), KeyOf(w.procs[pid].req),
                   told + Heard(w, Step(pid, ans), KeyOf(w.procs[pid].req)))
  {
    var p := w.procs[pid];
    var key, m, v := KeyOf(p.req), MoveOf(w, pid, ans), Next(w, Step(pid, ans));
    OwnedKeyInFlight(w, pid);
    MoveTold(w.policy, p.req, p.phase, Idempotency.Current(w.keys, key),
             if p.req.cartId in w.snapshots then Some(w.snapshots[p.req.cartId]) else None, ans, w.nextId, told);
    hide Advance, Say, Backs, Explains, Owns, ApplyReservation, KeyOf, Inv, CommitsBacked;
    BackedLater(told, Heard(w, Step(pid, ans), key), ByKey(w.effects, key), m.effect);
    if m.effect.Some? {
      ByKeyAppend(w.effects, key, m.effect.value, key);
    }
    hide ByKey, MoveOf;
    assert forall q :: q in v.procs && q != pid ==> q in w.procs && v.procs[q] == w.procs[q];
  }

  /** A step of a call that does not own its key hears nothing. */
  lemma OutsiderTold(w: World, pid: Pid, ans: Answer, told: seq<Told>)
    requires Inv(w) && pid in w.procs && !Owns(w.procs[pid].phase) && ToldOk(w, KeyOf(w.procs[pid].req), told)
    ensures ToldOk(Next(w, Step(pid, ans)), KeyOf(w.procs[pid].req), told)
    ensures Heard(w, Step(pid, ans), KeyOf(w.procs[pid].req)) == []
  {
    var p := w.procs[pid];
    var key := KeyOf(p.req);
    OutsiderMoves(w.policy, p.req, p.phase, Idempotency.Current(w.keys, key),
                  if p.req.cartId in w.snapshots then Some(w.snapshots[p.req.cartId]) else None, ans, w.nextId);
    hide Advance, Explains, ApplyReservation, KeyOf, Inv, CommitsBacked, ByKey;
  }

  /** Everything this key's calls have and did is the same in both worlds. */
  ghost predicate SameUnder(w: World, v: World, key: Key) {
    && (forall p :: p in v.procs && KeyOf(v.procs[p].req) == key ==> p in w.procs && v.procs[p] == w.procs[p])
    && (key in v.keys <==> key in w.keys) && (key in w.keys ==> v.keys[key] == w.keys[key])
    && ByKey(v.effects, key) == ByKey(w.effects, key)
  }

  lemma MovedElsewhere(w: World, pid: Pid, m: Move, key: Key)
    requires pid in w.procs && KeyOf(w.procs[pid].req) != key
    ensures SameUnder(w, Apply(w, pid, m), key)
  {
    if m.effect.Some? {
      ByKeyAppend(w.effects, KeyOf(w.procs[pid].req), m.effect.value, key);
      assert ByKey(w.effects, key) + [] == ByKey(w.effects, key);
    }
    hide ApplyReservation, KeyOf, ByKey;
  }

  lemma ElsewhereSame(w: World, pid: Pid, ans: Answer, key: Key)
    requires pid in w.procs && KeyOf(w.procs[pid].req) != key
    ensures SameUnder(w, Next(w, Step(pid, ans)), key)
  {
    hide MoveOf, Apply, SameUnder, KeyOf;
    MovedElsewhere(w, pid, MoveOf(w, pid, ans), key);
  }

  /** A step under another key changes nothing here. */
  lemma ElsewhereTold(w: World, pid: Pid, ans: Answer, key: Key, told: seq<Told>)
    requires pid in w.procs && KeyOf(w.procs[pid].req) != key && ToldOk(w, key, told)
    ensures ToldOk(Next(w, Step(pid, ans)), key, told)
  {
    ElsewhereSame(w, pid, ans, key);
    hide Next, Backs, Explains, KeyOf, CommitsBacked, ByKey, Owns;
  }

  lemma StepTold(w: World, e: Event, key: Key, told: seq<Told>)
    requires Inv(w) && ToldOk(w, key, told)
    ensures ToldOk(Next(w, e), key, told + Heard(w, e, key))
  {
    assert told + [] == told;
    if e.Step? && e.pid in w.procs {
      hide Next, ToldOk, Inv, KeyOf;
      if KeyOf(w.procs[e.pid].req) != key {
        ElsewhereTold(w, e.pid, e.answer, key, told);
      } else if Owns(w.procs[e.pid].phase) {
        OwnerTold(w, e.pid, e.answer, told);
      } else {
        OutsiderTold(w, e.pid, e.answer, told);
      }
    } else {
      hide Backs, Explains, ByKey, CommitsBacked, ValidRequest, KeyOf, Apply, MoveOf;
    }
  }

  lemma {:induction false} RunTold(policy: Policy, events: seq<Event>, key: Key)
    ensures ToldOk(Run(Begin(policy), events), key, Transcript(policy, events, key))
    decreases |events|
  {
    if events == [] {
      assert ByKey([], key) == [];
    } else {
      var n := |events| - 1;
      assert events[..|events|] == events;
      AtNext(policy, events, n);
      RunTold(policy, events[..n], key);
      hide Next, Inv, ToldOk, Heard;
      StepTold(At(policy, events, n), events[n], key, Transcript(policy, events[..n], key));
    }
  }

  /** Two calls share a key exactly when tenant, merchant and idempotency key are all the same. */
  lemma SharedKeyExactly(a: Request, b: Request)
    ensures KeyOf(a) == KeyOf(b)
       <==> a.tenantId == b.tenantId && a.merchantId == b.merchantId && a.idempotencyKey == b.idempotencyKey
  {
  }

  // ---- Main results ---------------------------------------------------------------------------------

  /** Event `i` put the cart of a call under this key to the policy, and it was refused or not. */
  predicate JudgedAt(policy: Policy, events: seq<Event>, i: nat, key: Key, refused: bool) {
    && i < |events| && events[i].Step?
    && var w := At(policy, events, i);
       && events[i].pid in w.procs && KeyOf(w.procs[events[i].pid].req) == key
       && (var p := w.procs[events[i].pid];
           p.phase.Reserving? && p.phase.line >= |p.phase.cart.lines|
           && refused == !Permitted(policy, p.req, p.phase.cart.totalMinor))
  }

  /** Event `i` asked the payment provider for a call under this key, with this answer. */
  predicate PaymentAt(policy: Policy, events: seq<Event>, i: nat, key: Key, answer: Result<(bool, string), ProviderError>) {
    && i < |events| && events[i].Step?
    && var w := At(policy, events, i);
       && events[i].pid in w.procs && KeyOf(w.procs[events[i].pid].req) == key
       && w.procs[events[i].pid].phase.Authorizing? && events[i].answer.auth == answer
  }

  lemma PolicyStays(w: World, events: seq<Event>)
    ensures Run(w, events).policy == w.policy
    decreases |events|
  {
    if events != [] {
      var v := Next(w, events[0]);
      assert v.policy == w.policy by {
        hide Advance;
      }
      hide Next;
      PolicyStays(v, events[1..]);
    }
  }

  /** What is in the transcript was said by some event. */
  lemma {:induction false} SaidAt(policy: Policy, events: seq<Event>, key: Key, t: Told) returns (i: nat)
    requires t in Transcript(policy, events, key)
    ensures i < |events| && t in Heard(At(policy, events, i), events[i], key)
    decreases |events|
  {
    var n := |events| - 1;
    hide Heard;
    if t in Transcript(policy, events[..n], key) {
      i := SaidAt(policy, events[..n], key, t);
      AtPrefix(policy, events, n, i);
    } else {
      i := n;
    }
  }

  lemma {:induction false} SaidIsKept(policy: Policy, events: seq<Event>, key: Key, i: nat, t: Told)
    requires i < |events| && t in Heard(At(policy, events, i), events[i], key)
    ensures t in Transcript(policy, events, key)
    decreases |events|
  {
    var n := |events| - 1;
    hide Heard;
    if i < n {
      AtPrefix(policy, events, n, i);
      SaidIsKept(policy, events[..n], key, i, t);
    }
  }

  /**
   What a recorded result rests on. In every interleaving the answers that calls under the
   key were given are exactly the ones the result stands for: the policy's verdict on a
   cart with its amounts, the payment provider's answer with its reference, the capture
   and the receipt, each asked once and in this order, and none that it does not stand for.
   */
  lemma ResultMatchesAnswers(policy: Policy, events: seq<Event>, key: Key, r: TransactionResult)
    requires Idempotency.Current(Run(Begin(policy), events).keys, key) == Some(Idempotency.Completed(r))
    ensures Explains(Transcript(policy, events, key), r)
  {
    RunTold(policy, events, key);
  }

  lemma PaymentSaid(policy: Policy, events: seq<Event>, key: Key, i: nat, answer: Result<(bool, string), ProviderError>)
    ensures PaymentAt(policy, events, i, key, answer)
       <==> i < |events| && Authorized(answer) in Heard(At(policy, events, i), events[i], key)
  {
    hide At, KeyOf, Permitted;
  }

  lemma VerdictSaid(policy: Policy, events: seq<Event>, key: Key, i: nat, refused: bool)
    ensures JudgedAt(policy, events, i, key, refused)
       <==> i < |events| && exists c :: Judged(refused, c) in Heard(At(policy, events, i), events[i], key)
  {
    if i < |events| {
      PolicyStays(Begin(policy), events[..i]);
      hide Run, KeyOf, Permitted;
      var w, e := At(policy, events, i), events[i];
      if JudgedAt(policy, events, i, key, refused) {
        assert Judged(refused, w.procs[e.pid].phase.cart) in Heard(w, e, key);
      }
    }
  }

  /**
   No money moves unapproved. Whatever is interleaved, a commit under a key carries the
   reference of an approval that the payment provider gave to a call under that key, and a
   capture, an order and a message come only after such a commit.
   */
  lemma EffectsWereApproved(policy: Policy, events: seq<Event>, key: Key)
    ensures var trace := ByKey(Run(Begin(policy), events).effects, key);
            && (forall id, reference :: Commit(id, reference) in trace ==>
                  exists i :: PaymentAt(policy, events, i, key, Ok((true, reference))))
            && (forall e :: e in trace && (e.Capture? || e.PutOrder? || e.Enqueue?) ==>
                  exists i, reference :: PaymentAt(policy, events, i, key, Ok((true, reference))))
  {
    var trace, told := ByKey(Run(Begin(policy), events).effects, key), Transcript(policy, events, key);
    RunTold(policy, events, key);
    AtMostOneOfEach(policy, events, key);
    hide Transcript, Run, ByKey, PaymentAt, At, Heard;
    forall id, reference | Commit(id, reference) in trace
      ensures exists i :: PaymentAt(policy, events, i, key, Ok((true, reference)))
    {
      assert Commit(id, reference).Commit? && Authorized(Ok((true, reference))) in told;
      var i := SaidAt(policy, events, key, Authorized(Ok((true, reference))));
      PaymentSaid(policy, events, key, i, Ok((true, reference)));
    }
    forall e | e in trace && (e.Capture? || e.PutOrder? || e.Enqueue?)
      ensures exists i, reference :: PaymentAt(policy, events, i, key, Ok((true, reference)))
    {
      var k :| 0 <= k < |trace| && trace[k] == e;
      assert Kind(trace[1]) == 1 && trace[1] in trace;
      assert Commit(trace[1].transactionId, trace[1].reference) in trace;
    }
  }

  /**
   Each kind of result, exactly. A key completes as rejected if and only if the policy
   refused its cart, as unauthorized if and only if the payment provider declined, and as
   completed if and only if it approved.
   */
  lemma StatusExactly(policy: Policy, events: seq<Event>, key: Key, r: TransactionResult)
    requires Idempotency.Current(Run(Begin(policy), events).keys, key) == Some(Idempotency.Completed(r))
    ensures r.status.Rejected? <==> exists i :: JudgedAt(policy, events, i, key, true)
    ensures r.status.AuthFailed? <==> exists i, reference :: PaymentAt(policy, events, i, key, Ok((false, reference)))
    ensures r.status.Completed? <==> exists i, reference :: PaymentAt(policy, events, i, key, Ok((true, reference)))
  {
    var told := Transcript(policy, events, key);
    ResultMatchesAnswers(policy, events, key, r);
    assert told == [told[0]] + told[1..];
    hide Transcript, Run, JudgedAt, PaymentAt, At, Heard, NamesAmounts;
    VerdictExactly(policy, events, key, r);
    PaymentExactly(policy, events, key, r, false);
    PaymentExactly(policy, events, key, r, true);
  }

  lemma VerdictExactly(policy: Policy, events: seq<Event>, key: Key, r: TransactionResult)
    requires Explains(Transcript(policy, events, key), r)
    ensures r.status.Rejected? <==> exists i :: JudgedAt(policy, events, i, key, true)
  {
    var told := Transcript(policy, events, key);
    hide Transcript, Run, JudgedAt, At, Heard, NamesAmounts;
    assert told == [told[0]] + told[1..];
    if r.status.Rejected? {
      var i := SaidAt(policy, events, key, told[0]);
      VerdictSaid(policy, events, key, i, true);
    }
    if i: nat :| JudgedAt(policy, events, i, key, true) {
      VerdictSaid(policy, events, key, i, true);
      var c :| Judged(true, c) in Heard(At(policy, events, i), events[i], key);
      SaidIsKept(policy, events, key, i, Judged(true, c));
    }
  }

  lemma PaymentExactly(policy: Policy, events: seq<Event>, key: Key, r: TransactionResult, approved: bool)
    requires Explains(Transcript(policy, events, key), r)
    ensures (if approved then r.status.Completed? else r.status.AuthFailed?)
       <==> exists i, reference :: PaymentAt(policy, events, i, key, Ok((approved, reference)))
  {
    var told := Transcript(policy, events, key);
    hide Transcript, Run, PaymentAt, At, Heard, NamesAmounts;
    assert told == [told[0]] + told[1..];
    if if approved then r.status.Completed? else r.status.AuthFailed? {
      var reference := r.paymentReference.value;
      assert told[1] == told[1..][0] == Authorized(Ok((approved, reference)));
      var i := SaidAt(policy, events, key, told[1]);
      PaymentSaid(policy, events, key, i, Ok((approved, reference)));
    }
    if i: nat, reference :| PaymentAt(policy, events, i, key, Ok((approved, reference))) {
      PaymentSaid(policy, events, key, i, Ok((approved, reference)));
      SaidIsKept(policy, events, key, i, Authorized(Ok((approved, reference))));
    }
  }
}
