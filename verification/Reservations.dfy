/**
 Stock reservations kept under one text key `cart|sku` and searched by prefix, against
 the store keyed by the pair (cart, sku).
 */
module Reservations {
  import opened ReservationStates

  /** A cart identifier as it is printed: hexadecimal digits and hyphens, so never a bar. */
  type CartId = s: string | '|' !in s witness ""

  datatype Reservation = Reservation(cartId: CartId, sku: string, quantity: nat, state: ReservationState, leaseUntil: int)

  datatype Operation =
    | Reserve(cartId: CartId, sku: string, quantity: nat, ttl: nat, now: int)
    | FinalizeCart(cartId: CartId)
    | ReleaseCart(cartId: CartId)
    | SweepExpired(now: int)

  predicate LeaseOver(r: Reservation, now: int) {
    r.state == Reserved && r.leaseUntil <= now
  }

  function Swept(r: Reservation, now: int): Reservation {
    if LeaseOver(r, now) then r.(state := Expired) else r
  }

  // ---- Keyed by the pair ----------------------------------------------------------------------------

  type Pair = (CartId, string)
  type Paired = map<Pair, Reservation>

  function PairedNext(m: Paired, op: Operation): Paired {
    match op
    case Reserve(c, sku, q, ttl, now) => m[(c, sku) := Reservation(c, sku, q, Reserved, now + ttl)]
    case FinalizeCart(c) => map k | k in m :: if m[k].cartId == c then m[k].(state := Finalized) else m[k]
    case ReleaseCart(c) => map k | k in m :: if m[k].cartId == c then m[k].(state := Released) else m[k]
    case SweepExpired(now) => map k | k in m :: Swept(m[k], now)
  }

  class InMemoryReservationStore {
    var inner: Paired

    constructor ()
      ensures inner == map[]
    {
      inner := map[];
    }

    method Reserve(cartId: CartId, sku: string, quantity: nat, ttl: nat, now: int)
      modifies this
      ensures inner == PairedNext(old(inner), Operation.Reserve(cartId, sku, quantity, ttl, now))
    {
      inner := inner[(cartId, sku) := Reservation(cartId, sku, quantity, Reserved, now + ttl)];
    }

    method SetCart(cartId: CartId, state: ReservationState)
      modifies this
      ensures inner == map k | k in old(inner) ::
                         if old(inner)[k].cartId == cartId then old(inner)[k].(state := state) else old(inner)[k]
    {
      var all := inner;
      var todo := inner.Keys;
      while todo != {}
        invariant todo <= all.Keys && inner.Keys == all.Keys
        invariant forall k :: k in all ==>
                    inner[k] == if k !in todo && all[k].cartId == cartId then all[k].(state := state) else all[k]
        decreases |todo|
      {
        var k :| k in todo;
        todo := todo - {k};
        if inner[k].cartId == cartId {
          inner := inner[k := inner[k].(state := state)];
        }
      }
    }

    method FinalizeCart(cartId: CartId)
      modifies this
      ensures inner == PairedNext(old(inner), Operation.FinalizeCart(cartId))
    {
      SetCart(cartId, Finalized);
    }

    method ReleaseCart(cartId: CartId)
      modifies this
      ensures inner == PairedNext(old(inner), Operation.ReleaseCart(cartId))
    {
      SetCart(cartId, Released);
    }

    method SweepExpired(now: int) returns (count: nat)
      modifies this
      ensures inner == PairedNext(old(inner), Operation.SweepExpired(now))
      ensures count == |set k | k in old(inner) && LeaseOver(old(inner)[k], now)|
    {
      var all := inner;
      var todo := inner.Keys;
      count := 0;
      ghost var swept: set<Pair> := {};
      while todo != {}
        invariant todo <= all.Keys
        invariant inner == map k | k in all :: if k in todo then all[k] else Swept(all[k], now)
        invariant swept == (set k | k in all && k !in todo && LeaseOver(all[k], now)) && count == |swept|
        decreases |todo|
      {
        var k :| k in todo;
        todo := todo - {k};
        if LeaseOver(inner[k], now) {
          inner := inner[k := inner[k].(state := Expired)];
          count := count + 1;
          swept := swept + {k};
        }
      }
      assert swept == set k | k in all && LeaseOver(all[k], now);
    }
  }

  // ---- Keyed by text ----------------------------------------------------------------------------------

  type Flat = map<string, Reservation>

  function Key(c: CartId, sku: string): string {
    c + "|" + sku
  }

  predicate StartsWith(text: string, prefix: string) {
    prefix <= text
  }

  function FlatNext(m: Flat, op: Operation): Flat {
    match op
    case Reserve(c, sku, q, ttl, now) => m[Key(c, sku) := Reservation(c, sku, q, Reserved, now + ttl)]
    case FinalizeCart(c) => map k | k in m :: if StartsWith(k, c + "|") then m[k].(state := Finalized) else m[k]
    case ReleaseCart(c) => map k | k in m :: if StartsWith(k, c + "|") then m[k].(state := Released) else m[k]
    case SweepExpired(now) => map k | k in m :: Swept(m[k], now)
  }

  class FileBackedReservationStore {
    var inner: Flat

    constructor ()
      ensures inner == map[]
    {
      inner := map[];
    }

    method Reserve(cartId: CartId, sku: string, quantity: nat, ttl: nat, now: int)
      modifies this
      ensures inner == FlatNext(old(inner), Operation.Reserve(cartId, sku, quantity, ttl, now))
    {
      inner := inner[Key(cartId, sku) := Reservation(cartId, sku, quantity, Reserved, now + ttl)];
    }

    method SetPrefix(prefix: string, state: ReservationState)
      modifies this
      ensures inner == map k | k in old(inner) ::
                         if StartsWith(k, prefix) then old(inner)[k].(state := state) else old(inner)[k]
    {
      hide StartsWith;
      var all := inner;
      var todo := inner.Keys;
      while todo != {}
        invariant todo <= all.Keys && inner.Keys == all.Keys
        invariant forall k :: k in all ==>
                    inner[k] == if k !in todo && StartsWith(k, prefix) then all[k].(state := state) else all[k]
        decreases |todo|
      {
        var k :| k in todo;
        todo := todo - {k};
        if StartsWith(k, prefix) {
          inner := inner[k := inner[k].(state := state)];
        }
      }
    }

    method FinalizeCart(cartId: CartId)
      modifies this
      ensures inner == FlatNext(old(inner), Operation.FinalizeCart(cartId))
    {
      SetPrefix(cartId + "|", Finalized);
    }

    method ReleaseCart(cartId: CartId)
      modifies this
      ensures inner == FlatNext(old(inner), Operation.ReleaseCart(cartId))
    {
      SetPrefix(cartId + "|", Released);
    }

    method SweepExpired(now: int) returns (count: nat)
      modifies this
      ensures inner == FlatNext(old(inner), Operation.SweepExpired(now))
      ensures count == |set k | k in old(inner) && LeaseOver(old(inner)[k], now)|
    {
      var all := inner;
      var todo := inner.Keys;
      count := 0;
      ghost var swept: set<string> := {};
      while todo != {}
        invariant todo <= all.Keys
        invariant inner == map k | k in all :: if k in todo then all[k] else Swept(all[k], now)
        invariant swept == (set k | k in all && k !in todo && LeaseOver(all[k], now)) && count == |swept|
        decreases |todo|
      {
        var k :| k in todo;
        todo := todo - {k};
        if LeaseOver(inner[k], now) {
          inner := inner[k := inner[k].(state := Expired)];
          count := count + 1;
          swept := swept + {k};
        }
      }
      assert swept == set k | k in all && LeaseOver(all[k], now);
    }
  }

  // ---- The two agree ----------------------------------------------------------------------------------

  function FirstBar(text: string): nat {
    if text == "" || text[0] == '|' then 0 else 1 + FirstBar(text[1..])
  }

  /** The cart part of a key ends at its first bar. */
  lemma {:induction false} CartEndsAtBar(c: CartId, rest: string)
    ensures FirstBar(c + "|" + rest) == |c|
    decreases |c|
  {
    if c != "" {
      assert (c + "|" + rest)[1..] == c[1..] + "|" + rest;
      CartEndsAtBar(c[1..], rest);
    }
  }

  /** A text key belongs to a cart exactly when it starts with that cart and a bar. */
  lemma PrefixIsCart(c: CartId, sku: string, d: CartId)
    ensures StartsWith(Key(c, sku), d + "|") <==> c == d
  {
    var key, prefix := Key(c, sku), d + "|";
    CartEndsAtBar(c, sku);
    if prefix <= key {
      assert key == d + "|" + key[|prefix|..];
      CartEndsAtBar(d, key[|prefix|..]);
      assert c == key[..FirstBar(key)] == d;
    }
  }

  lemma KeyInjective(c: CartId, sku: string, d: CartId, other: string)
    requires Key(c, sku) == Key(d, other)
    ensures c == d && sku == other
  {
    PrefixIsCart(c, sku, d);
    PrefixIsCart(d, other, d);
    assert Key(c, sku)[|c| + 1..] == sku && Key(d, other)[|d| + 1..] == other;
  }

  /** Both hold the same reservations, each under its own key. */
  predicate Agree(flat: Flat, paired: Paired) {
    && (forall k :: k in flat ==>
          var p := (flat[k].cartId, flat[k].sku);
          k == Key(p.0, p.1) && p in paired && paired[p] == flat[k])
    && (forall p :: p in paired ==>
          paired[p].cartId == p.0 && paired[p].sku == p.1 && Key(p.0, p.1) in flat && flat[Key(p.0, p.1)] == paired[p])
  }

  lemma ReserveAgrees(flat: Flat, paired: Paired, r: Reservation)
    requires Agree(flat, paired)
    ensures Agree(flat[Key(r.cartId, r.sku) := r], paired[(r.cartId, r.sku) := r])
  {
    forall d: CartId, other | Key(d, other) == Key(r.cartId, r.sku)
      ensures d == r.cartId && other == r.sku
    {
      KeyInjective(d, other, r.cartId, r.sku);
    }
    hide Key;
  }

  /** Changing states record by record keeps the agreement when both sides pick the same records. */
  lemma StatesAgree(flat: Flat, paired: Paired, flat': Flat, paired': Paired)
    requires Agree(flat, paired) && flat'.Keys == flat.Keys && paired'.Keys == paired.Keys
    requires forall k :: k in flat ==> flat'[k].cartId == flat[k].cartId && flat'[k].sku == flat[k].sku
    requires forall k :: k in flat ==> paired'[(flat[k].cartId, flat[k].sku)] == flat'[k]
    ensures Agree(flat', paired')
  {
    hide Key;
  }

  lemma PrefixesPickCarts(flat: Flat, paired: Paired, c: CartId)
    requires Agree(flat, paired)
    ensures forall k :: k in flat ==> (StartsWith(k, c + "|") <==> flat[k].cartId == c)
  {
    forall k | k in flat
      ensures StartsWith(k, c + "|") <==> flat[k].cartId == c
    {
      PrefixIsCart(flat[k].cartId, flat[k].sku, c);
    }
  }

  lemma CartStateAgrees(flat: Flat, paired: Paired, c: CartId, op: Operation)
    requires Agree(flat, paired) && (op == FinalizeCart(c) || op == ReleaseCart(c))
    ensures Agree(FlatNext(flat, op), PairedNext(paired, op))
  {
    PrefixesPickCarts(flat, paired, c);
    hide Key, StartsWith;
    StatesAgree(flat, paired, FlatNext(flat, op), PairedNext(paired, op));
  }

  lemma SweepAgrees(flat: Flat, paired: Paired, now: int)
    requires Agree(flat, paired)
    ensures Agree(FlatNext(flat, SweepExpired(now)), PairedNext(paired, SweepExpired(now)))
  {
    hide Key, LeaseOver;
    StatesAgree(flat, paired, FlatNext(flat, SweepExpired(now)), PairedNext(paired, SweepExpired(now)));
  }

  lemma StepAgrees(flat: Flat, paired: Paired, op: Operation)
    requires Agree(flat, paired)
    ensures Agree(FlatNext(flat, op), PairedNext(paired, op))
  {
    hide Key, StartsWith, Agree;
    match op
    case Reserve(c, sku, q, ttl, now) => ReserveAgrees(flat, paired, Reservation(c, sku, q, Reserved, now + ttl));
    case FinalizeCart(c) => CartStateAgrees(flat, paired, c, op);
    case ReleaseCart(c) => CartStateAgrees(flat, paired, c, op);
    case SweepExpired(now) => SweepAgrees(flat, paired, now);
  }

  function FlatRun(m: Flat, ops: seq<Operation>): Flat
    decreases |ops|
  {
    if ops == [] then m else FlatRun(FlatNext(m, ops[0]), ops[1..])
  }

  function PairedRun(m: Paired, ops: seq<Operation>): Paired
    decreases |ops|
  {
    if ops == [] then m else PairedRun(PairedNext(m, ops[0]), ops[1..])
  }

  lemma {:induction false} RunAgrees(flat: Flat, paired: Paired, ops: seq<Operation>)
    requires Agree(flat, paired)
    ensures Agree(FlatRun(flat, ops), PairedRun(paired, ops))
    decreases |ops|
  {
    if ops != [] {
      StepAgrees(flat, paired, ops[0]);
      hide Agree;
      RunAgrees(FlatNext(flat, ops[0]), PairedNext(paired, ops[0]), ops[1..]);
    }
  }

  /** What a cart has reserved, as each store reports it. */
  function FlatByCart(m: Flat, c: CartId): set<Reservation> {
    set k | k in m && StartsWith(k, c + "|") :: m[k]
  }

  function PairedByCart(m: Paired, c: CartId): set<Reservation> {
    set k | k in m && m[k].cartId == c :: m[k]
  }

  lemma AgreeByCart(flat: Flat, paired: Paired, c: CartId)
    requires Agree(flat, paired)
    ensures FlatByCart(flat, c) == PairedByCart(paired, c)
  {
    PrefixesPickCarts(flat, paired, c);
    hide Key, StartsWith;
  }

  function FlatDue(m: Flat, now: int): set<string> {
    set k | k in m && LeaseOver(m[k], now)
  }

  function PairedDue(m: Paired, now: int): set<Pair> {
    set k | k in m && LeaseOver(m[k], now)
  }

  lemma {:induction false} SameSize(keys: set<string>, pairs: set<Pair>)
    requires forall p :: p in pairs ==> Key(p.0, p.1) in keys
    requires forall k :: k in keys ==> exists p :: p in pairs && Key(p.0, p.1) == k
    ensures |keys| == |pairs|
    decreases |pairs|
  {
    if pairs != {} {
      var p :| p in pairs;
      var k := Key(p.0, p.1);
      forall q | q in pairs - {p}
        ensures Key(q.0, q.1) in keys - {k}
      {
        if Key(q.0, q.1) == k {
          KeyInjective(q.0, q.1, p.0, p.1);
        }
      }
      forall j | j in keys - {k}
        ensures exists q :: q in pairs - {p} && Key(q.0, q.1) == j
      {
        var q :| q in pairs && Key(q.0, q.1) == j;
        assert q in pairs - {p};
      }
      SameSize(keys - {k}, pairs - {p});
    } else {
      assert keys == {};
    }
  }

  /**
   Refinement. After any sequence of reserve, finalize, release and sweep, the text-keyed
   store reports for every cart what the pair-keyed one does, and its next sweep counts
   the same number of reservations.
   */
  lemma FlatRefinesPaired(ops: seq<Operation>, c: CartId, now: int)
    ensures var flat, paired := FlatRun(map[], ops), PairedRun(map[], ops);
            && FlatByCart(flat, c) == PairedByCart(paired, c)
            && |FlatDue(flat, now)| == |PairedDue(paired, now)|
  {
    var flat, paired := FlatRun(map[], ops), PairedRun(map[], ops);
    RunAgrees(map[], map[], ops);
    AgreeByCart(flat, paired, c);
    var keys, pairs := FlatDue(flat, now), PairedDue(paired, now);
    forall k | k in keys
      ensures exists p :: p in pairs && Key(p.0, p.1) == k
    {
      assert (flat[k].cartId, flat[k].sku) in pairs;
    }
    hide Key;
    SameSize(keys, pairs);
  }

  /** A sweep changes exactly the reservations that are due, leaves none due, and a second sweep finds nothing. */
  lemma SweepLeavesNoneDue(m: Flat, now: int)
    ensures var v := FlatNext(m, SweepExpired(now));
            && v.Keys == m.Keys && FlatDue(v, now) == {}
            && (set k | k in m && v[k] != m[k]) == FlatDue(m, now)
            && (forall earlier: int :: earlier <= now ==> FlatNext(v, SweepExpired(earlier)) == v)
  {
    var v := FlatNext(m, SweepExpired(now));
    forall earlier: int | earlier <= now
      ensures FlatNext(v, SweepExpired(earlier)) == v
    {
      assert forall k :: k in v ==> Swept(v[k], earlier) == v[k];
    }
  }

  // ---- What a record says of its history ----------------------------------------------------------------

  predicate ReservesPair(op: Operation, c: CartId, sku: string) {
    op.Reserve? && op.cartId == c && op.sku == sku
  }

  /** After operation `i` there is such a one, and no undoing one behind it. */
  predicate EndsWith(ops: seq<Operation>, i: nat, done: Operation, undone: Operation) {
    exists k :: i < k < |ops| && ops[k] == done && forall j :: k < j < |ops| ==> ops[j] != undone
  }

  /** Some sweep after operation `i` came at or after this time. */
  predicate SweptAfter(ops: seq<Operation>, i: nat, due: int) {
    exists k :: i < k < |ops| && ops[k].SweepExpired? && due <= ops[k].now
  }

  predicate SettledAfter(ops: seq<Operation>, i: nat, c: CartId) {
    exists k :: i < k < |ops| && (ops[k] == FinalizeCart(c) || ops[k] == ReleaseCart(c))
  }

  lemma {:induction false} RunThen(m: Paired, ops: seq<Operation>, op: Operation)
    ensures PairedRun(m, ops + [op]) == PairedNext(PairedRun(m, ops), op)
    decreases |ops|
  {
    hide PairedNext;
    if ops == [] {
      assert [op][1..] == [] && ops + [op] == [op];
    } else {
      assert (ops + [op])[1..] == ops[1..] + [op];
      RunThen(PairedNext(m, ops[0]), ops[1..], op);
    }
  }

  lemma EndsThen(ops: seq<Operation>, i: nat, op: Operation, done: Operation, undone: Operation)
    requires i < |ops| && done != undone
    ensures EndsWith(ops + [op], i, done, undone) <==> op == done || (op != undone && EndsWith(ops, i, done, undone))
  {
    var all := ops + [op];
    if EndsWith(ops, i, done, undone) && op != undone {
      var k :| i < k < |ops| && ops[k] == done && forall j :: k < j < |ops| ==> ops[j] != undone;
      assert all[k] == done && forall j :: k < j < |all| ==> all[j] != undone;
    }
    if op == done {
      assert all[|ops|] == done;
    } else if EndsWith(all, i, done, undone) {
      var k :| i < k < |all| && all[k] == done && forall j :: k < j < |all| ==> all[j] != undone;
      assert all[|ops|] == op && ops[k] == done && forall j :: k < j < |ops| ==> ops[j] == all[j];
    }
  }

  lemma OccursThen(ops: seq<Operation>, i: nat, op: Operation, c: CartId, due: int)
    requires i < |ops|
    ensures SweptAfter(ops + [op], i, due) <==> SweptAfter(ops, i, due) || (op.SweepExpired? && due <= op.now)
    ensures SettledAfter(ops + [op], i, c) <==> SettledAfter(ops, i, c) || op == FinalizeCart(c) || op == ReleaseCart(c)
  {
    var all := ops + [op];
    assert all[|ops|] == op && forall k :: 0 <= k < |ops| ==> all[k] == ops[k];
  }

  /** What the record of a pair must say, if operation `i` is the last one that reserved it. */
  predicate Tells(r: Reservation, ops: seq<Operation>, i: nat, c: CartId, sku: string)
    requires i < |ops| && ReservesPair(ops[i], c, sku)
  {
    var due := ops[i].now + ops[i].ttl;
    && r.cartId == c && r.sku == sku && r.quantity == ops[i].quantity && r.leaseUntil == due
    && (r.state == Finalized <==> EndsWith(ops, i, FinalizeCart(c), ReleaseCart(c)))
    && (r.state == Released <==> EndsWith(ops, i, ReleaseCart(c), FinalizeCart(c)))
    && (r.state == Expired <==> !SettledAfter(ops, i, c) && SweptAfter(ops, i, due))
    && (r.state == Reserved <==> !SettledAfter(ops, i, c) && !SweptAfter(ops, i, due))
  }

  /** Records lie under their own pair. */
  predicate OwnKeys(m: Paired) {
    forall p :: p in m ==> m[p].cartId == p.0 && m[p].sku == p.1
  }

  lemma StoryStep(m: Paired, ops: seq<Operation>, i: nat, c: CartId, sku: string, op: Operation)
    requires i < |ops| && ReservesPair(ops[i], c, sku) && !ReservesPair(op, c, sku)
    requires OwnKeys(m) && (c, sku) in m && Tells(m[(c, sku)], ops, i, c, sku)
    ensures var v := PairedNext(m, op); (c, sku) in v && Tells(v[(c, sku)], ops + [op], i, c, sku)
  {
    EndsThen(ops, i, op, FinalizeCart(c), ReleaseCart(c));
    EndsThen(ops, i, op, ReleaseCart(c), FinalizeCart(c));
    OccursThen(ops, i, op, c, ops[i].now + ops[i].ttl);
    assert (ops + [op])[i] == ops[i];
    hide EndsWith, SweptAfter, SettledAfter;
  }

  lemma {:induction false} KeysAreOwn(ops: seq<Operation>)
    ensures OwnKeys(PairedRun(map[], ops))
    decreases |ops|
  {
    if ops != [] {
      var front, op := ops[..|ops| - 1], ops[|ops| - 1];
      assert ops == front + [op];
      KeysAreOwn(front);
      RunThen(map[], front, op);
    }
  }

  /**
   The story of a reservation. After any operations, a pair has a record exactly when it was
   reserved, and the record is told by its last reservation and what came after: its quantity
   and lease; finalized or released by the last such call for the cart; without one, expired
   exactly when a sweep came at or after the end of the lease, and still reserved otherwise.
   */
  lemma {:induction false} RecordTellsHistory(ops: seq<Operation>, c: CartId, sku: string)
    ensures (c, sku) in PairedRun(map[], ops) <==> exists i :: 0 <= i < |ops| && ReservesPair(ops[i], c, sku)
    ensures forall i :: 0 <= i < |ops| && ReservesPair(ops[i], c, sku)
                        && (forall j :: i < j < |ops| ==> !ReservesPair(ops[j], c, sku)) ==>
              (c, sku) in PairedRun(map[], ops) && Tells(PairedRun(map[], ops)[(c, sku)], ops, i, c, sku)
    decreases |ops|
  {
    if ops != [] {
      var front, op := ops[..|ops| - 1], ops[|ops| - 1];
      assert ops == front + [op];
      var m := PairedRun(map[], front);
      RunThen(map[], front, op);
      RecordTellsHistory(front, c, sku);
      KeysAreOwn(front);
      assert (c, sku) in PairedNext(m, op) <==> (c, sku) in m || ReservesPair(op, c, sku);
      forall i | 0 <= i < |ops| && ReservesPair(ops[i], c, sku)
                 && (forall j :: i < j < |ops| ==> !ReservesPair(ops[j], c, sku))
        ensures (c, sku) in PairedRun(map[], ops) && Tells(PairedRun(map[], ops)[(c, sku)], ops, i, c, sku)
      {
        if i < |front| {
          assert front[i] == ops[i] && ops[|front|] == op;
          assert forall j :: i < j < |front| ==> front[j] == ops[j];
          StoryStep(m, front, i, c, sku, op);
        }
      }
    }
  }
}
