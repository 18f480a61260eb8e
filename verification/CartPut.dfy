/** Replacing a cart's lines by a requested list, one command at a time. */
module CartPut {
  import opened Wrappers
  import opened CartModel
  import opened CartEngine
  import opened CartInvariants
  import CartOutcomes
  import CartRunner

  /** One requested line; without an identifier it is a new line. */
  datatype Item = Item(lineId: Option<string>, itemId: string, quantity: nat)

  datatype PutError = TenantMismatch | Refused(error: Error)

  type Lines = seq<(string, nat)>

  predicate Mentions(items: seq<Item>, id: string) {
    exists i :: 0 <= i < |items| && items[i].lineId == Some(id)
  }

  /** The last requested quantity for a line, or the one it had. */
  function LastQuantity(items: seq<Item>, id: string, had: nat): nat {
    if items == [] then had
    else if items[|items| - 1].lineId == Some(id) then items[|items| - 1].quantity
    else LastQuantity(items[..|items| - 1], id, had)
  }

  function Requantified(lines: Lines, items: seq<Item>): Lines {
    seq(|lines|, i requires 0 <= i < |lines| => (lines[i].0, LastQuantity(items, lines[i].0, lines[i].1)))
  }

  function KeepMentioned(lines: Lines, items: seq<Item>): Lines {
    if lines == [] then []
    else KeepMentioned(lines[..|lines| - 1], items)
         + (if Mentions(items, lines[|lines| - 1].0) then [lines[|lines| - 1]] else [])
  }

  /** One new line per entry without identifier, in request order. */
  function Added(items: seq<Item>, nextLine: nat): Lines {
    if items == [] then [] else
      var front := Added(items[..|items| - 1], nextLine);
      if items[|items| - 1].lineId.Some? then front
      else front + [(LineId(nextLine + |front|), items[|items| - 1].quantity)]
  }

  /** The lines a full replacement asks for. */
  function Replacement(lines: Lines, items: seq<Item>, nextLine: nat): Lines {
    Requantified(KeepMentioned(lines, items), items) + Added(items, nextLine)
  }

  predicate DistinctIds(lines: Lines) {
    forall i, j :: 0 <= i < j < |lines| ==> lines[i].0 != lines[j].0
  }

  predicate HasId(lines: Lines, id: string) {
    exists i :: 0 <= i < |lines| && lines[i].0 == id
  }

  /** No requested identifier belongs to a line that does not exist yet. */
  ghost predicate NoFutureIds(items: seq<Item>, nextLine: nat) {
    forall i, k: nat :: 0 <= i < |items| && k >= nextLine ==> items[i].lineId != Some(LineId(k))
  }

  // ---- List laws ----------------------------------------------------------------------------

  lemma {:induction false} DropAbsent(lines: Lines, id: string)
    requires !HasId(lines, id)
    ensures DropLine(lines, id) == lines
  {
    if lines != [] {
      assert lines[|lines| - 1].0 != id;
      assert !HasId(lines[..|lines| - 1], id);
      DropAbsent(lines[..|lines| - 1], id);
    }
  }

  lemma {:induction false} DropMiddle(a: Lines, id: string, q: nat, b: Lines)
    requires !HasId(a, id) && !HasId(b, id)
    ensures DropLine(a + [(id, q)] + b, id) == a + b
    decreases |b|
  {
    var all := a + [(id, q)] + b;
    if b == [] {
      assert all[..|all| - 1] == a;
      DropAbsent(a, id);
      assert a + b == a;
    } else {
      var front, last := b[..|b| - 1], b[|b| - 1];
      assert last.0 != id && !HasId(front, id);
      DropMiddle(a, id, q, front);
      assert all[..|all| - 1] == a + [(id, q)] + front;
      assert a + front + [last] == a + b;
    }
  }

  lemma {:induction false} SetAt(lines: Lines, i: nat, quantity: nat)
    requires i < |lines| && DistinctIds(lines)
    ensures SetQuantity(lines, lines[i].0, quantity) == lines[i := (lines[i].0, quantity)]
    decreases |lines|
  {
    if i > 0 {
      assert DistinctIds(lines[1..]);
      SetAt(lines[1..], i - 1, quantity);
      assert lines[i := (lines[i].0, quantity)] == [lines[0]] + lines[1..][i - 1 := (lines[i].0, quantity)];
    }
  }

  lemma {:induction false} KeepMembers(lines: Lines, items: seq<Item>)
    ensures forall l :: l in KeepMentioned(lines, items) <==> l in lines && Mentions(items, l.0)
    ensures |KeepMentioned(lines, items)| <= |lines|
  {
    hide Mentions;
    if lines != [] {
      var front, last := lines[..|lines| - 1], lines[|lines| - 1];
      KeepMembers(front, items);
      assert forall l :: l in lines <==> l in front || l == last by {
        assert lines == front + [last];
      }
    }
  }

  lemma {:induction false} AddedIds(items: seq<Item>, nextLine: nat)
    ensures forall i :: 0 <= i < |Added(items, nextLine)| ==> Added(items, nextLine)[i].0 == LineId(nextLine + i)
  {
    if items != [] {
      AddedIds(items[..|items| - 1], nextLine);
    }
  }

  /** With every kept line mentioned, the quantity it had no longer matters. */
  lemma {:induction false} MentionedQuantity(items: seq<Item>, id: string, a: nat, b: nat)
    requires Mentions(items, id)
    ensures LastQuantity(items, id, a) == LastQuantity(items, id, b)
  {
    if items[|items| - 1].lineId != Some(id) {
      var i :| 0 <= i < |items| && items[i].lineId == Some(id);
      assert items[..|items| - 1][i].lineId == Some(id);
      MentionedQuantity(items[..|items| - 1], id, a, b);
    }
  }

  // ---- One successful command -------------------------------------------------------------------

  ghost predicate Stored(st: Store, id: CartId, c: Cart) {
    id in st.snapshots && st.snapshots[id] == c
  }

  /** What a successful change did to the stored cart. */
  ghost predicate Grew(st: Store, id: CartId, out: Store, c: Cart, lines: Lines, minted: nat)
  {
    && Inv(out) && Stored(out, id, c)
    && id in st.snapshots
    && c.version == st.snapshots[id].version + 1 && c.tenantId == st.snapshots[id].tenantId
    && out.nextLine == st.nextLine + minted
    && Skeleton(c.lines) == lines
  }

  lemma MutateStores(st: Store, id: CartId, c: Cart, primary: Event, ans: Answers)
    requires id in st.states && c.cartId == id && Mutate(st, id, c, primary, ans).1.Ok?
    ensures var (out, r) := Mutate(st, id, c, primary, ans);
            && out.nextLine == st.nextLine && Stored(out, id, r.value)
            && Skeleton(r.value.lines) == Skeleton(c.lines) && r.value.version == c.version && r.value.tenantId == c.tenantId
  {
    hide Mutate, Balanced, Skeleton, SameElsewhere, DistinctLines;
    MutateEffect(st, id, c, primary, ans);
  }

  lemma MutateSucceeded(st0: Store, st: Store, id: CartId, c: Cart, primary: Event, ans: Answers)
    requires Inv(st0) && id in st0.snapshots
    requires st == st0.(nextLine := st.nextLine) && st.nextLine >= st0.nextLine
    requires c.cartId == id && c.version == st0.snapshots[id].version + 1 && c.tenantId == st0.snapshots[id].tenantId
    requires Mutate(st, id, c, primary, ans).1.Ok? && Inv(Mutate(st, id, c, primary, ans).0)
    ensures Grew(st0, id, Mutate(st, id, c, primary, ans).0, Mutate(st, id, c, primary, ans).1.value,
                 Skeleton(c.lines), st.nextLine - st0.nextLine)
  {
    assert CartOk(st0, id);
    hide Mutate, Inv, CartOk, Skeleton, Stored;
    MutateStores(st, id, c, primary, ans);
  }

  lemma AddSucceeded(st: Store, itemId: string, quantity: nat, id: CartId, ans: Answers)
    requires Inv(st) && id in st.snapshots
    requires Change(st, AddItem(itemId, quantity), id, ans).1.Ok?
    ensures var (out, r) := Change(st, AddItem(itemId, quantity), id, ans);
            Grew(st, id, out, r.value, Skeleton(st.snapshots[id].lines) + [(LineId(st.nextLine), quantity)], 1)
  {
    var c := st.snapshots[id];
    assert CartOk(st, id);
    hide CartEngine.Change, Mutate, LineId, Inv, WellFormed, LogTracks, Skeleton, Grew;
    ChangeKeeps(st, AddItem(itemId, quantity), id, ans);
    if !PassesChecks(st, AddItem(itemId, quantity), id, ans) {
      ChangeRefused(st, AddItem(itemId, quantity), id, ans);
    }
    var (s, d, e) := Changed(st, AddItem(itemId, quantity), id, ans);
    ChangeIsMutate(st, AddItem(itemId, quantity), id, ans);
    SkeletonAppend(c.lines, d.lines[|c.lines|]);
    MutateSucceeded(st, s, id, d, e, ans);
  }

  lemma UpdateSucceeded(st: Store, lineId: string, quantity: nat, id: CartId, ans: Answers)
    requires Inv(st) && id in st.snapshots
    requires Change(st, UpdateItemQty(lineId, quantity), id, ans).1.Ok?
    ensures var (out, r) := Change(st, UpdateItemQty(lineId, quantity), id, ans);
            && HasId(Skeleton(st.snapshots[id].lines), lineId)
            && Grew(st, id, out, r.value, SetQuantity(Skeleton(st.snapshots[id].lines), lineId, quantity), 0)
  {
    var c := st.snapshots[id];
    assert CartOk(st, id);
    ChangeKeeps(st, UpdateItemQty(lineId, quantity), id, ans);
    var i := FindLine(c.lines, lineId);
    var line := c.lines[i].(quantity := quantity, totalMinor := c.lines[i].unitPriceMinor * quantity);
    QuantityMatches(c.lines, i, line);
    assert Skeleton(c.lines)[i].0 == lineId;
    hide Mutate, Inv, WellFormed, LogTracks, Skeleton, FindLine;
    MutateSucceeded(st, st, id, c.(lines := c.lines[i := line], version := c.version + 1),
                    ItemQtyUpdated(lineId, quantity), ans);
  }

  lemma RemoveSucceeded(st: Store, lineId: string, id: CartId, ans: Answers)
    requires Inv(st) && id in st.snapshots
    requires Change(st, RemoveItem(lineId), id, ans).1.Ok?
    ensures var (out, r) := Change(st, RemoveItem(lineId), id, ans);
            Grew(st, id, out, r.value, DropLine(Skeleton(st.snapshots[id].lines), lineId), 0)
  {
    var c := st.snapshots[id];
    assert CartOk(st, id);
    ChangeKeeps(st, RemoveItem(lineId), id, ans);
    DropMatches(c.lines, lineId);
    hide Mutate, Inv, WellFormed, LogTracks, Skeleton, WithoutLine;
    MutateSucceeded(st, st, id, c.(lines := WithoutLine(c.lines, lineId), version := c.version + 1),
                    ItemRemoved(lineId), ans);
  }

  lemma SkeletonDistinct(st: Store, id: CartId)
    requires Inv(st) && id in st.snapshots
    ensures DistinctIds(Skeleton(st.snapshots[id].lines))
  {
    assert CartOk(st, id);
  }

  /** A command on behalf of a tenant; the cart must already be theirs. */
  method DispatchForTenant(runner: CartRunner.Runner, tenant: string, cmd: Command, id: CartId, ans: Answers)
    returns (r: Result<Cart, PutError>)
    requires Inv(runner.State())
    requires cmd.AddItem? || cmd.UpdateItemQty? || cmd.RemoveItem?
    modifies runner
    ensures Inv(runner.State())
    ensures r == Err(TenantMismatch) <==>
              old(id in runner.snapshots && runner.snapshots[id].tenantId != Some(tenant))
    ensures r.Err? && r.error.TenantMismatch? ==> runner.State() == old(runner.State())
    ensures (r.Ok? || r.error.Refused?) ==>
              (runner.State(), if r.Ok? then Ok(r.value) else Err(r.error.error))
              == Dispatch(old(runner.State()), cmd, Some(id), ans)
    ensures r.Ok? ==> old(id in runner.snapshots)
                      && (runner.State(), Ok(r.value)) == Change(old(runner.State()), cmd, id, ans)
  {
    if id in runner.snapshots && runner.snapshots[id].tenantId != Some(tenant) {
      return Err(TenantMismatch);
    }
    DispatchKeeps(runner.State(), cmd, Some(id), ans);
    var done := runner.DispatchCartCommand(cmd, Some(id), ans);
    return if done.Ok? then Ok(done.value) else Err(Refused(done.error));
  }

  /** `c` is the stored cart with its lines replaced, one version per removal and per requested line. */
  ghost predicate IsReplacement(before: Cart, items: seq<Item>, nextLine: nat, c: Cart) {
    var lines := Skeleton(before.lines);
    && Skeleton(c.lines) == Replacement(lines, items, nextLine)
    && c.version == before.version + (|lines| - |KeepMentioned(lines, items)|) + |items|
  }

  // ---- The commands of one request ---------------------------------------------------------------

  /** One removal for each line that is not requested, in the cart's order. */
  function Removals(ids: seq<string>, items: seq<Item>): seq<Command> {
    if ids == [] then []
    else Removals(ids[..|ids| - 1], items)
         + (if Mentions(items, ids[|ids| - 1]) then [] else [RemoveItem(ids[|ids| - 1])])
  }

  function RequestOf(item: Item): Command {
    if item.lineId.Some? then UpdateItemQty(item.lineId.value, item.quantity) else AddItem(item.itemId, item.quantity)
  }

  function Requests(items: seq<Item>): (r: seq<Command>)
    ensures |r| == |items|
  {
    seq(|items|, i requires 0 <= i < |items| => RequestOf(items[i]))
  }

  /** The stores after these commands, each with its own answers. */
  function Sent(st: Store, cmds: seq<Command>, id: CartId, answers: nat -> Answers): Store {
    if cmds == [] then st
    else Dispatch(Sent(st, cmds[..|cmds| - 1], id, answers), cmds[|cmds| - 1], Some(id), answers(|cmds| - 1)).0
  }

  predicate AllSucceed(st: Store, cmds: seq<Command>, id: CartId, answers: nat -> Answers) {
    cmds == []
    || (var front := cmds[..|cmds| - 1];
        && AllSucceed(st, front, id, answers)
        && Dispatch(Sent(st, front, id, answers), cmds[|cmds| - 1], Some(id), answers(|cmds| - 1)).1.Ok?)
  }

  /** The first `n` commands took effect: all of them without a failure, or up to and including the first that failed. */
  predicate Progress(st: Store, cmds: seq<Command>, id: CartId, answers: nat -> Answers, n: nat, out: Store,
                     r: Result<Cart, PutError>)
  {
    && n <= |cmds| && out == Sent(st, cmds[..n], id, answers)
    && match r
       case Ok(_) => n == |cmds| && AllSucceed(st, cmds, id, answers)
       case Err(e) =>
         && n > 0 && AllSucceed(st, cmds[..n - 1], id, answers) && e.Refused?
         && Dispatch(Sent(st, cmds[..n - 1], id, answers), cmds[n - 1], Some(id), answers(n - 1)).1 == Err(e.error)
  }

  lemma SentOneMore(st: Store, cmds: seq<Command>, cmd: Command, id: CartId, answers: nat -> Answers)
    ensures Sent(st, cmds + [cmd], id, answers) == Dispatch(Sent(st, cmds, id, answers), cmd, Some(id), answers(|cmds|)).0
    ensures AllSucceed(st, cmds + [cmd], id, answers)
       <==> AllSucceed(st, cmds, id, answers)
            && Dispatch(Sent(st, cmds, id, answers), cmd, Some(id), answers(|cmds|)).1.Ok?
  {
    assert (cmds + [cmd])[..|cmds|] == cmds;
    hide Dispatch;
  }

  /** The command after a prefix that went well fails: that is as far as the request gets. */
  lemma StopsHere(st: Store, cmds: seq<Command>, n: nat, id: CartId, answers: nat -> Answers, out: Store,
                  r: Result<Cart, PutError>)
    requires n < |cmds| && AllSucceed(st, cmds[..n], id, answers) && r.Err? && r.error.Refused?
    requires (out, Err(r.error.error)) == Dispatch(Sent(st, cmds[..n], id, answers), cmds[n], Some(id), answers(n))
    ensures Progress(st, cmds, id, answers, n + 1, out, r)
  {
    assert cmds[..n + 1] == cmds[..n] + [cmds[n]];
    SentOneMore(st, cmds[..n], cmds[n], id, answers);
    hide Dispatch, Sent, AllSucceed;
  }

  lemma {:induction false} RemovalsPrefix(ids: seq<string>, items: seq<Item>, i: nat)
    requires i <= |ids|
    ensures Removals(ids[..i], items) <= Removals(ids, items)
    decreases |ids|
  {
    if i == |ids| {
      assert ids[..i] == ids;
    } else {
      var front := ids[..|ids| - 1];
      assert front[..i] == ids[..i];
      RemovalsPrefix(front, items, i);
    }
  }

  lemma NextRemoval(ids: seq<string>, items: seq<Item>, i: nat)
    requires i < |ids|
    ensures Removals(ids[..i + 1], items)
         == Removals(ids[..i], items) + (if Mentions(items, ids[i]) then [] else [RemoveItem(ids[i])])
    ensures !Mentions(items, ids[i]) ==>
              var n := |Removals(ids[..i], items)|;
              n < |Removals(ids, items)| && Removals(ids, items)[..n] == Removals(ids[..i], items)
              && Removals(ids, items)[n] == RemoveItem(ids[i])
  {
    assert ids[..i + 1][..i] == ids[..i] && ids[..i + 1][i] == ids[i];
    RemovalsPrefix(ids, items, i);
    RemovalsPrefix(ids, items, i + 1);
    hide Mentions;
  }

  /** These commands were sent and went well. */
  predicate SoFar(st: Store, sent: seq<Command>, id: CartId, answers: nat -> Answers, out: Store, calls: nat) {
    calls == |sent| && out == Sent(st, sent, id, answers) && AllSucceed(st, sent, id, answers)
  }

  lemma OneMore(st: Store, sent: seq<Command>, cmd: Command, id: CartId, answers: nat -> Answers, before: Store, out: Store,
                c: Cart)
    requires SoFar(st, sent, id, answers, before, |sent|)
    requires (out, Ok(c)) == Dispatch(before, cmd, Some(id), answers(|sent|))
    ensures SoFar(st, sent + [cmd], id, answers, out, |sent| + 1)
  {
    SentOneMore(st, sent, cmd, id, answers);
    hide Dispatch, Sent, AllSucceed;
  }

  /** The lines up to `i` are the requested ones, the rest as they were, and each removal took a version. */
  predicate KeptSoFar(lines: Lines, items: seq<Item>, i: nat, version: nat, c: Cart) {
    && i <= |lines| && Skeleton(c.lines) == KeepMentioned(lines[..i], items) + lines[i..]
    && c.version == version + (i - |KeepMentioned(lines[..i], items)|)
  }

  lemma KeepsMentioned(lines: Lines, items: seq<Item>, i: nat, version: nat, c: Cart)
    requires i < |lines| && Mentions(items, lines[i].0) && KeptSoFar(lines, items, i, version, c)
    ensures KeptSoFar(lines, items, i + 1, version, c)
  {
    KeepNext(lines, items, i);
  }

  /** Everything that holds between two turns of the removal loop that started with cart `start`. */
  ghost predicate Removing(st: Store, start: Cart, items: seq<Item>, i: nat, id: CartId, tenant: string,
                           answers: nat -> Answers, out: Store, c: Cart, calls: nat)
  {
    && i <= |start.lines|
    && Inv(out) && Stored(out, id, c) && c.tenantId == Some(tenant) && out.nextLine == st.nextLine
    && KeptSoFar(Skeleton(start.lines), items, i, start.version, c)
    && SoFar(st, Removals(LineIds(start.lines)[..i], items), id, answers, out, calls)
  }

  lemma RemovingStarts(st: Store, id: CartId, items: seq<Item>, tenant: string, answers: nat -> Answers)
    requires Inv(st) && id in st.snapshots && st.snapshots[id].tenantId == Some(tenant)
    ensures Removing(st, st.snapshots[id], items, 0, id, tenant, answers, st, st.snapshots[id], 0)
  {
    var c := st.snapshots[id];
    var lines := Skeleton(c.lines);
    assert KeepMentioned(lines[..0], items) + lines[0..] == lines;
    NothingSent(st, LineIds(c.lines), items, id, answers);
    hide Inv, Dispatch;
  }

  /** A requested line is left alone. */
  lemma RemovingSkips(st: Store, start: Cart, items: seq<Item>, i: nat, id: CartId, tenant: string,
                      answers: nat -> Answers, out: Store, c: Cart, calls: nat)
    requires Removing(st, start, items, i, id, tenant, answers, out, c, calls)
    requires i < |start.lines| && Mentions(items, start.lines[i].lineId)
    ensures Removing(st, start, items, i + 1, id, tenant, answers, out, c, calls)
  {
    var ids := LineIds(start.lines);
    NextRemoval(ids, items, i);
    assert Removals(ids[..i], items) + [] == Removals(ids[..i], items);
    KeepsMentioned(Skeleton(start.lines), items, i, start.version, c);
    hide Inv, KeptSoFar, SoFar, Removals, Mentions;
  }

  /** A removal that went well. */
  lemma RemovingSent(st: Store, start: Cart, items: seq<Item>, i: nat, id: CartId, tenant: string,
                     answers: nat -> Answers, before: Store, had: Cart, calls: nat, out: Store, c: Cart)
    requires Removing(st, start, items, i, id, tenant, answers, before, had, calls)
    requires i < |start.lines| && !Mentions(items, start.lines[i].lineId)
    requires (out, Ok(c)) == Dispatch(before, RemoveItem(start.lines[i].lineId), Some(id), answers(calls))
    requires Inv(out) && Stored(out, id, c) && c.tenantId == Some(tenant) && out.nextLine == before.nextLine
    requires KeptSoFar(Skeleton(start.lines), items, i + 1, start.version, c)
    ensures Removing(st, start, items, i + 1, id, tenant, answers, out, c, calls + 1)
  {
    var ids := LineIds(start.lines);
    NextRemoval(ids, items, i);
    CallsCount(st, Removals(ids[..i], items), id, answers, before, calls);
    hide Inv, KeptSoFar, SoFar, Removals, Mentions, Dispatch;
    OneMore(st, Removals(ids[..i], items), RemoveItem(ids[i]), id, answers, before, out, c);
  }

  /** A removal that failed ends the request. */
  lemma RemovingFails(st: Store, start: Cart, items: seq<Item>, i: nat, id: CartId, tenant: string,
                      answers: nat -> Answers, before: Store, had: Cart, calls: nat, out: Store, r: Result<Cart, PutError>)
    requires Removing(st, start, items, i, id, tenant, answers, before, had, calls)
    requires i < |start.lines| && !Mentions(items, start.lines[i].lineId) && r.Err? && r.error.Refused?
    requires (out, Err(r.error.error)) == Dispatch(before, RemoveItem(start.lines[i].lineId), Some(id), answers(calls))
    ensures Progress(st, Removals(LineIds(start.lines), items), id, answers, calls + 1, out, r)
  {
    var ids := LineIds(start.lines);
    NextRemoval(ids, items, i);
    CallsCount(st, Removals(ids[..i], items), id, answers, before, calls);
    hide Inv, KeptSoFar, SoFar, Removals, Mentions, Dispatch, Sent, AllSucceed, Progress;
    StopsHere(st, Removals(ids, items), calls, id, answers, out, r);
  }

  lemma RemovingDone(st: Store, start: Cart, items: seq<Item>, id: CartId, tenant: string, answers: nat -> Answers,
                     out: Store, c: Cart, calls: nat)
    requires Removing(st, start, items, |start.lines|, id, tenant, answers, out, c, calls)
    ensures var lines := Skeleton(start.lines);
            && Skeleton(c.lines) == KeepMentioned(lines, items)
            && c.version == start.version + (|lines| - |KeepMentioned(lines, items)|)
    ensures Progress(st, Removals(LineIds(start.lines), items), id, answers, calls, out, Ok(c))
  {
    var ids := LineIds(start.lines);
    assert ids[..|ids|] == ids;
    AllKept(Skeleton(start.lines), items, start.version, c);
    CallsCount(st, Removals(ids, items), id, answers, out, calls);
    hide Inv, KeptSoFar, SoFar, Removals, Dispatch, Sent, AllSucceed, Progress;
    AllDone(st, Removals(ids, items), id, answers, out, Ok(c));
  }

  /** Remove one line that is not requested. */
  method SendRemoval(runner: CartRunner.Runner, tenant: string, id: CartId, lineId: string, ans: Answers, projection: Cart,
                     ghost start: Cart, ghost items: seq<Item>, ghost i: nat)
    returns (r: Result<Cart, PutError>)
    requires Inv(runner.State()) && Stored(runner.State(), id, projection) && projection.tenantId == Some(tenant)
    requires i < |start.lines| && DistinctIds(Skeleton(start.lines)) && start.lines[i].lineId == lineId && !Mentions(items, lineId)
    requires KeptSoFar(Skeleton(start.lines), items, i, start.version, projection)
    modifies runner
    ensures Inv(runner.State())
    ensures (runner.State(), if r.Ok? then Ok(r.value) else Err(if r.error.Refused? then r.error.error else Invalid))
         == Dispatch(old(runner.State()), RemoveItem(lineId), Some(id), ans)
    ensures r.Err? ==> r.error.Refused?
    ensures r.Ok? ==> && Stored(runner.State(), id, r.value) && r.value.tenantId == Some(tenant)
                      && runner.nextLine == old(runner.nextLine)
                      && KeptSoFar(Skeleton(start.lines), items, i + 1, start.version, r.value)
  {
    hide Inv, DropLine, CartEngine.Change, Dispatch;
    ghost var before := runner.State();
    r := DispatchForTenant(runner, tenant, RemoveItem(lineId), id, ans);
    if r.Ok? {
      RemoveSucceeded(before, lineId, id, ans);
      RemoveOne(Skeleton(start.lines), items, i);
    }
  }

  /** First half: remove every line that is not requested. */
  method RemoveUnmentioned(runner: CartRunner.Runner, tenant: string, id: CartId, items: seq<Item>, answers: nat -> Answers)
    returns (r: Result<Cart, PutError>, calls: nat)
    requires Inv(runner.State())
    requires id in runner.snapshots && runner.snapshots[id].tenantId == Some(tenant)
    modifies runner
    ensures Inv(runner.State())
    ensures r.Ok? ==> Stored(runner.State(), id, r.value) && r.value.tenantId == Some(tenant)
                      && runner.nextLine == old(runner.nextLine)
    ensures r.Ok? ==> var lines := old(Skeleton(runner.snapshots[id].lines));
                      && Skeleton(r.value.lines) == KeepMentioned(lines, items)
                      && r.value.version == old(runner.snapshots[id].version) + (|lines| - |KeepMentioned(lines, items)|)
    ensures Progress(old(runner.State()), Removals(old(LineIds(runner.snapshots[id].lines)), items), id, answers,
                     calls, runner.State(), r)
  {
    var projection := runner.snapshots[id];
    ghost var st, start := runner.State(), projection;
    var currentIds := LineIds(projection.lines);
    RemovingStarts(st, id, items, tenant, answers);
    SkeletonDistinct(st, id);
    hide Inv, DistinctIds, KeptSoFar, SoFar, Dispatch, Progress, Removals, Mentions, Skeleton, KeepMentioned;
    calls := 0;
    var i := 0;
    while i < |currentIds|
      invariant 0 <= i <= |currentIds|
      invariant Removing(st, start, items, i, id, tenant, answers, runner.State(), projection, calls)
    {
      var lineId := currentIds[i];
      if !Mentions(items, lineId) {
        ghost var before := runner.State();
        r := SendRemoval(runner, tenant, id, lineId, answers(calls), projection, start, items, i);
        if r.Err? {
          RemovingFails(st, start, items, i, id, tenant, answers, before, projection, calls, runner.State(), r);
          return r, calls + 1;
        }
        RemovingSent(st, start, items, i, id, tenant, answers, before, projection, calls, runner.State(), r.value);
        projection := r.value;
        calls := calls + 1;
      } else {
        RemovingSkips(st, start, items, i, id, tenant, answers, runner.State(), projection, calls);
      }
      i := i + 1;
    }
    RemovingDone(st, start, items, id, tenant, answers, runner.State(), projection, calls);
    r := Ok(projection);
  }

  lemma CallsCount(st: Store, sent: seq<Command>, id: CartId, answers: nat -> Answers, out: Store, calls: nat)
    requires SoFar(st, sent, id, answers, out, calls)
    ensures calls == |sent| && out == Sent(st, sent, id, answers) && AllSucceed(st, sent, id, answers)
  {
  }

  lemma AllKept(lines: Lines, items: seq<Item>, version: nat, c: Cart)
    requires KeptSoFar(lines, items, |lines|, version, c)
    ensures Skeleton(c.lines) == KeepMentioned(lines, items)
    ensures c.version == version + (|lines| - |KeepMentioned(lines, items)|)
  {
    assert lines[..|lines|] == lines && KeepMentioned(lines, items) + lines[|lines|..] == KeepMentioned(lines, items);
  }

  lemma NothingSent(st: Store, ids: seq<string>, items: seq<Item>, id: CartId, answers: nat -> Answers)
    ensures Removals(ids[..0], items) == [] && Sent(st, [], id, answers) == st && AllSucceed(st, [], id, answers)
  {
  }

  lemma AllDone(st: Store, cmds: seq<Command>, id: CartId, answers: nat -> Answers, out: Store, r: Result<Cart, PutError>)
    requires out == Sent(st, cmds, id, answers) && AllSucceed(st, cmds, id, answers) && r.Ok?
    ensures Progress(st, cmds, id, answers, |cmds|, out, r)
  {
    assert cmds[..|cmds|] == cmds;
  }

  /** Second half: update or add, line by line, after the commands already sent. */
  method UpdateOrAdd(runner: CartRunner.Runner, tenant: string, id: CartId, items: seq<Item>, answers: nat -> Answers,
                     projection0: Cart, calls0: nat, ghost st: Store, ghost earlier: seq<Command>)
    returns (r: Result<Cart, PutError>, calls: nat)
    requires Inv(runner.State()) && NoFutureIds(items, runner.nextLine)
    requires Stored(runner.State(), id, projection0) && projection0.tenantId == Some(tenant)
    requires calls0 == |earlier| && runner.State() == Sent(st, earlier, id, answers) && AllSucceed(st, earlier, id, answers)
    modifies runner
    ensures Inv(runner.State())
    ensures r.Ok? ==> Stored(runner.State(), id, r.value)
    ensures r.Ok? ==> && Skeleton(r.value.lines)
                         == Requantified(Skeleton(projection0.lines), items) + Added(items, old(runner.nextLine))
                      && r.value.version == projection0.version + |items|
    ensures Progress(st, earlier + Requests(items), id, answers, calls, runner.State(), r)
  {
    hide Inv, SetQuantity, CartEngine.Change, LineId, Dispatch, Sent, AllSucceed, Progress;
    var projection := projection0;
    calls := calls0;
    ghost var kept := Skeleton(projection.lines);
    ghost var nextLine := runner.nextLine;
    ghost var cmds := earlier + Requests(items);
    assert Requantified(kept, []) == kept && items[..0] == [];
    assert DistinctIds(kept) by {
      SkeletonDistinct(runner.State(), id);
    }
    assert cmds[..calls] == earlier;
    var j := 0;
    while j < |items|
      invariant 0 <= j <= |items| && calls == |earlier| + j
      invariant Inv(runner.State()) && Stored(runner.State(), id, projection)
      invariant projection.tenantId == Some(tenant)
      invariant runner.nextLine == nextLine + |Added(items[..j], nextLine)|
      invariant Skeleton(projection.lines) == Requantified(kept, items[..j]) + Added(items[..j], nextLine)
      invariant projection.version == projection0.version + j
      invariant runner.State() == Sent(st, cmds[..calls], id, answers) && AllSucceed(st, cmds[..calls], id, answers)
    {
      var item := items[j];
      ghost var before := runner.State();
      r, projection := SendOne(runner, tenant, id, item, answers(calls), projection, kept, items, j, nextLine);
      assert cmds[calls] == Requests(items)[j] == RequestOf(item);
      if r.Err? {
        StopsHere(st, cmds, calls, id, answers, runner.State(), r);
        return r, calls + 1;
      }
      SentOneMore(st, cmds[..calls], cmds[calls], id, answers);
      assert cmds[..calls + 1] == cmds[..calls] + [cmds[calls]];
      calls := calls + 1;
      j := j + 1;
    }
    assert items[..|items|] == items && cmds[..calls] == cmds;
    r := Ok(projection);
    AllDone(st, cmds, id, answers, runner.State(), r);
  }

  /** One requested line: update it or add it. */
  method SendOne(runner: CartRunner.Runner, tenant: string, id: CartId, item: Item, ans: Answers, projection: Cart,
                 ghost kept: Lines, ghost items: seq<Item>, ghost j: nat, ghost nextLine: nat)
    returns (r: Result<Cart, PutError>, next: Cart)
    requires Inv(runner.State()) && Stored(runner.State(), id, projection) && projection.tenantId == Some(tenant)
    requires j < |items| && item == items[j] && NoFutureIds(items, nextLine) && DistinctIds(kept)
    requires runner.nextLine == nextLine + |Added(items[..j], nextLine)|
    requires Skeleton(projection.lines) == Requantified(kept, items[..j]) + Added(items[..j], nextLine)
    modifies runner
    ensures Inv(runner.State())
    ensures (runner.State(), if r.Ok? then Ok(r.value) else Err(if r.error.Refused? then r.error.error else Invalid))
         == Dispatch(old(runner.State()), RequestOf(item), Some(id), ans)
    ensures r.Err? ==> r.error.Refused?
    ensures r.Ok? ==> && Stored(runner.State(), id, next) && next.tenantId == Some(tenant) && next.version == projection.version + 1
                      && runner.nextLine == nextLine + |Added(items[..j + 1], nextLine)|
                      && Skeleton(next.lines) == Requantified(kept, items[..j + 1]) + Added(items[..j + 1], nextLine)
  {
    hide Inv, SetQuantity, CartEngine.Change, LineId, Dispatch;
    next := projection;
    ghost var before := runner.State();
    SkeletonDistinct(before, id);
    if item.lineId.Some? {
      r := DispatchForTenant(runner, tenant, UpdateItemQty(item.lineId.value, item.quantity), id, ans);
      if r.Ok? {
        UpdateSucceeded(before, item.lineId.value, item.quantity, id, ans);
        UpdateOne(kept, items, j, nextLine);
        next := r.value;
      }
    } else {
      r := DispatchForTenant(runner, tenant, AddItem(item.itemId, item.quantity), id, ans);
      if r.Ok? {
        AddSucceeded(before, item.itemId, item.quantity, id, ans);
        AddOne(kept, items, j, nextLine);
        next := r.value;
      }
    }
  }

  /** Everything one request sends to the engine. */
  function PutCommands(c: Cart, items: seq<Item>): seq<Command> {
    Removals(LineIds(c.lines), items) + Requests(items)
  }

  lemma FailedEarly(st: Store, first: seq<Command>, more: seq<Command>, id: CartId, answers: nat -> Answers, n: nat,
                    out: Store, r: Result<Cart, PutError>)
    requires Progress(st, first, id, answers, n, out, r) && r.Err?
    ensures Progress(st, first + more, id, answers, n, out, r)
  {
    hide Dispatch, Sent, AllSucceed;
    assert (first + more)[..n] == first[..n] && (first + more)[..n - 1] == first[..n - 1] && (first + more)[n - 1] == first[n - 1];
  }

  /**
   The PUT handler: remove what is not requested, then update or add line by line. On
   success the cart holds exactly the requested replacement, and its version has grown by
   the number of removals plus the number of requested lines. On failure exactly the
   commands up to and including the one that failed took effect.
   */
  method UpdateCart(runner: CartRunner.Runner, tenant: string, id: CartId, items: seq<Item>, answers: nat -> Answers)
    returns (r: Result<Cart, PutError>, calls: nat)
    requires Inv(runner.State())
    requires NoFutureIds(items, runner.nextLine)
    modifies runner
    ensures Inv(runner.State())
    ensures old(id !in runner.snapshots) ==> r == Err(Refused(CartNotFound)) && runner.State() == old(runner.State())
    ensures old(id in runner.snapshots && runner.snapshots[id].tenantId != Some(tenant)) ==>
              r == Err(TenantMismatch) && runner.State() == old(runner.State())
    ensures r.Ok? ==> old(id in runner.snapshots && runner.snapshots[id].tenantId == Some(tenant))
    ensures r.Ok? ==> Stored(runner.State(), id, r.value)
    ensures r.Ok? ==> IsReplacement(old(runner.snapshots[id]), items, old(runner.nextLine), r.value)
    ensures old(id in runner.snapshots && runner.snapshots[id].tenantId == Some(tenant)) ==>
              Progress(old(runner.State()), PutCommands(old(runner.snapshots[id]), items), id, answers, calls, runner.State(), r)
  {
    hide Inv, NoFutureIds, KeepMentioned, Requantified, Added, Skeleton, Sent, AllSucceed, Removals, Requests;
    if id !in runner.snapshots {
      return Err(Refused(CartNotFound)), 0;
    }
    if runner.snapshots[id].tenantId != Some(tenant) {
      return Err(TenantMismatch), 0;
    }
    ghost var st := runner.State();
    ghost var removals := Removals(LineIds(runner.snapshots[id].lines), items);
    r, calls := RemoveUnmentioned(runner, tenant, id, items, answers);
    if r.Ok? {
      assert removals[..|removals|] == removals;
      hide Progress, Dispatch;
      r, calls := UpdateOrAdd(runner, tenant, id, items, answers, r.value, calls, st, removals);
    } else {
      hide Progress, Dispatch;
      FailedEarly(st, removals, Requests(items), id, answers, calls, runner.State(), r);
    }
  }

  lemma KeepNext(lines: Lines, items: seq<Item>, i: nat)
    requires i < |lines|
    ensures Mentions(items, lines[i].0) ==>
              && KeepMentioned(lines[..i + 1], items) == KeepMentioned(lines[..i], items) + [lines[i]]
              && KeepMentioned(lines[..i + 1], items) + lines[i + 1..] == KeepMentioned(lines[..i], items) + lines[i..]
  {
    assert lines[..i + 1][..i] == lines[..i] && lines[..i + 1][i] == lines[i];
    assert lines[i..] == [lines[i]] + lines[i + 1..];
  }

  lemma RemoveOne(lines: Lines, items: seq<Item>, i: nat)
    requires i < |lines| && DistinctIds(lines) && !Mentions(items, lines[i].0)
    ensures DropLine(KeepMentioned(lines[..i], items) + lines[i..], lines[i].0)
         == KeepMentioned(lines[..i + 1], items) + lines[i + 1..]
    ensures KeepMentioned(lines[..i + 1], items) == KeepMentioned(lines[..i], items)
  {
    var a, b := KeepMentioned(lines[..i], items), lines[i + 1..];
    assert lines[..i + 1][..i] == lines[..i];
    KeepMembers(lines[..i], items);
    assert !HasId(a, lines[i].0) by {
      forall k | 0 <= k < |a|
        ensures a[k].0 != lines[i].0
      {
        assert a[k] in lines[..i];
      }
    }
    DropMiddle(a, lines[i].0, lines[i].1, b);
    assert a + lines[i..] == a + [(lines[i].0, lines[i].1)] + b;
    assert a + [] == a;
  }

  lemma UpdateOne(kept: Lines, items: seq<Item>, j: nat, nextLine: nat)
    requires j < |items| && items[j].lineId.Some? && DistinctIds(kept) && NoFutureIds(items, nextLine)
    requires HasId(Requantified(kept, items[..j]) + Added(items[..j], nextLine), items[j].lineId.value)
    requires DistinctIds(Requantified(kept, items[..j]) + Added(items[..j], nextLine))
    ensures SetQuantity(Requantified(kept, items[..j]) + Added(items[..j], nextLine),
                        items[j].lineId.value, items[j].quantity)
         == Requantified(kept, items[..j + 1]) + Added(items[..j + 1], nextLine)
    ensures Added(items[..j + 1], nextLine) == Added(items[..j], nextLine)
  {
    hide LineId;
    var id, q := items[j].lineId.value, items[j].quantity;
    var now, added := Requantified(kept, items[..j]), Added(items[..j], nextLine);
    AddedIds(items[..j], nextLine);
    var all: Lines := now + added;
    forall k: nat | |now| <= k < |all|
      ensures all[k].0 != id
    {
      assert all[k] == added[k - |now|];
      assert items[j].lineId != Some(LineId(nextLine + (k - |now|)));
    }
    var i :| 0 <= i < |all| && all[i].0 == id;
    SetAt(all, i, q);
    assert items[..j + 1][..j] == items[..j] && items[..j + 1][j] == items[j];
    assert all[i := (id, q)] == now[i := (id, q)] + added;
    assert forall k :: 0 <= k < |kept| && k != i ==> kept[k].0 != id by {
      assert forall k :: 0 <= k < |kept| ==> kept[k].0 == now[k].0;
    }
    assert Requantified(kept, items[..j + 1]) == now[i := (id, q)];
  }

  lemma AddOne(kept: Lines, items: seq<Item>, j: nat, nextLine: nat)
    requires j < |items| && items[j].lineId.None?
    ensures Requantified(kept, items[..j]) + Added(items[..j], nextLine)
            + [(LineId(nextLine + |Added(items[..j], nextLine)|), items[j].quantity)]
         == Requantified(kept, items[..j + 1]) + Added(items[..j + 1], nextLine)
    ensures |Added(items[..j + 1], nextLine)| == |Added(items[..j], nextLine)| + 1
  {
    assert items[..j + 1][..j] == items[..j] && items[..j + 1][j] == items[j];
    assert Requantified(kept, items[..j + 1]) == Requantified(kept, items[..j]);
  }

  /** What a replacement is: requested existing lines in their old order with their last quantity, then the new ones. */
  lemma ReplacementContents(lines: Lines, items: seq<Item>, nextLine: nat)
    requires DistinctIds(lines)
    ensures var r := Replacement(lines, items, nextLine);
            var k := |KeepMentioned(lines, items)|;
            && (forall i :: 0 <= i < k ==> Mentions(items, r[i].0) && HasId(lines, r[i].0)
                                           && r[i].1 == LastQuantity(items, r[i].0, 0))
            && (forall id :: HasId(lines, id) && Mentions(items, id) ==> HasId(r[..k], id))
            && (forall i :: k <= i < |r| ==> r[i].0 == LineId(nextLine + (i - k)))
  {
    var kept := KeepMentioned(lines, items);
    var r := Replacement(lines, items, nextLine);
    KeepMembers(lines, items);
    AddedIds(items, nextLine);
    forall i | 0 <= i < |kept|
      ensures Mentions(items, r[i].0) && HasId(lines, r[i].0) && r[i].1 == LastQuantity(items, r[i].0, 0)
    {
      assert kept[i] in lines;
      MentionedQuantity(items, kept[i].0, kept[i].1, 0);
    }
    forall id | HasId(lines, id) && Mentions(items, id)
      ensures HasId(r[..|kept|], id)
    {
      var j :| 0 <= j < |lines| && lines[j].0 == id;
      assert lines[j] in kept;
      var i :| 0 <= i < |kept| && kept[i] == lines[j];
      assert r[..|kept|][i].0 == id;
    }
  }

  // ---- What the log says of a request ------------------------------------------------------------

  predicate AreChanges(cmds: seq<Command>) {
    forall cmd :: cmd in cmds ==> IsChange(cmd) && !cmd.SetFulfillment?
  }

  /** The event records the edit this command asks for. */
  predicate Asks(cmd: Command, e: Event) {
    match cmd
    case AddItem(itemId, quantity) => e.ItemAdded? && e.itemId == itemId && e.quantity == quantity
    case UpdateItemQty(lineId, quantity) => e == ItemQtyUpdated(lineId, quantity)
    case RemoveItem(lineId) => e == ItemRemoved(lineId)
    case ApplyAdjustment(code) => e == AdjustmentApplied(code)
    case _ => false
  }

  lemma ChangeLogs(st: Store, cmd: Command, id: CartId, ans: Answers)
    requires Inv(st) && id in st.snapshots && IsChange(cmd) && !cmd.SetFulfillment? && Dispatch(st, cmd, Some(id), ans).1.Ok?
    ensures var out := Dispatch(st, cmd, Some(id), ans).0;
            && Inv(out) && id in out.snapshots && |Log(out, id)| == |Log(st, id)| + 4
            && Log(out, id)[..|Log(st, id)|] == Log(st, id) && Asks(cmd, Log(out, id)[|Log(st, id)|])
  {
    DispatchKeeps(st, cmd, Some(id), ans);
    hide Change, Inv, CartOutcomes.Edit, CartOutcomes.Recomputed;
    var edited, e := CartOutcomes.ChangeOutcome(st, cmd, id, ans);
    hide Dispatch;
  }

  lemma ChangesLess(cmds: seq<Command>)
    requires AreChanges(cmds) && cmds != []
    ensures AreChanges(cmds[..|cmds| - 1]) && IsChange(cmds[|cmds| - 1]) && !cmds[|cmds| - 1].SetFulfillment?
  {
  }

  lemma {:induction false} SentGrows(st: Store, cmds: seq<Command>, id: CartId, answers: nat -> Answers)
    requires Inv(st) && id in st.snapshots && AreChanges(cmds) && AllSucceed(st, cmds, id, answers)
    ensures var out := Sent(st, cmds, id, answers);
            Inv(out) && id in out.snapshots && |Log(out, id)| == |Log(st, id)| + 4 * |cmds|
    decreases |cmds|
  {
    hide Inv, Dispatch, Asks, Log, AreChanges;
    if cmds != [] {
      var front := cmds[..|cmds| - 1];
      ChangesLess(cmds);
      SentGrows(st, front, id, answers);
      ChangeLogs(Sent(st, front, id, answers), cmds[|cmds| - 1], id, answers(|front|));
    }
  }

  /** Commands that all succeed are logged one by one, each in front of its three stages. */
  lemma {:induction false} SentLogs(st: Store, cmds: seq<Command>, id: CartId, answers: nat -> Answers, k: nat)
    requires Inv(st) && id in st.snapshots && AreChanges(cmds) && AllSucceed(st, cmds, id, answers) && k < |cmds|
    ensures var log, i := Log(Sent(st, cmds, id, answers), id), |Log(st, id)| + 4 * k;
            i < |log| && Asks(cmds[k], log[i])
    decreases |cmds|
  {
    hide Inv, Dispatch, Asks, Log, AreChanges;
    var front, cmd := cmds[..|cmds| - 1], cmds[|cmds| - 1];
    ChangesLess(cmds);
    SentGrows(st, front, id, answers);
    var before := Sent(st, front, id, answers);
    ChangeLogs(before, cmd, id, answers(|front|));
    if k < |front| {
      SentLogs(st, front, id, answers, k);
      var log, i := Log(Sent(st, cmds, id, answers), id), |Log(st, id)| + 4 * k;
      assert log[i] == log[..|Log(before, id)|][i];
    }
  }

  /** The edit that one requested line asks for. */
  predicate Records(e: Event, item: Item) {
    match item.lineId
    case Some(id) => e == ItemQtyUpdated(id, item.quantity)
    case None => e.ItemAdded? && e.itemId == item.itemId && e.quantity == item.quantity
  }

  lemma {:induction false} RemovalsAre(ids: seq<string>, items: seq<Item>)
    ensures forall cmd :: cmd in Removals(ids, items) <==> cmd.RemoveItem? && cmd.goneLineId in ids && !Mentions(items, cmd.goneLineId)
    ensures |Removals(ids, items)| <= |ids|
  {
    hide Mentions;
    if ids != [] {
      var front, last := ids[..|ids| - 1], ids[|ids| - 1];
      RemovalsAre(front, items);
      assert forall x :: x in ids <==> x in front || x == last by {
        assert ids == front + [last];
      }
    }
  }

  /** The edit logged by command `k`, counted from this place in the log. */
  function EditAt(log: seq<Event>, at: nat, k: nat): Event
    requires at + 4 * k < |log|
  {
    log[at + 4 * k]
  }

  lemma CommandsAre(c: Cart, items: seq<Item>)
    ensures AreChanges(PutCommands(c, items))
    ensures |PutCommands(c, items)| == |Removals(LineIds(c.lines), items)| + |items|
  {
    RemovalsAre(LineIds(c.lines), items);
    hide Mentions, LineIds, Removals;
  }

  /** After a successful request the log goes on with removals, each of a line that is not requested. */
  lemma RemovalIsLogged(st: Store, items: seq<Item>, id: CartId, answers: nat -> Answers, k: nat)
    requires Inv(st) && id in st.snapshots && k < |Removals(LineIds(st.snapshots[id].lines), items)|
    requires AllSucceed(st, PutCommands(st.snapshots[id], items), id, answers)
    ensures var ids, log := LineIds(st.snapshots[id].lines), Log(Sent(st, PutCommands(st.snapshots[id], items), id, answers), id);
            var cmd := Removals(ids, items)[k];
            && cmd.RemoveItem? && cmd.goneLineId in ids && !Mentions(items, cmd.goneLineId)
            && |Log(st, id)| + 4 * k < |log| && EditAt(log, |Log(st, id)|, k) == ItemRemoved(cmd.goneLineId)
  {
    var ids, cmds := LineIds(st.snapshots[id].lines), PutCommands(st.snapshots[id], items);
    RemovalsAre(ids, items);
    CommandsAre(st.snapshots[id], items);
    var removals := Removals(ids, items);
    assert cmds[k] == removals[k] && removals[k] in removals;
    hide Inv, Sent, AllSucceed, Mentions, LineIds, Log, AreChanges, Removals;
    SentLogs(st, cmds, id, answers, k);
  }

  /** Then, in order, come the requested lines: a new quantity, or an addition by the item and in the quantity asked for. */
  lemma ItemIsLogged(st: Store, items: seq<Item>, id: CartId, answers: nat -> Answers, j: nat)
    requires Inv(st) && id in st.snapshots && j < |items|
    requires AllSucceed(st, PutCommands(st.snapshots[id], items), id, answers)
    ensures var ids, log := LineIds(st.snapshots[id].lines), Log(Sent(st, PutCommands(st.snapshots[id], items), id, answers), id);
            var k := |Removals(ids, items)| + j;
            |Log(st, id)| + 4 * k < |log| && Records(EditAt(log, |Log(st, id)|, k), items[j])
  {
    hide *;
    var cmds := PutCommands(st.snapshots[id], items);
    CommandsAre(st.snapshots[id], items);
    RequestAt(st.snapshots[id], items, j);
    var k := |Removals(LineIds(st.snapshots[id].lines), items)| + j;
    SentLogs(st, cmds, id, answers, k);
    var log, at := Log(Sent(st, cmds, id, answers), id), |Log(st, id)|;
    RequestRecords(items[j], log, at, k);
  }

  lemma RequestAt(c: Cart, items: seq<Item>, j: nat)
    requires j < |items|
    ensures var k := |Removals(LineIds(c.lines), items)| + j;
            k < |PutCommands(c, items)| && PutCommands(c, items)[k] == RequestOf(items[j])
  {
    hide Removals, LineIds, RequestOf;
  }

  lemma RequestRecords(item: Item, log: seq<Event>, at: nat, k: nat)
    requires at + 4 * k < |log| && Asks(RequestOf(item), log[at + 4 * k])
    ensures Records(EditAt(log, at, k), item)
  {
  }

  /** And each line that is not requested has such a removal. */
  lemma GoneIsLogged(st: Store, items: seq<Item>, id: CartId, answers: nat -> Answers, x: string) returns (k: nat)
    requires Inv(st) && id in st.snapshots && x in LineIds(st.snapshots[id].lines) && !Mentions(items, x)
    requires AllSucceed(st, PutCommands(st.snapshots[id], items), id, answers)
    ensures k < |Removals(LineIds(st.snapshots[id].lines), items)|
    ensures var log := Log(Sent(st, PutCommands(st.snapshots[id], items), id, answers), id);
            |Log(st, id)| + 4 * k < |log| && EditAt(log, |Log(st, id)|, k) == ItemRemoved(x)
  {
    hide *;
    var ids := LineIds(st.snapshots[id].lines);
    RemovalsAre(ids, items);
    assert RemoveItem(x) in Removals(ids, items);
    k :| 0 <= k < |Removals(ids, items)| && Removals(ids, items)[k] == RemoveItem(x);
    RemovalIsLogged(st, items, id, answers, k);
  }
}
