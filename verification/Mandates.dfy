/** The replay guard for payment mandates: a map that forgets expired entries, against the full history. */
module Mandates {
  type Seen = map<string, int>

  /** One recording: the mandate, when it expires, and what the clock reads. */
  datatype Recording = Recording(id: string, expiresAt: int, now: int)

  /** Forget every mandate whose expiry is not after `now`. */
  function Retained(seen: Seen, now: int): Seen {
    map id | id in seen && seen[id] > now :: seen[id]
  }

  predicate Accepts(seen: Seen, r: Recording) {
    r.id !in Retained(seen, r.now)
  }

  function Recorded(seen: Seen, r: Recording): Seen {
    var kept := Retained(seen, r.now);
    if r.id in kept then kept else kept[r.id := r.expiresAt]
  }

  class InMemoryMandateDedupeStore {
    var seen: Seen

    constructor ()
      ensures seen == map[]
    {
      seen := map[];
    }

    method RecordMandate(id: string, expiresAt: int, now: int) returns (accepted: bool)
      modifies this
      ensures accepted == Accepts(old(seen), Recording(id, expiresAt, now))
      ensures seen == Recorded(old(seen), Recording(id, expiresAt, now))
    {
      var all := seen;
      var todo := seen.Keys;
      while todo != {}
        invariant todo <= all.Keys
        invariant seen == map id | id in all && (id in todo || all[id] > now) :: all[id]
        decreases |todo|
      {
        var key :| key in todo;
        todo := todo - {key};
        if all[key] <= now {
          seen := seen - {key};
        }
      }
      if id in seen {
        return false;
      }
      seen := seen[id := expiresAt];
      return true;
    }
  }

  // ---- The pruned map against everything ever accepted ------------------------------------------

  /** The map after a history of recordings. */
  function After(history: seq<Recording>): Seen
    decreases |history|
  {
    if history == [] then map[] else Recorded(After(history[..|history| - 1]), history[|history| - 1])
  }

  predicate Accepted(history: seq<Recording>, i: nat)
    requires i < |history|
  {
    Accepts(After(history[..i]), history[i])
  }

  /** The clock never reads less than it did. */
  predicate Monotone(history: seq<Recording>) {
    forall i, j :: 0 <= i <= j < |history| ==> history[i].now <= history[j].now
  }

  /** Recording `i` accepted the mandate, and no clock reading since has reached its expiry. */
  predicate Remembered(history: seq<Recording>, id: string, i: nat) {
    && i < |history| && history[i].id == id && Accepted(history, i)
    && forall j :: i < j < |history| ==> history[j].now < history[i].expiresAt
  }

  lemma AcceptedEarlier(history: seq<Recording>, r: Recording)
    ensures forall i :: 0 <= i < |history| ==> (Accepted(history + [r], i) <==> Accepted(history, i))
    ensures Accepted(history + [r], |history|) <==> Accepts(After(history), r)
    ensures After(history + [r]) == Recorded(After(history), r)
  {
    var all := history + [r];
    assert all[..|history|] == history;
    forall i | 0 <= i < |history|
      ensures Accepted(all, i) <==> Accepted(history, i)
    {
      assert all[..i] == history[..i];
    }
  }

  lemma RememberedLater(past: seq<Recording>, r: Recording, id: string, i: nat)
    requires i < |past|
    ensures Remembered(past + [r], id, i) <==> Remembered(past, id, i) && r.now < past[i].expiresAt
  {
    AcceptedEarlier(past, r);
    var all := past + [r];
    assert all[i] == past[i] && all[|past|] == r;
    assert forall j :: i < j < |past| ==> all[j] == past[j];
    hide Accepted;
  }

  /** Every entry of the map comes from an acceptance that is still remembered. */
  lemma {:induction false} EntryHasOrigin(history: seq<Recording>, id: string) returns (i: nat)
    requires id in After(history)
    ensures Remembered(history, id, i) && After(history)[id] == history[i].expiresAt
    decreases |history|
  {
    var n := |history| - 1;
    var past, r := history[..n], history[n];
    assert history == past + [r];
    AcceptedEarlier(past, r);
    if id in Retained(After(past), r.now) {
      i := EntryHasOrigin(past, id);
      RememberedLater(past, r, id, i);
    } else {
      i := n;
    }
  }

  /** And every remembered acceptance is in the map. */
  lemma {:induction false} RememberedIsKept(history: seq<Recording>, id: string, i: nat)
    requires Remembered(history, id, i)
    ensures id in After(history) && After(history)[id] == history[i].expiresAt
    decreases |history|
  {
    var n := |history| - 1;
    var past, r := history[..n], history[n];
    assert history == past + [r];
    AcceptedEarlier(past, r);
    if i < n {
      RememberedLater(past, r, id, i);
      RememberedIsKept(past, id, i);
    }
  }

  lemma AcceptedBefore(history: seq<Recording>, k: nat)
    requires k <= |history|
    ensures forall i :: 0 <= i < k ==> history[..k][i] == history[i] && (Accepted(history[..k], i) <==> Accepted(history, i))
  {
    forall i | 0 <= i < k
      ensures history[..k][i] == history[i] && (Accepted(history[..k], i) <==> Accepted(history, i))
    {
      assert history[..k][..i] == history[..i];
    }
  }

  lemma RefusedByEarlier(history: seq<Recording>, k: nat) returns (i: nat)
    requires k < |history| && !Accepted(history, k)
    ensures i < k && history[i].id == history[k].id && Accepted(history, i)
    ensures forall j :: i < j <= k ==> history[j].now < history[i].expiresAt
  {
    var past := history[..k];
    i := EntryHasOrigin(past, history[k].id);
    AcceptedBefore(history, k);
    hide Accepted, After;
    assert forall j :: i < j < k ==> past[j] == history[j];
  }

  lemma ForgottenSince(history: seq<Recording>, k: nat, i: nat) returns (j: nat)
    requires i < k < |history| && Accepted(history, k) && history[i].id == history[k].id && Accepted(history, i)
    ensures i < j <= k && history[j].now >= history[i].expiresAt
  {
    var past := history[..k];
    AcceptedBefore(history, k);
    if Remembered(past, history[k].id, i) {
      RememberedIsKept(past, history[k].id, i);
      j := k;
    } else {
      hide Accepted, After;
      j :| i < j < k && past[j].now >= past[i].expiresAt;
    }
  }

  /**
   Pruning, whatever the clock does: the guard accepts a mandate exactly when every
   earlier acceptance of it has seen, at some recording since, a clock reading that
   reached its expiry.
   */
  lemma AcceptedExactly(history: seq<Recording>, k: nat)
    requires k < |history|
    ensures Accepted(history, k) <==>
            forall i :: 0 <= i < k && history[i].id == history[k].id && Accepted(history, i)
              ==> exists j :: i < j <= k && history[j].now >= history[i].expiresAt
  {
    if !Accepted(history, k) {
      var i := RefusedByEarlier(history, k);
    } else {
      forall i | 0 <= i < k && history[i].id == history[k].id && Accepted(history, i)
        ensures exists j :: i < j <= k && history[j].now >= history[i].expiresAt
      {
        var j := ForgottenSince(history, k, i);
      }
    }
  }

  /**
   Under a clock that never runs backwards pruning is invisible: the guard accepts a
   mandate exactly when every earlier acceptance of it has expired, as a guard that kept
   the whole history would.
   */
  lemma PrunedMapAgrees(history: seq<Recording>, k: nat)
    requires Monotone(history) && k < |history|
    ensures Accepted(history, k) <==>
            forall i :: 0 <= i < k && history[i].id == history[k].id && Accepted(history, i)
              ==> history[i].expiresAt <= history[k].now
  {
    AcceptedExactly(history, k);
  }

  /** Verification refuses a mandate that has expired, and a mandate's expiry is part of what was signed. */
  predicate VerifiedUnexpired(history: seq<Recording>, id: string, expiresAt: int) {
    forall i :: 0 <= i < |history| && history[i].id == id ==> history[i].expiresAt == expiresAt > history[i].now
  }

  /** So a mandate verified unexpired at each recording is accepted at most once. */
  lemma AcceptedAtMostOnce(history: seq<Recording>, id: string, expiresAt: int, j: nat, k: nat)
    requires Monotone(history) && VerifiedUnexpired(history, id, expiresAt)
    requires j < |history| && k < |history| && history[j].id == id && history[k].id == id
    requires Accepted(history, j) && Accepted(history, k)
    ensures j == k
  {
    PrunedMapAgrees(history, j);
    PrunedMapAgrees(history, k);
  }

  /** An acceptance, then a reading at or past the expiry, then another recording of the mandate. */
  predicate Outlived(history: seq<Recording>, id: string, expiresAt: int, i: nat, j: nat, k: nat) {
    && i < j < k < |history| && history[i].id == id && Accepted(history, i)
    && history[j].now >= expiresAt && history[k].id == id
  }

  predicate AcceptedTwice(history: seq<Recording>, id: string, i: nat, k: nat) {
    i < k < |history| && history[i].id == id && history[k].id == id && Accepted(history, i) && Accepted(history, k)
  }

  lemma TwiceMeansOutlived(history: seq<Recording>, id: string, expiresAt: int, i: nat, k: nat) returns (j: nat)
    requires VerifiedUnexpired(history, id, expiresAt) && AcceptedTwice(history, id, i, k)
    ensures Outlived(history, id, expiresAt, i, j, k)
  {
    AcceptedExactly(history, k);
    j :| i < j <= k && history[j].now >= history[i].expiresAt;
  }

  lemma OutlivedMeansTwice(history: seq<Recording>, id: string, expiresAt: int, i: nat, j: nat, k: nat) returns (m: nat)
    requires VerifiedUnexpired(history, id, expiresAt) && Outlived(history, id, expiresAt, i, j, k)
    ensures AcceptedTwice(history, id, i, m)
  {
    m := k;
    if !Accepted(history, k) {
      AcceptedExactly(history, k);
      m :| 0 <= m < k && history[m].id == id && Accepted(history, m)
           && forall x :: m < x <= k ==> history[x].now < history[m].expiresAt;
      assert m >= j;
    }
  }

  /**
   At most once, exactly. Whatever the clock does, a mandate verified unexpired at each of
   its recordings is accepted more than once if and only if it is recorded again after a
   reading at or past its expiry that itself followed an acceptance.
   */
  lemma AcceptedTwiceExactly(history: seq<Recording>, id: string, expiresAt: int)
    requires VerifiedUnexpired(history, id, expiresAt)
    ensures (exists i, k :: AcceptedTwice(history, id, i, k))
       <==> exists i, j, k :: Outlived(history, id, expiresAt, i, j, k)
  {
    if i, k :| AcceptedTwice(history, id, i, k) {
      var j := TwiceMeansOutlived(history, id, expiresAt, i, k);
    }
    if i, j, k :| Outlived(history, id, expiresAt, i, j, k) {
      var m := OutlivedMeansTwice(history, id, expiresAt, i, j, k);
    }
  }

  /** The clock must not run backwards: a reading past the expiry forgets the mandate, and an earlier one accepts it again. */
  lemma ClockStepBackReplays()
    ensures var history := [Recording("m", 10, 5), Recording("n", 99, 20), Recording("m", 10, 5)];
            VerifiedUnexpired(history, "m", 10) && Accepted(history, 0) && Accepted(history, 2)
  {
    var a, b, c := Recording("m", 10, 5), Recording("n", 99, 20), Recording("m", 10, 5);
    assert After([]) == map[];
    hide After, Accepted;
    AcceptedEarlier([], a);
    AcceptedEarlier([a], b);
    AcceptedEarlier([a, b], c);
    assert [] + [a] == [a] && [a] + [b] == [a, b] && [a, b] + [c] == [a, b, c];
    assert Retained(map[], 5) == map[];
    assert Recorded(map[], a) == map["m" := 10];
    assert Retained(map["m" := 10], 20) == map[];
    assert Recorded(map["m" := 10], b) == map["n" := 99];
    assert Accepted([a], 0) && Accepted([a, b], 0);
    hide Recorded;
  }
}
