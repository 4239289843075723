/**
 Acknowledgement of a sent batch (internal/storeforward/ack.go) and the per-point
 drift counters it feeds (internal/storeforward/buffer.go, RecordDrift).
 */
module Ack {
  import opened Prelude

  datatype SentFrame = SentFrame(id: nat, pointId: string)

  type Tally = map<string, int>

  ghost function Sum(m: Tally): int
    decreases |m|
  {
    if m == map[] then 0
    else
      var k :| k in m;
      m[k] + Sum(m - {k})
  }

  lemma {:induction false} SumWithout(m: Tally, k: string)
    requires k in m
    ensures Sum(m) == m[k] + Sum(m - {k})
    decreases |m|
  {
    var j :| j in m && Sum(m) == m[j] + Sum(m - {j});
    if j != k {
      SumWithout(m - {j}, k);
      SumWithout(m - {k}, j);
      assert m - {j} - {k} == m - {k} - {j};
    }
  }

  function Count(m: Tally, k: string): int {
    if k in m then m[k] else 0
  }

  /** drifts[k] += delta */
  function Bump(m: Tally, k: string, delta: int): Tally {
    m[k := Count(m, k) + delta]
  }

  lemma SumBump(m: Tally, k: string, delta: int)
    ensures Sum(Bump(m, k, delta)) == Sum(m) + delta
  {
    var b := Bump(m, k, delta);
    SumWithout(b, k);
    if k in m {
      SumWithout(m, k);
      assert b - {k} == m - {k};
    } else {
      assert b - {k} == m;
    }
  }

  ghost function PointBag(batch: seq<SentFrame>): multiset<string> {
    multiset(seq(|batch|, i requires 0 <= i < |batch| => batch[i].pointId))
  }

  lemma BagAppend(batch: seq<SentFrame>, x: SentFrame)
    ensures PointBag(batch + [x]) == PointBag(batch) + multiset{x.pointId}
  {
    var ids := seq(|batch|, i requires 0 <= i < |batch| => batch[i].pointId);
    var more := batch + [x];
    assert seq(|more|, i requires 0 <= i < |more| => more[i].pointId) == ids + [x.pointId];
  }

  /** A tally is the counting map of a bag: same keys, same multiplicities. */
  ghost predicate Counts(m: Tally, bag: multiset<string>) {
    && (forall k :: k in m ==> m[k] == bag[k] && bag[k] > 0)
    && (forall k :: k in bag ==> k in m)
  }

  lemma CountsBump(m: Tally, bag: multiset<string>, k: string)
    requires Counts(m, bag)
    ensures Counts(Bump(m, k, 1), bag + multiset{k})
  {
    var b, c := Bump(m, k, 1), bag + multiset{k};
    assert c[k] == bag[k] + 1 && (k !in m ==> bag[k] == 0);
    assert forall j :: j != k ==> c[j] == bag[j];
  }

  lemma {:induction false} SumOfCounts(m: Tally, bag: multiset<string>)
    requires Counts(m, bag)
    ensures Sum(m) == |bag|
    decreases |m|
  {
    if m == map[] {
      assert bag == multiset{};
    } else {
      var k :| k in m;
      SumWithout(m, k);
      var rest := bag[k := 0];
      assert bag == rest + multiset{}[k := bag[k]];
      SumOfCounts(m - {k}, rest);
    }
  }

  /** The frames of a batch that an ack leaves unaccounted for: its tail past `accepted`, clamped at both ends. */
  function Unaccepted(batch: seq<SentFrame>, accepted: int): seq<SentFrame> {
    if accepted >= |batch| then [] else batch[Max(0, accepted)..]
  }

  /** That tail: what is left of the batch after the accepted frames, which are its first ones. */
  lemma UnacceptedIsTail(batch: seq<SentFrame>, accepted: int)
    ensures |Unaccepted(batch, accepted)| == if accepted <= 0 then |batch| else Max(0, |batch| - accepted)
    ensures batch[|batch| - |Unaccepted(batch, accepted)|..] == Unaccepted(batch, accepted)
  {
  }

  /** Cursor past the whole batch; drifts are the per-point counts of the unaccepted tail. */
  method ApplyAck(batch: seq<SentFrame>, accepted: int) returns (newCursor: nat, drifts: Tally)
    ensures newCursor == if batch == [] then 0 else batch[|batch| - 1].id
    ensures Counts(drifts, PointBag(Unaccepted(batch, accepted)))
  {
    if |batch| == 0 {
      assert Unaccepted(batch, accepted) == [];
      return 0, map[];
    }
    newCursor := batch[|batch| - 1].id;
    drifts := map[];
    var lost := |batch| - accepted;
    if lost <= 0 {
      return;
    }
    var start := accepted;
    if start < 0 {
      start := 0;
    }
    var tail := batch[start..];
    for i := 0 to |tail|
      invariant Counts(drifts, PointBag(tail[..i]))
    {
      assert tail[..i + 1] == tail[..i] + [tail[i]];
      BagAppend(tail[..i], tail[i]);
      CountsBump(drifts, PointBag(tail[..i]), tail[i].pointId);
      drifts := Bump(drifts, tail[i].pointId, 1);
    }
    assert tail[..|tail|] == tail;
  }

  /** Sent = accepted + drift for one checkpoint exactly when the server's count lies in 0..batch size. */
  lemma AckBalances(batch: seq<SentFrame>, accepted: int, drifts: Tally)
    requires Counts(drifts, PointBag(Unaccepted(batch, accepted)))
    ensures |batch| == accepted + Sum(drifts) <==> 0 <= accepted <= |batch|
  {
    SumOfCounts(drifts, PointBag(Unaccepted(batch, accepted)));
  }

  /** Every per-point delta added to the running counters; the order of addition does not matter. */
  function Merge(totals: Tally, delta: Tally): Tally {
    map k | k in totals.Keys + delta.Keys :: Count(totals, k) + Count(delta, k)
  }

  lemma MergeOne(totals: Tally, delta: Tally, k: string)
    requires k in delta
    ensures Merge(totals, delta) == Merge(Bump(totals, k, delta[k]), delta - {k})
  {
    var l, r := Merge(totals, delta), Merge(Bump(totals, k, delta[k]), delta - {k});
    assert l.Keys == r.Keys;
    assert forall j :: j in l ==> l[j] == r[j];
  }

  lemma MergeNothing(totals: Tally, delta: Tally)
    requires delta == map[]
    ensures Merge(totals, delta) == totals && Sum(delta) == 0
  {
  }

  /** Adds each per-point delta to the per-point counters and to the total, in whatever order the map yields them. */
  method AddDrifts(totals: Tally, total: int, delta: Tally) returns (totals': Tally, total': int)
    ensures totals' == Merge(totals, delta) && total' == total + Sum(delta)
  {
    totals', total' := totals, total;
    var rest := delta;
    while rest != map[]
      invariant Merge(totals', rest) == Merge(totals, delta)
      invariant total' + Sum(rest) == total + Sum(delta)
      decreases |rest|
    {
      var k :| k in rest;
      MergeOne(totals', rest, k);
      SumWithout(rest, k);
      totals', total' := Bump(totals', k, rest[k]), total' + rest[k];
      rest := rest - {k};
    }
    MergeNothing(totals', rest);
  }

  lemma {:induction false} SumMerge(totals: Tally, delta: Tally)
    ensures Sum(Merge(totals, delta)) == Sum(totals) + Sum(delta)
    decreases |delta|
  {
    if delta == map[] {
      MergeNothing(totals, delta);
    } else {
      var k :| k in delta;
      MergeOne(totals, delta, k);
      SumWithout(delta, k);
      SumBump(totals, k, delta[k]);
      SumMerge(Bump(totals, k, delta[k]), delta - {k});
    }
  }
}
