/**
 The frames table of the store-and-forward buffer (internal/storeforward/buffer.go):
 rows in ascending sequence order, the persisted cursor, and the counting formula
 that splits an eviction into delivered and undelivered rows.
 */
module RingTable {
  import opened Prelude

  datatype Frame = Frame(pointId: string, payload: string)

  datatype Row = Row(id: nat, frame: Frame)

  ghost predicate Ordered(rows: seq<Row>) {
    forall i, j :: 0 <= i < j < |rows| ==> rows[i].id < rows[j].id
  }

  ghost function Ids(rows: seq<Row>): set<nat> {
    if rows == [] then {} else {rows[0].id} + Ids(rows[1..])
  }

  lemma {:induction false} IdsHas(rows: seq<Row>, i: nat)
    requires i < |rows|
    ensures rows[i].id in Ids(rows)
  {
    if i > 0 {
      IdsHas(rows[1..], i - 1);
    }
  }

  lemma {:induction false} IdsFind(rows: seq<Row>, q: nat) returns (i: nat)
    requires q in Ids(rows)
    ensures i < |rows| && rows[i].id == q
  {
    if rows[0].id == q {
      i := 0;
    } else {
      i := IdsFind(rows[1..], q);
      i := i + 1;
    }
  }

  lemma {:induction false} IdsConcat(a: seq<Row>, b: seq<Row>)
    ensures Ids(a + b) == Ids(a) + Ids(b)
  {
    if a == [] {
      assert a + b == b;
    } else {
      assert (a + b)[1..] == a[1..] + b;
      IdsConcat(a[1..], b);
    }
  }

  /** In an ordered table the oldest k rows and the rest share no id. */
  lemma IdsSplit(rows: seq<Row>, k: nat)
    requires Ordered(rows) && k <= |rows|
    ensures Ids(rows) == Ids(rows[..k]) + Ids(rows[k..])
    ensures Ids(rows[..k]) !! Ids(rows[k..])
    ensures Ordered(rows[..k]) && Ordered(rows[k..])
  {
    assert rows == rows[..k] + rows[k..];
    IdsConcat(rows[..k], rows[k..]);
    forall p, q | p in Ids(rows[..k]) && q in Ids(rows[k..])
      ensures p < q
    {
      var i := IdsFind(rows[..k], p);
      var j := IdsFind(rows[k..], q);
      assert rows[i].id < rows[k + j].id;
    }
  }

  /** SELECT COUNT(*) FROM frames WHERE seq <= cursor */
  function CountAcked(rows: seq<Row>, cursor: nat): nat {
    if rows == [] then 0
    else (if rows[0].id <= cursor then 1 else 0) + CountAcked(rows[1..], cursor)
  }

  /** The rows the DELETE statement removes: the oldest (total - capacity), if any. */
  function VictimCount(total: nat, capacity: nat): (k: nat)
    ensures k <= total && total - k <= capacity
    ensures k > 0 ==> total - k == capacity
  {
    if total > capacity then total - capacity else 0
  }

  /** The source's two-count shortcut for the victims already acked. */
  function EvictedSentFormula(rows: seq<Row>, cursor: nat, capacity: nat): nat {
    Min(VictimCount(|rows|, capacity), CountAcked(rows, cursor))
  }

  ghost function AtOrBelow(ids: set<nat>, cursor: nat): set<nat> {
    set q | q in ids && q <= cursor
  }

  ghost function Above(ids: set<nat>, cursor: nat): set<nat> {
    set q | q in ids && q > cursor
  }

  lemma FilterCons(ids: set<nat>, id: nat, cursor: nat)
    requires id !in ids
    ensures |AtOrBelow({id} + ids, cursor)| == |AtOrBelow(ids, cursor)| + (if id <= cursor then 1 else 0)
    ensures |Above({id} + ids, cursor)| == |Above(ids, cursor)| + (if id > cursor then 1 else 0)
  {
    if id <= cursor {
      assert AtOrBelow({id} + ids, cursor) == AtOrBelow(ids, cursor) + {id};
      assert Above({id} + ids, cursor) == Above(ids, cursor);
    } else {
      assert AtOrBelow({id} + ids, cursor) == AtOrBelow(ids, cursor);
      assert Above({id} + ids, cursor) == Above(ids, cursor) + {id};
    }
  }

  lemma HeadIsNew(rows: seq<Row>)
    requires Ordered(rows) && rows != []
    ensures rows[0].id !in Ids(rows[1..])
  {
    if rows[0].id in Ids(rows[1..]) {
      var i := IdsFind(rows[1..], rows[0].id);
    }
  }

  lemma {:induction false} CountIsCardinality(rows: seq<Row>, cursor: nat)
    requires Ordered(rows)
    ensures |AtOrBelow(Ids(rows), cursor)| == CountAcked(rows, cursor)
    ensures |Above(Ids(rows), cursor)| == |rows| - CountAcked(rows, cursor)
  {
    if rows == [] {
      assert AtOrBelow({}, cursor) == {} && Above({}, cursor) == {};
    } else {
      CountIsCardinality(rows[1..], cursor);
      HeadIsNew(rows);
      FilterCons(Ids(rows[1..]), rows[0].id, cursor);
    }
  }

  /** Acked rows form a prefix, so counting a prefix of the table is taking the smaller length. */
  lemma {:induction false} CountOfPrefix(rows: seq<Row>, cursor: nat, k: nat)
    requires Ordered(rows) && k <= |rows|
    ensures CountAcked(rows[..k], cursor) == Min(k, CountAcked(rows, cursor))
  {
    if k > 0 {
      var rest := rows[1..];
      assert rows[..k][1..] == rest[..k - 1];
      CountOfPrefix(rest, cursor, k - 1);
      if rows[0].id > cursor {
        NoneAcked(rest, cursor);
      }
    }
  }

  lemma {:induction false} NoneAcked(rows: seq<Row>, cursor: nat)
    requires forall i :: 0 <= i < |rows| ==> rows[i].id > cursor
    ensures CountAcked(rows, cursor) == 0
  {
    if rows != [] {
      NoneAcked(rows[1..], cursor);
    }
  }

  /** The fast formula counts exactly the deleted rows at or below the cursor. */
  lemma EvictionSplitIsExact(rows: seq<Row>, cursor: nat, capacity: nat)
    requires Ordered(rows)
    ensures var k := VictimCount(|rows|, capacity);
            && |AtOrBelow(Ids(rows[..k]), cursor)| == EvictedSentFormula(rows, cursor, capacity)
            && |Above(Ids(rows[..k]), cursor)| == k - EvictedSentFormula(rows, cursor, capacity)
  {
    var k := VictimCount(|rows|, capacity);
    CountOfPrefix(rows, cursor, k);
    CountIsCardinality(rows[..k], cursor);
  }
}
