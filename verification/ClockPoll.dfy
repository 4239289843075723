/**
 Clock fencing of a BACnet poll (connector/bacnet/bacnet_connector/connector.py,
 _poll_with_clocks): every clock is read at each boundary of the poll, and its label
 depends on those readings and on everything read before. Readings are reals; a missing
 or unusable one is None.
 */
module ClockPoll {
  import opened Prelude

  type Reading = Option<real>

  datatype Label = Reset | Missing | Changed | Stable(time: real)

  /** The readings that are present, in order. */
  function Present(readings: seq<Reading>): seq<real> {
    if readings == [] then []
    else
      var front, last := Present(readings[..|readings| - 1]), readings[|readings| - 1];
      if last.Some? then front + [last.value] else front
  }

  /** The clock went backwards somewhere: some later reading is below some earlier one. */
  ghost predicate Decreases(h: seq<real>) {
    exists i, j :: 0 <= i < j < |h| && h[j] < h[i]
  }

  /** Comparing each reading with the one just before it is enough. */
  lemma {:induction false} DecreasesSnoc(h: seq<real>, v: real)
    ensures Decreases(h + [v]) <==> Decreases(h) || (h != [] && v < h[|h| - 1])
  {
    var g := h + [v];
    if Decreases(h) {
      var i, j :| 0 <= i < j < |h| && h[j] < h[i];
      assert g[j] < g[i];
    } else if h != [] && v < h[|h| - 1] {
      assert g[|h|] < g[|h| - 1];
    } else {
      forall i, j | 0 <= i < j < |g|
        ensures g[j] >= g[i]
      {
        if j == |h| && i < |h| - 1 {
          assert h[|h| - 1] >= h[i];
        }
      }
    }
  }

  /** Column k of the boundary readings of one poll. */
  function Column(rows: seq<seq<Reading>>, k: nat): (c: seq<Reading>)
    requires forall b :: 0 <= b < |rows| ==> k < |rows[b]|
    ensures |c| == |rows|
  {
    seq(|rows|, b requires 0 <= b < |rows| => rows[b][k])
  }

  lemma ColumnSnoc(rows: seq<seq<Reading>>, row: seq<Reading>, k: nat)
    requires k < |row| && forall b :: 0 <= b < |rows| ==> k < |rows[b]|
    ensures Column(rows + [row], k) == Column(rows, k) + [row[k]]
    ensures Present(Column(rows + [row], k)) ==
            Present(Column(rows, k)) + (if row[k].Some? then [row[k].value] else [])
  {
    var c := Column(rows + [row], k);
    assert c == Column(rows, k) + [row[k]];
    assert c[..|c| - 1] == Column(rows, k);
  }

  ghost predicate AllEqualPresent(readings: seq<Reading>) {
    readings != [] && readings[0].Some? && forall i :: 0 <= i < |readings| ==> readings[i] == readings[0]
  }

  /**
   Reset iff the clock's whole past, this poll included, decreases somewhere; missing iff a
   sample is absent otherwise; a time is attached iff all samples are present and equal.
   */
  ghost predicate Labelled(l: Label, history: seq<real>, samples: seq<Reading>)
    requires samples != []
  {
    && (l == Reset <==> Decreases(history))
    && (l == Missing <==> !Decreases(history) && exists i :: 0 <= i < |samples| && samples[i].None?)
    && (l.Stable? <==> !Decreases(history) && AllEqualPresent(samples))
    && (l.Stable? ==> samples[0] == Some(l.time))
  }

  class Poller {
    const clocks: nat
    var lastClock: map<nat, real>
    var resetClocks: set<nat>
    ghost var history: seq<seq<real>>  // all present readings of each clock so far

    /** A clock is marked reset exactly when its whole sequence of present readings decreases somewhere. */
    ghost predicate Valid()
      reads this
    {
      && |history| == clocks
      && (forall k :: 0 <= k < clocks ==> (k in resetClocks <==> Decreases(history[k])))
      && (forall k :: 0 <= k < clocks ==> (k in lastClock <==> history[k] != []))
      && (forall k :: 0 <= k < clocks && k in lastClock ==> lastClock[k] == history[k][|history[k]| - 1])
    }

    constructor (clocks: nat)
      ensures Valid() && this.clocks == clocks && forall k :: 0 <= k < clocks ==> history[k] == []
    {
      this.clocks := clocks;
      lastClock, resetClocks := map[], {};
      history := seq(clocks, _ => []);
    }

    method Read(k: nat, value: Reading)
      requires Valid() && k < clocks
      modifies this
      ensures Valid()
      ensures history == old(history)[k := old(history)[k] + (if value.Some? then [value.value] else [])]
    {
      if value.Some? {
        DecreasesSnoc(history[k], value.value);
        if k in lastClock && value.value < lastClock[k] {
          resetClocks := resetClocks + {k};
        }
        lastClock := lastClock[k := value.value];
        history := history[k := history[k] + [value.value]];
      } else {
        assert history[k] + [] == history[k];
      }
    }

    /** One boundary: every clock is read once. */
    method Boundary(row: seq<Reading>)
      requires Valid() && |row| == clocks
      modifies this
      ensures Valid()
      ensures forall k :: 0 <= k < clocks ==>
                history[k] == old(history)[k] + (if row[k].Some? then [row[k].value] else [])
    {
      for k := 0 to clocks
        invariant Valid()
        invariant forall j :: 0 <= j < k ==> history[j] == old(history)[j] + (if row[j].Some? then [row[j].value] else [])
        invariant forall j :: k <= j < clocks ==> history[j] == old(history)[j]
      {
        Read(k, row[k]);
      }
    }

    /** The label of one clock for a poll with these boundary samples. */
    method LabelOf(k: nat, samples: seq<Reading>) returns (l: Label)
      requires Valid() && k < clocks && samples != []
      ensures Labelled(l, history[k], samples)
    {
      if k in resetClocks {
        return Reset;
      }
      if exists i :: 0 <= i < |samples| && samples[i].None? {
        return Missing;
      }
      if exists i :: 0 <= i < |samples| && samples[i] != samples[0] {
        return Changed;
      }
      return Stable(samples[0].value);
    }

    method Labels(rows: seq<seq<Reading>>) returns (labels: seq<Label>)
      requires Valid() && rows != [] && forall b :: 0 <= b < |rows| ==> |rows[b]| == clocks
      ensures |labels| == clocks && forall k :: 0 <= k < clocks ==> Labelled(labels[k], history[k], Column(rows, k))
    {
      labels := [];
      for k := 0 to clocks
        invariant |labels| == k
        invariant forall j :: 0 <= j < k ==> Labelled(labels[j], history[j], Column(rows, j))
      {
        var l := LabelOf(k, Column(rows, k));
        labels := labels + [l];
      }
    }

    /** A whole poll: boundaries around every chunk, then one label per clock from the samples and the clock's entire past. */
    method Poll(rows: seq<seq<Reading>>) returns (labels: seq<Label>)
      requires Valid() && rows != [] && forall b :: 0 <= b < |rows| ==> |rows[b]| == clocks
      modifies this
      ensures Valid() && |labels| == clocks
      ensures forall k :: 0 <= k < clocks ==> history[k] == old(history)[k] + Present(Column(rows, k))
      ensures forall k :: 0 <= k < clocks ==> Labelled(labels[k], history[k], Column(rows, k))
    {
      for b := 0 to |rows|
        invariant Valid()
        invariant forall k :: 0 <= k < clocks ==> history[k] == old(history)[k] + Present(Column(rows[..b], k))
      {
        Boundary(rows[b]);
        forall k | 0 <= k < clocks
          ensures history[k] == old(history)[k] + Present(Column(rows[..b + 1], k))
        {
          assert rows[..b + 1] == rows[..b] + [rows[b]];
          ColumnSnoc(rows[..b], rows[b], k);
        }
      }
      assert rows[..|rows|] == rows;
      labels := Labels(rows);
    }
  }
}
