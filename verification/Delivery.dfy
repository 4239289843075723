/**
 Store-and-forward delivery as a protocol (internal/uplink/forwarder.go over
 internal/storeforward/buffer.go). The pump's writes interleave freely with one
 forwarding session at a time; any send, acknowledgement or cursor write may fail,
 sessions restart, and the process may be closed and reopened.

 The sets `acked`, `lost` and `expired` are history: they record which sequences were
 in a successfully acknowledged batch and which were evicted above or at/below the
 cursor. The counters are computed the way the source computes them, from counts.
 */
module Delivery {
  import opened Prelude
  import opened RingTable
  import opened Ack

  const READ_LIMIT: nat := 32

  /** One connection's cursor, the rows read but not sent yet, and the sent, un-acked batch. */
  datatype Session = Session(cursor: nat, pending: seq<Row>, batch: seq<SentFrame>)

  datatype Counters = Counters(
    written: int, evictedSent: int, lostUnsent: int,
    sent: int, accepted: int, driftTotal: int, drifts: Tally)

  const ZERO: Counters := Counters(0, 0, 0, 0, 0, 0, map[])

  /** Sizes at the moment this process opened the buffer; the counters start at zero there. */
  datatype Opening = Opening(rows: nat, lost: nat, expired: nat)

  datatype State = State(
    capacity: nat, checkpointSize: nat,
    rows: seq<Row>, cursor: nat, lastId: nat,
    counters: Counters, session: Option<Session>,
    log: seq<Frame>, acked: set<nat>, lost: set<nat>, expired: set<nat>, opening: Opening)

  /** What became of the cursor write after a successful acknowledgement. */
  datatype Persist = Persisted | Failed(tookEffect: bool)

  datatype Step =
    | Write(frame: Frame)
    | OpenSession(cursorRead: bool)
    | Read
    | Send
    | Checkpoint(accepted: int, drifts: Tally, persist: Persist)
    | EndSession
    | Reopen(capacity: nat)

  ghost function BatchIds(batch: seq<SentFrame>): set<nat> {
    if batch == [] then {} else BatchIds(batch[..|batch| - 1]) + {batch[|batch| - 1].id}
  }

  function Fresh(capacity: nat, checkpointSize: nat): State {
    State(capacity, checkpointSize, [], 0, 0, ZERO, None, [], {}, {}, {}, Opening(0, 0, 0))
  }

  // ---- Steps ----

  ghost function AfterWrite(s: State, f: Frame): State {
    var all := s.rows + [Row(s.lastId + 1, f)];
    var k := VictimCount(|all|, s.capacity);
    var evictedSent := EvictedSentFormula(all, s.cursor, s.capacity);
    var c := s.counters;
    s.(rows := all[k..], lastId := s.lastId + 1, log := s.log + [f],
       lost := s.lost + Above(Ids(all[..k]), s.cursor),
       expired := s.expired + AtOrBelow(Ids(all[..k]), s.cursor),
       counters := c.(written := c.written + 1,
                      evictedSent := c.evictedSent + evictedSent,
                      lostUnsent := c.lostUnsent + (k - evictedSent)))
  }

  /** ReadBatch: up to `limit` rows with id > after, ascending. */
  function Batch(rows: seq<Row>, after: nat, limit: nat): seq<Row> {
    if rows == [] || limit == 0 then []
    else if rows[0].id <= after then Batch(rows[1..], after, limit)
    else [rows[0]] + Batch(rows[1..], after, limit - 1)
  }

  function AfterSend(b: Session): Session
    requires b.pending != []
  {
    var r := b.pending[0];
    Session(r.id, b.pending[1..], b.batch + [SentFrame(r.id, r.frame.pointId)])
  }

  ghost function AfterCheckpoint(s: State, accepted: int, drifts: Tally, persist: Persist): State
    requires s.session.Some? && s.session.value.batch != []
  {
    var b := s.session.value;
    var last := b.batch[|b.batch| - 1].id;
    var c := s.counters;
    var counted := s.(
      acked := s.acked + BatchIds(b.batch),
      counters := c.(sent := c.sent + |b.batch|, accepted := c.accepted + accepted,
                     driftTotal := c.driftTotal + Sum(drifts), drifts := Merge(c.drifts, drifts)));
    match persist
    case Persisted => counted.(cursor := last, session := Some(Session(last, b.pending, [])))
    case Failed(tookEffect) => counted.(cursor := if tookEffect then last else s.cursor, session := None)
  }

  ghost predicate Enabled(s: State, step: Step) {
    match step
    case Write(_) => true
    case OpenSession(_) => s.session.None?
    case Read => s.session.Some? && s.session.value.pending == []
    case Send => s.session.Some? && s.session.value.pending != [] && |s.session.value.batch| < s.checkpointSize
    case Checkpoint(accepted, drifts, _) =>
      && s.session.Some? && s.session.value.batch != []
      && Counts(drifts, PointBag(Unaccepted(s.session.value.batch, accepted)))
    case EndSession => s.session.Some?
    case Reopen(capacity) => capacity > 0
  }

  ghost function Next(s: State, step: Step): State
    requires Enabled(s, step)
  {
    match step
    case Write(f) => AfterWrite(s, f)
    case OpenSession(cursorRead) => s.(session := Some(Session(if cursorRead then s.cursor else 0, [], [])))
    case Read =>
      s.(session := Some(s.session.value.(pending := Batch(s.rows, s.session.value.cursor, READ_LIMIT))))
    case Send => s.(session := Some(AfterSend(s.session.value)))
    case Checkpoint(accepted, drifts, persist) => AfterCheckpoint(s, accepted, drifts, persist)
    case EndSession => s.(session := None)
    case Reopen(capacity) =>
      s.(capacity := capacity, session := None, counters := ZERO,
         opening := Opening(|s.rows|, |s.lost|, |s.expired|))
  }

  // ---- Invariant ----

  ghost predicate Settled(acked: set<nat>, lost: set<nat>, q: nat) {
    q in acked || q in lost
  }

  ghost predicate RowsMatch(rows: seq<Row>, log: seq<Frame>) {
    forall i :: 0 <= i < |rows| ==> 1 <= rows[i].id <= |log| && rows[i].frame == log[rows[i].id - 1]
  }

  ghost predicate TableInv(rows: seq<Row>, log: seq<Frame>) {
    Ordered(rows) && RowsMatch(rows, log)
  }

  /** Every issued sequence is in exactly one place: stored, lost, or expired after delivery. */
  ghost predicate PlaceInv(lastId: nat, stored: set<nat>, lost: set<nat>, expired: set<nat>) {
    && (forall q: nat :: 1 <= q <= lastId <==> q in stored || q in lost || q in expired)
    && stored !! lost && stored !! expired && lost !! expired
  }

  ghost predicate SettledInv(cursor: nat, acked: set<nat>, lost: set<nat>, expired: set<nat>) {
    && (forall q: nat :: 1 <= q <= cursor ==> Settled(acked, lost, q))
    && (forall q :: q in expired ==> Settled(acked, lost, q))
  }

  ghost predicate CountInv(s: State) {
    var c := s.counters;
    && c.lostUnsent == |s.lost| - s.opening.lost
    && c.evictedSent == |s.expired| - s.opening.expired
    && s.opening.rows + c.written == |s.rows| + c.evictedSent + c.lostUnsent
    && c.driftTotal == Sum(c.drifts)
  }

  /** The highest sequence this session has read so far. */
  function Horizon(b: Session): nat {
    if b.pending == [] then b.cursor else b.pending[|b.pending| - 1].id
  }

  ghost predicate Accounted(acked: set<nat>, lost: set<nat>, b: Session) {
    forall q: nat :: 1 <= q <= Horizon(b) ==>
                       Settled(acked, lost, q) || q in BatchIds(b.batch) || q in Ids(b.pending)
  }

  ghost predicate Queued(log: seq<Frame>, b: Session) {
    && TableInv(b.pending, log)
    && (forall i :: 0 <= i < |b.pending| ==> b.pending[i].id > b.cursor)
    && (forall q :: q in Ids(b.pending) ==> q > b.cursor)
  }

  ghost predicate InFlight(log: seq<Frame>, checkpointSize: nat, b: Session) {
    && |b.batch| <= checkpointSize && b.cursor <= |log|
    && (b.batch != [] ==> b.batch[|b.batch| - 1].id == b.cursor)
    && (forall i :: 0 <= i < |b.batch| ==>
                      1 <= b.batch[i].id <= |log| && b.batch[i].pointId == log[b.batch[i].id - 1].pointId)
  }

  /** Up to its horizon a session has every sequence accounted for: settled, in flight, or queued. */
  ghost predicate SessionInv(s: State, b: Session) {
    Queued(s.log, b) && InFlight(s.log, s.checkpointSize, b) && Accounted(s.acked, s.lost, b)
  }

  ghost predicate Inv(s: State) {
    && s.capacity > 0 && |s.log| == s.lastId && s.cursor <= s.lastId
    && TableInv(s.rows, s.log)
    && PlaceInv(s.lastId, Ids(s.rows), s.lost, s.expired)
    && SettledInv(s.cursor, s.acked, s.lost, s.expired)
    && CountInv(s)
    && (s.session.Some? ==> SessionInv(s, s.session.value))
  }

  // ---- Each step keeps the invariant ----

  lemma AppendRow(rows: seq<Row>, log: seq<Frame>, f: Frame)
    requires TableInv(rows, log)
    ensures TableInv(rows + [Row(|log| + 1, f)], log + [f])
    ensures Ids(rows + [Row(|log| + 1, f)]) == Ids(rows) + {|log| + 1}
  {
    var row := Row(|log| + 1, f);
    IdsConcat(rows, [row]);
    assert Ids([row]) == {|log| + 1} by {
      assert [row][1..] == [];
    }
  }

  lemma SliceTable(rows: seq<Row>, log: seq<Frame>, from: nat, to: nat)
    requires TableInv(rows, log) && from <= to <= |rows|
    ensures TableInv(rows[from..to], log) && TableInv(rows[from..], log)
  {
  }

  /** Evicting the ids `gone` moves each of them to `lost` or `expired` and nothing else. */
  lemma EvictPlaces(lastId: nat, stored: set<nat>, lost: set<nat>, expired: set<nat>,
                    gone: set<nat>, kept: set<nat>, cursor: nat)
    requires PlaceInv(lastId, stored, lost, expired)
    requires gone !! kept && gone + kept == stored + {lastId + 1}
    ensures PlaceInv(lastId + 1, kept, lost + Above(gone, cursor), expired + AtOrBelow(gone, cursor))
    ensures |lost + Above(gone, cursor)| == |lost| + |Above(gone, cursor)|
    ensures |expired + AtOrBelow(gone, cursor)| == |expired| + |AtOrBelow(gone, cursor)|
  {
    assert forall q :: q in gone || q in kept <==> q in stored || q == lastId + 1;
    assert lost !! Above(gone, cursor) && expired !! AtOrBelow(gone, cursor);
  }

  /** The ids of a write: what is evicted and what is kept are apart, and together they are the old rows and the new one. */
  lemma WriteIds(s: State, f: Frame)
    requires |s.log| == s.lastId && TableInv(s.rows, s.log)
    ensures var all := s.rows + [Row(s.lastId + 1, f)];
            var k := VictimCount(|all|, s.capacity);
            && Ordered(all) && TableInv(all[k..], s.log + [f])
            && Ids(all[..k]) !! Ids(all[k..]) && Ids(all[..k]) + Ids(all[k..]) == Ids(s.rows) + {s.lastId + 1}
  {
    var all := s.rows + [Row(s.lastId + 1, f)];
    var k := VictimCount(|all|, s.capacity);
    AppendRow(s.rows, s.log, f);
    SliceTable(all, s.log + [f], k, |all|);
    IdsSplit(all, k);
  }

  lemma WritePlaces(s: State, f: Frame)
    requires |s.log| == s.lastId && TableInv(s.rows, s.log)
    requires PlaceInv(s.lastId, Ids(s.rows), s.lost, s.expired)
    ensures var t := AfterWrite(s, f);
            && TableInv(t.rows, t.log) && PlaceInv(t.lastId, Ids(t.rows), t.lost, t.expired)
            && |t.lost| == |s.lost| + (t.counters.lostUnsent - s.counters.lostUnsent)
            && |t.expired| == |s.expired| + (t.counters.evictedSent - s.counters.evictedSent)
            && (forall q :: q in t.expired ==> q in s.expired || q <= s.cursor)
  {
    var all := s.rows + [Row(s.lastId + 1, f)];
    var k := VictimCount(|all|, s.capacity);
    WriteIds(s, f);
    EvictPlaces(s.lastId, Ids(s.rows), s.lost, s.expired, Ids(all[..k]), Ids(all[k..]), s.cursor);
    EvictionSplitIsExact(all, s.cursor, s.capacity);
  }

  /** The table keeps its newest rows, the new one included, as many as fit. */
  lemma WriteKeepsNewest(s: State, f: Frame)
    ensures var all, t := s.rows + [Row(s.lastId + 1, f)], AfterWrite(s, f);
            && |t.rows| == Min(|all|, s.capacity) && forall i :: 0 <= i < |t.rows| ==> t.rows[i] == all[|all| - |t.rows| + i]
  {
  }

  /** The sequences that a write makes disappear from the table. */
  ghost function Vanished(s: State, f: Frame): set<nat> {
    Ids(s.rows) + {s.lastId + 1} - Ids(AfterWrite(s, f).rows)
  }

  /** Those above the cursor are lost, the others had been delivered and are merely no longer retained. */
  lemma WriteLoses(s: State, f: Frame)
    requires Inv(s)
    ensures AfterWrite(s, f).lost == s.lost + Above(Vanished(s, f), s.cursor)
    ensures AfterWrite(s, f).expired == s.expired + AtOrBelow(Vanished(s, f), s.cursor)
  {
    var all := s.rows + [Row(s.lastId + 1, f)];
    var k := VictimCount(|all|, s.capacity);
    WriteIds(s, f);
    assert Vanished(s, f) == Ids(all[..k]);
  }

  /** A write neither reads nor touches the session. */
  lemma WriteIgnoresSession(s: State, f: Frame, session: Option<Session>, checkpointSize: nat)
    ensures AfterWrite(s.(session := session, checkpointSize := checkpointSize), f)
         == AfterWrite(s, f).(session := session, checkpointSize := checkpointSize)
  {
  }

  /** A write keeps every account and leaves the table within its capacity, whatever it held before. */
  lemma WriteKeeps(s: State, f: Frame)
    requires Inv(s)
    ensures Inv(AfterWrite(s, f)) && |AfterWrite(s, f).rows| <= s.capacity
  {
    var t := AfterWrite(s, f);
    WritePlaces(s, f);
    LaterSettled(s.cursor, s.acked, s.lost, s.expired, t.lost, t.expired);
    if s.session.Some? {
      LaterSession(s, t, s.session.value);
    }
  }

  lemma LaterSettled(cursor: nat, acked: set<nat>, lost: set<nat>, expired: set<nat>, lost': set<nat>, expired': set<nat>)
    requires SettledInv(cursor, acked, lost, expired) && lost <= lost'
    requires forall q :: q in expired' ==> q in expired || 0 <= q <= cursor
    requires 0 !in expired'
    ensures SettledInv(cursor, acked, lost', expired')
  {
    assert forall q: nat :: Settled(acked, lost, q) ==> Settled(acked, lost', q);
  }

  /** A session's invariant survives anything that only grows the log and the settled sequences. */
  lemma LaterSession(s: State, t: State, b: Session)
    requires SessionInv(s, b)
    requires s.log <= t.log && s.checkpointSize == t.checkpointSize
    requires s.acked <= t.acked && s.lost <= t.lost
    ensures SessionInv(t, b)
  {
    assert forall i :: 0 <= i < |s.log| ==> s.log[i] == t.log[i];
    assert forall q: nat :: Settled(s.acked, s.lost, q) ==> Settled(t.acked, t.lost, q);
  }

  lemma SliceOfTail(rows: seq<Row>, from: nat, to: nat)
    requires from <= to < |rows|
    ensures rows[1..][from..to] == rows[from + 1..to + 1]
    ensures from == 0 ==> [rows[0]] + rows[1..][from..to] == rows[0..to + 1]
  {
  }

  /** How many leading rows a reader past `after` skips. */
  function Skipped(rows: seq<Row>, after: nat): nat {
    if rows == [] || rows[0].id > after then 0 else 1 + Skipped(rows[1..], after)
  }

  lemma {:induction false} SkippedFacts(rows: seq<Row>, after: nat)
    requires Ordered(rows)
    ensures Skipped(rows, after) <= |rows|
    ensures forall i :: 0 <= i < |rows| ==> (rows[i].id <= after <==> i < Skipped(rows, after))
  {
    if rows != [] && rows[0].id <= after {
      SkippedFacts(rows[1..], after);
      assert forall i :: 1 <= i < |rows| ==> rows[i] == rows[1..][i - 1];
    }
  }

  lemma {:induction false} BatchSlice(rows: seq<Row>, after: nat, limit: nat)
    requires Ordered(rows)
    ensures var from := Skipped(rows, after);
            from <= |rows| && Batch(rows, after, limit) == rows[from..Min(|rows|, from + limit)]
  {
    SkippedFacts(rows, after);
    if rows != [] && limit > 0 {
      if rows[0].id <= after {
        BatchSlice(rows[1..], after, limit);
        var from := Skipped(rows[1..], after);
        SliceOfTail(rows, from, Min(|rows| - 1, from + limit));
      } else {
        BatchSlice(rows[1..], after, limit - 1);
        SkippedFacts(rows[1..], after);
        assert |rows| > 1 ==> rows[1..][0].id > after;
        assert Skipped(rows[1..], after) == 0;
        SliceOfTail(rows, 0, Min(|rows| - 1, limit - 1));
      }
    }
  }

  /** ReadBatch returns a contiguous slice of the table: everything past `after`, cut at the limit. */
  lemma BatchIsSlice(rows: seq<Row>, after: nat, limit: nat) returns (from: nat, to: nat)
    requires Ordered(rows)
    ensures from <= to <= |rows| && Batch(rows, after, limit) == rows[from..to]
    ensures forall i :: 0 <= i < from ==> rows[i].id <= after
    ensures forall i :: from <= i < to ==> rows[i].id > after
    ensures to - from == limit || to == |rows|
  {
    SkippedFacts(rows, after);
    BatchSlice(rows, after, limit);
    from := Skipped(rows, after);
    to := Min(|rows|, from + limit);
  }

  lemma SliceIds(rows: seq<Row>, from: nat, to: nat, q: nat)
    requires Ordered(rows) && from < to <= |rows| && q in Ids(rows) && rows[from].id <= q <= rows[to - 1].id
    ensures q in Ids(rows[from..to])
  {
    var i := IdsFind(rows, q);
    assert from <= i < to;
    IdsHas(rows[from..to], i - from);
  }

  lemma IdsBeyond(rows: seq<Row>, bound: nat)
    requires forall i :: 0 <= i < |rows| ==> rows[i].id > bound
    ensures forall q :: q in Ids(rows) ==> q > bound
  {
    forall q | q in Ids(rows)
      ensures q > bound
    {
      var i := IdsFind(rows, q);
    }
  }

  lemma ReadAccounts(rows: seq<Row>, b: Session, b': Session)
    requires Ordered(rows) && b.pending == [] && b' == b.(pending := Batch(rows, b.cursor, READ_LIMIT))
    ensures forall q :: q in Ids(b'.pending) ==> q > b.cursor
    ensures forall i :: 0 <= i < |b'.pending| ==> b'.pending[i].id > b.cursor
    ensures forall q: nat :: b.cursor < q <= Horizon(b') && q in Ids(rows) ==> q in Ids(b'.pending)
  {
    var from, to := BatchIsSlice(rows, b.cursor, READ_LIMIT);
    IdsBeyond(b'.pending, b.cursor);
    forall q: nat | b.cursor < q <= Horizon(b') && q in Ids(rows)
      ensures q in Ids(b'.pending)
    {
      var i := IdsFind(rows, q);
      assert from <= i;
      SliceIds(rows, from, to, q);
    }
  }

  lemma ReadKeeps(s: State)
    requires Inv(s) && Enabled(s, Read)
    ensures Inv(Next(s, Read))
  {
    var t := Next(s, Read);
    var b, b' := s.session.value, t.session.value;
    var from, to := BatchIsSlice(s.rows, b.cursor, READ_LIMIT);
    SliceTable(s.rows, s.log, from, to);
    ReadAccounts(s.rows, b, b');
    forall q: nat | 1 <= q <= Horizon(b')
      ensures Settled(s.acked, s.lost, q) || q in BatchIds(b.batch) || q in Ids(b'.pending)
    {
      if q > b.cursor {
        assert q <= s.lastId;
        assert q in Ids(s.rows) || q in s.lost || q in s.expired;
      }
    }
    assert Accounted(s.acked, s.lost, b');
  }

  lemma SendAccounts(acked: set<nat>, lost: set<nat>, log: seq<Frame>, b: Session)
    requires b.pending != [] && Queued(log, b) && Accounted(acked, lost, b)
    ensures Queued(log, AfterSend(b)) && Accounted(acked, lost, AfterSend(b))
  {
    var b' := AfterSend(b);
    assert b'.batch[..|b'.batch| - 1] == b.batch;
    assert BatchIds(b'.batch) == BatchIds(b.batch) + {b.pending[0].id};
    IdsBeyond(b'.pending, b'.cursor);
    assert Horizon(b') == Horizon(b);
  }

  lemma SendKeeps(s: State)
    requires Inv(s) && Enabled(s, Send)
    ensures Inv(Next(s, Send))
  {
    SendAccounts(s.acked, s.lost, s.log, s.session.value);
  }

  lemma CheckpointSettles(acked: set<nat>, lost: set<nat>, log: seq<Frame>, b: Session)
    requires Queued(log, b) && Accounted(acked, lost, b)
    ensures Accounted(acked + BatchIds(b.batch), lost, Session(b.cursor, b.pending, []))
    ensures forall q: nat :: 1 <= q <= b.cursor ==> Settled(acked + BatchIds(b.batch), lost, q)
  {
    assert b.cursor <= Horizon(b);
    assert Horizon(Session(b.cursor, b.pending, [])) == Horizon(b);
    assert forall q: nat :: Settled(acked, lost, q) ==> Settled(acked + BatchIds(b.batch), lost, q);
    assert forall q: nat :: q in BatchIds(b.batch) ==> Settled(acked + BatchIds(b.batch), lost, q);
  }

  lemma CheckpointKeeps(s: State, accepted: int, drifts: Tally, persist: Persist)
    requires Inv(s) && Enabled(s, Checkpoint(accepted, drifts, persist))
    ensures Inv(AfterCheckpoint(s, accepted, drifts, persist))
  {
    var t := AfterCheckpoint(s, accepted, drifts, persist);
    SumMerge(s.counters.drifts, drifts);
    CheckpointSettles(s.acked, s.lost, s.log, s.session.value);
    assert forall q: nat :: Settled(s.acked, s.lost, q) ==> Settled(t.acked, t.lost, q);
    assert SettledInv(t.cursor, t.acked, t.lost, t.expired);
  }

  lemma StepKeeps(s: State, step: Step)
    requires Inv(s) && Enabled(s, step)
    ensures Inv(Next(s, step))
  {
    match step
    case Write(f) => WriteKeeps(s, f);
    case Read => ReadKeeps(s);
    case Send => SendKeeps(s);
    case Checkpoint(accepted, drifts, persist) => CheckpointKeeps(s, accepted, drifts, persist);
    case OpenSession(_) =>
    case EndSession =>
    case Reopen(_) =>
  }

  // ---- Whole runs ----

  ghost predicate Runs(s: State, steps: seq<Step>)
    decreases |steps|
  {
    steps == [] || (Enabled(s, steps[0]) && Runs(Next(s, steps[0]), steps[1..]))
  }

  ghost function Exec(s: State, steps: seq<Step>): State
    requires Runs(s, steps)
    decreases |steps|
  {
    if steps == [] then s else Exec(Next(s, steps[0]), steps[1..])
  }

  lemma {:induction false} RunKeeps(s: State, steps: seq<Step>)
    requires Inv(s) && Runs(s, steps)
    ensures Inv(Exec(s, steps))
    decreases |steps|
  {
    if steps != [] {
      StepKeeps(s, steps[0]);
      RunKeeps(Next(s, steps[0]), steps[1..]);
    }
  }

  lemma FreshIsGood(capacity: nat, checkpointSize: nat)
    requires capacity > 0
    ensures Inv(Fresh(capacity, checkpointSize)) && Ahead(Fresh(capacity, checkpointSize))
  {
    assert Sum(map[]) == 0;
  }

  // ---- What the history and the counters say about a run ----

  lemma {:induction false} BatchIdsMembers(batch: seq<SentFrame>, q: nat)
    ensures q in BatchIds(batch) <==> exists i :: 0 <= i < |batch| && batch[i].id == q
  {
    if batch != [] {
      var front := batch[..|batch| - 1];
      BatchIdsMembers(front, q);
      assert forall i :: 0 <= i < |front| ==> front[i] == batch[i];
    }
  }

  /** The sequences a step acknowledges: those of the batch in flight when a checkpoint succeeds. */
  ghost function Acked(s: State, step: Step): set<nat>
    requires Enabled(s, step)
  {
    if step.Checkpoint? then BatchIds(s.session.value.batch) else {}
  }

  /** The sequences a step loses: those a write makes vanish from the table above the cursor. */
  ghost function Lost(s: State, step: Step): set<nat> {
    if step.Write? then Above(Vanished(s, step.frame), s.cursor) else {}
  }

  ghost function AckedAlong(s: State, steps: seq<Step>): set<nat>
    requires Runs(s, steps)
    decreases |steps|
  {
    if steps == [] then {} else Acked(s, steps[0]) + AckedAlong(Next(s, steps[0]), steps[1..])
  }

  ghost function LostAlong(s: State, steps: seq<Step>): set<nat>
    requires Runs(s, steps)
    decreases |steps|
  {
    if steps == [] then {} else Lost(s, steps[0]) + LostAlong(Next(s, steps[0]), steps[1..])
  }

  lemma AckedStep(s: State, step: Step)
    requires Enabled(s, step)
    ensures Next(s, step).acked == s.acked + Acked(s, step)
  {
    assert s.acked + {} == s.acked;
  }

  lemma LostStep(s: State, step: Step)
    requires Enabled(s, step) && (step.Write? ==> Inv(s))
    ensures Next(s, step).lost == s.lost + Lost(s, step)
  {
    if step.Write? {
      WriteLoses(s, step.frame);
      assert Next(s, step) == AfterWrite(s, step.frame);
    } else {
      assert Next(s, step).lost == s.lost;
    }
  }

  lemma {:induction false} AckedTells(s: State, steps: seq<Step>)
    requires Runs(s, steps)
    ensures Exec(s, steps).acked == s.acked + AckedAlong(s, steps)
    decreases |steps|
  {
    if steps != [] {
      AckedStep(s, steps[0]);
      AckedTells(Next(s, steps[0]), steps[1..]);
    }
  }

  lemma {:induction false} LostTells(s: State, steps: seq<Step>)
    requires Inv(s) && Runs(s, steps)
    ensures Exec(s, steps).lost == s.lost + LostAlong(s, steps)
    decreases |steps|
  {
    if steps != [] {
      StepKeeps(s, steps[0]);
      LostStep(s, steps[0]);
      LostTells(Next(s, steps[0]), steps[1..]);
    }
  }

  /** What is counted: frames written, sent in acknowledged batches, accepted, and drifted for one point. */
  datatype Totals = Totals(written: int, sent: int, accepted: int, drift: int)

  ghost function CountStep(s: State, step: Step, p: string, t: Totals): Totals
    requires Enabled(s, step)
  {
    match step
    case Write(_) => t.(written := t.written + 1)
    case Checkpoint(accepted, _, _) =>
      var batch := s.session.value.batch;
      t.(sent := t.sent + |batch|, accepted := t.accepted + accepted, drift := t.drift + PointBag(Unaccepted(batch, accepted))[p])
    case Reopen(_) => Totals(0, 0, 0, 0)
    case _ => t
  }

  ghost function CountAlong(s: State, steps: seq<Step>, p: string, t: Totals): Totals
    requires Runs(s, steps)
    decreases |steps|
  {
    if steps == [] then t else CountAlong(Next(s, steps[0]), steps[1..], p, CountStep(s, steps[0], p, t))
  }

  function TotalsOf(c: Counters, p: string): Totals {
    Totals(c.written, c.sent, c.accepted, Count(c.drifts, p))
  }

  lemma CounterStep(s: State, step: Step, p: string)
    requires Enabled(s, step)
    ensures TotalsOf(Next(s, step).counters, p) == CountStep(s, step, p, TotalsOf(s.counters, p))
  {
    if step.Checkpoint? {
      var bag := PointBag(Unaccepted(s.session.value.batch, step.accepted));
      assert Count(step.drifts, p) == bag[p];
      assert Count(Merge(s.counters.drifts, step.drifts), p) == Count(s.counters.drifts, p) + Count(step.drifts, p);
    }
  }

  /**
   Over every run the counters are, since the last reopening, the number of writes, the sizes
   of acknowledged batches, the acknowledged counts, and per point the unaccepted frames.
   */
  lemma {:induction false} CountersTell(s: State, steps: seq<Step>, p: string)
    requires Runs(s, steps)
    ensures TotalsOf(Exec(s, steps).counters, p) == CountAlong(s, steps, p, TotalsOf(s.counters, p))
    decreases |steps|
  {
    if steps != [] {
      CounterStep(s, steps[0], p);
      CountersTell(Next(s, steps[0]), steps[1..], p);
    }
  }

  /**
   Whatever is interleaved and whatever fails: each sequence at or below the persisted
   cursor was in an acknowledged batch or vanished above the cursor of its time; each one
   above it is stored, acknowledged or lost so; the rows balance; and the counters, which
   come from the counting formula, are the sizes of the real victim sets.
   */
  lemma EverySequenceIsAccountedFor(capacity: nat, checkpointSize: nat, steps: seq<Step>)
    requires capacity > 0 && Runs(Fresh(capacity, checkpointSize), steps)
    ensures var s0 := Fresh(capacity, checkpointSize);
            var s, acked, lost := Exec(s0, steps), AckedAlong(s0, steps), LostAlong(s0, steps);
            && (forall q: nat :: 1 <= q <= s.cursor ==> q in acked || q in lost)
            && (forall q: nat :: s.cursor < q <= s.lastId ==> q in Ids(s.rows) || q in acked || q in lost)
            && s.opening.rows + s.counters.written == |s.rows| + s.counters.evictedSent + s.counters.lostUnsent
            && s.counters.lostUnsent == |lost| - s.opening.lost
            && s.counters.evictedSent == |s.expired| - s.opening.expired
  {
    var s0, s := Fresh(capacity, checkpointSize), Exec(Fresh(capacity, checkpointSize), steps);
    FreshIsGood(capacity, checkpointSize);
    RunKeeps(s0, steps);
    AckedTells(s0, steps);
    LostTells(s0, steps);
    assert s.acked == AckedAlong(s0, steps) && s.lost == LostAlong(s0, steps);
    forall q: nat | 1 <= q <= s.lastId
      ensures (q <= s.cursor ==> Settled(s.acked, s.lost, q)) && (q in Ids(s.rows) || Settled(s.acked, s.lost, q))
    {
    }
  }

  // ---- When the cursor can move back ----

  ghost predicate NoneBelow(rows: seq<Row>, cursor: nat) {
    forall i :: 0 <= i < |rows| ==> rows[i].id >= cursor
  }

  /** A failed cursor read restarts a session at 0; harmless exactly when no delivered row below the cursor is still stored. */
  ghost predicate Harmless(s: State, step: Step) {
    step == OpenSession(false) ==> NoneBelow(s.rows, s.cursor)
  }

  ghost predicate Ahead(s: State) {
    && (forall q :: q in s.expired ==> q <= s.cursor)
    && (s.session.Some? ==> SessionAhead(s.session.value, s.rows, s.cursor))
  }

  ghost predicate SessionAhead(b: Session, rows: seq<Row>, cursor: nat) {
    || b.cursor >= cursor
    || (b.batch == [] && NoneBelow(rows, cursor) && NoneBelow(b.pending, cursor))
  }

  lemma NoneBelowWrite(rows: seq<Row>, row: Row, k: nat, cursor: nat)
    requires NoneBelow(rows, cursor) && row.id >= cursor && k <= |rows| + 1
    ensures NoneBelow((rows + [row])[k..], cursor)
  {
  }

  lemma WriteStaysAhead(s: State, f: Frame)
    requires Inv(s) && Ahead(s)
    ensures Ahead(AfterWrite(s, f))
  {
    WritePlaces(s, f);
    if NoneBelow(s.rows, s.cursor) {
      NoneBelowWrite(s.rows, Row(s.lastId + 1, f), VictimCount(|s.rows| + 1, s.capacity), s.cursor);
    }
  }

  lemma StepStaysAhead(s: State, step: Step)
    requires Inv(s) && Ahead(s) && Enabled(s, step) && Harmless(s, step)
    ensures Ahead(Next(s, step)) && Next(s, step).cursor >= s.cursor
    ensures step == Send ==> Next(s, step).session.value.cursor >= s.cursor
  {
    match step
    case Write(f) => WriteStaysAhead(s, f);
    case Read =>
      var from, to := BatchIsSlice(s.rows, s.session.value.cursor, READ_LIMIT);
    case _ =>
  }

  ghost predicate HarmlessRun(s: State, steps: seq<Step>)
    requires Runs(s, steps)
    decreases |steps|
  {
    steps == [] || (Harmless(s, steps[0]) && HarmlessRun(Next(s, steps[0]), steps[1..]))
  }

  /** Along a run whose failed cursor reads are all harmless the cursor never goes back. */
  lemma {:induction false} CursorNeverGoesBack(s: State, steps: seq<Step>)
    requires Inv(s) && Ahead(s) && Runs(s, steps) && HarmlessRun(s, steps)
    ensures var t := Exec(s, steps);
            && t.cursor >= s.cursor
            && Ahead(t) && Inv(t)
            && (forall q: nat :: t.cursor < q <= t.lastId ==> q in Ids(t.rows) || q in t.lost)
    decreases |steps|
  {
    if steps == [] {
      forall q: nat | s.cursor < q <= s.lastId
        ensures q in Ids(s.rows) || q in s.lost
      {
      }
    } else {
      StepStaysAhead(s, steps[0]);
      StepKeeps(s, steps[0]);
      CursorNeverGoesBack(Next(s, steps[0]), steps[1..]);
    }
  }

  /** The four steps after which a harmful failed read has moved the cursor back. */
  function Regression(): seq<Step> {
    [OpenSession(false), Read, Send, Checkpoint(1, map[], Persisted)]
  }

  /** Conversely, from any state whose failed cursor read is not harmless, one sent frame moves the cursor back. */
  lemma HarmfulReadRegresses(s: State)
    requires Inv(s) && s.session.None? && s.checkpointSize > 0
    requires !Harmless(s, OpenSession(false))
    ensures Runs(s, Regression()) && Exec(s, Regression()).cursor < s.cursor
  {
    var s1 := Next(s, OpenSession(false));
    var s2 := Next(s1, Read);
    var from, to := BatchIsSlice(s.rows, 0, READ_LIMIT);
    assert from == 0 && s.rows != [] && s2.session.value.pending[0] == s.rows[0];
    assert s.rows[0].id < s.cursor;
    var s3 := Next(s2, Send);
    assert Unaccepted(s3.session.value.batch, 1) == [];
    assert Counts(map[], PointBag([])) by {
      assert PointBag([]) == multiset{};
    }
    var last := Checkpoint(1, map[], Persisted);
    assert Enabled(s3, last);
    var s4 := Next(s3, last);
    assert Runs(s4, []) && Exec(s4, []) == s4;
    RunCons(s3, last, []);
    RunCons(s2, Send, [last]);
    RunCons(s1, Read, [Send, last]);
    RunCons(s, OpenSession(false), [Read, Send, last]);
    assert Regression() == [OpenSession(false)] + ([Read] + ([Send] + ([last] + [])));
  }

  lemma RunCons(s: State, step: Step, rest: seq<Step>)
    requires Enabled(s, step) && Runs(Next(s, step), rest)
    ensures Runs(s, [step] + rest) && Exec(s, [step] + rest) == Exec(Next(s, step), rest)
  {
    assert ([step] + rest)[1..] == rest;
  }

  lemma {:induction false} RunConcat(s: State, a: seq<Step>, b: seq<Step>)
    requires Runs(s, a) && Runs(Exec(s, a), b)
    ensures Runs(s, a + b) && Exec(s, a + b) == Exec(Exec(s, a), b)
    decreases |a|
  {
    if a == [] {
      assert a + b == b;
    } else {
      assert (a + b)[1..] == a[1..] + b;
      RunConcat(Next(s, a[0]), a[1..], b);
    }
  }

  /** Two frames are written, sent, acknowledged and retained. */
  function Delivered(f: Frame): seq<Step> {
    [Write(f), Write(f), OpenSession(true), Read, Send, Send, Checkpoint(2, map[], Persisted), EndSession]
  }

  lemma TwoWritten(f: Frame)
    ensures var s := Next(Next(Fresh(2, 1000), Write(f)), Write(f));
            && s.rows == [Row(1, f), Row(2, f)] && s.cursor == 0 && s.session == None && s.checkpointSize == 1000
  {
    var s1 := Next(Fresh(2, 1000), Write(f));
    assert s1.rows == [Row(1, f)];
  }

  lemma TwoSteps(s: State, a: Step, b: Step)
    requires Enabled(s, a) && Enabled(Next(s, a), b)
    ensures Runs(s, [a, b]) && Exec(s, [a, b]) == Next(Next(s, a), b)
  {
    var t := Next(s, a);
    assert Runs(Next(t, b), []) && Exec(Next(t, b), []) == Next(t, b);
    RunCons(t, b, []);
    RunCons(s, a, [b] + []);
    assert [a, b] == [a] + ([b] + []);
  }

  lemma BothRead(s: State, f: Frame)
    requires s.rows == [Row(1, f), Row(2, f)] && s.cursor == 0 && s.session == None
    ensures Runs(s, [OpenSession(true), Read])
    ensures Exec(s, [OpenSession(true), Read]) == s.(session := Some(Session(0, s.rows, [])))
  {
    assert Skipped(s.rows, 0) == 0;
    BatchSlice(s.rows, 0, READ_LIMIT);
    assert s.rows[0..2] == s.rows;
    TwoSteps(s, OpenSession(true), Read);
  }

  lemma BothSent(s: State, f: Frame)
    requires s.session == Some(Session(0, [Row(1, f), Row(2, f)], [])) && s.checkpointSize == 1000
    ensures Runs(s, [Send, Send])
    ensures Exec(s, [Send, Send]) ==
            s.(session := Some(Session(2, [], [SentFrame(1, f.pointId), SentFrame(2, f.pointId)])))
  {
    var b := s.session.value;
    var b1 := AfterSend(b);
    assert b1 == Session(1, [Row(2, f)], [SentFrame(1, f.pointId)]);
    assert AfterSend(b1) == Session(2, [], [SentFrame(1, f.pointId), SentFrame(2, f.pointId)]);
    TwoSteps(s, Send, Send);
  }

  lemma BothAcked(s: State, f: Frame)
    requires s.session == Some(Session(2, [], [SentFrame(1, f.pointId), SentFrame(2, f.pointId)]))
    ensures var ack := Checkpoint(2, map[], Persisted);
            && Runs(s, [ack, EndSession]) && Exec(s, [ack, EndSession]).cursor == 2
            && Exec(s, [ack, EndSession]).rows == s.rows && Exec(s, [ack, EndSession]).session == None
            && Exec(s, [ack, EndSession]).checkpointSize == s.checkpointSize
  {
    assert Unaccepted(s.session.value.batch, 2) == [] && PointBag([]) == multiset{};
    TwoSteps(s, Checkpoint(2, map[], Persisted), EndSession);
  }

  /** Over rows 1 and 2, the six remaining steps leave the cursor at 2. */
  lemma TwoDelivered(s: State, f: Frame)
    requires s.rows == [Row(1, f), Row(2, f)] && s.cursor == 0 && s.session == None && s.checkpointSize == 1000
    ensures var rest := Delivered(f)[2..];
            Runs(s, rest) && Exec(s, rest).cursor == 2 && Exec(s, rest).rows == s.rows && Exec(s, rest).session == None
            && Exec(s, rest).checkpointSize == 1000
  {
    var a, b, c := [OpenSession(true), Read], [Send, Send], [Checkpoint(2, map[], Persisted), EndSession];
    BothRead(s, f);
    BothSent(Exec(s, a), f);
    BothAcked(Exec(Exec(s, a), b), f);
    RunConcat(Exec(s, a), b, c);
    RunConcat(s, a, b + c);
    assert Delivered(f)[2..] == a + (b + c);
  }

  /** From a fresh buffer: two frames delivered, then one failed cursor read, and the cursor is back below 2. */
  lemma CursorGoesBack(f: Frame)
    ensures var s0 := Fresh(2, 1000);
            && Runs(s0, Delivered(f)) && Exec(s0, Delivered(f)).cursor == 2
            && Runs(s0, Delivered(f) + Regression()) && Exec(s0, Delivered(f) + Regression()).cursor < 2
  {
    var s0, writes := Fresh(2, 1000), [Write(f), Write(f)];
    TwoWritten(f);
    TwoSteps(s0, Write(f), Write(f));
    TwoDelivered(Exec(s0, writes), f);
    RunConcat(s0, writes, Delivered(f)[2..]);
    assert Delivered(f) == writes + Delivered(f)[2..];
    var t := Exec(s0, Delivered(f));
    FreshIsGood(2, 1000);
    RunKeeps(s0, Delivered(f));
    assert t.rows[0].id < t.cursor;
    HarmfulReadRegresses(t);
    RunConcat(s0, Delivered(f), Regression());
  }

  // ---- Acknowledgement accounting ----

  ghost predicate HonestAcks(s: State, steps: seq<Step>)
    requires Runs(s, steps)
    decreases |steps|
  {
    steps == [] || (
      && (steps[0].Checkpoint? ==> 0 <= steps[0].accepted <= |s.session.value.batch|)
      && HonestAcks(Next(s, steps[0]), steps[1..]))
  }

  lemma CheckpointBalances(s: State, step: Step)
    requires Enabled(s, step) && step.Checkpoint? && 0 <= step.accepted <= |s.session.value.batch|
    requires s.counters.sent == s.counters.accepted + s.counters.driftTotal
    ensures var c := Next(s, step).counters; c.sent == c.accepted + c.driftTotal
  {
    AckBalances(s.session.value.batch, step.accepted, step.drifts);
  }

  /** When every ack lies in 0..batch size, sent = accepted + drift over any run, and the total is the sum of the per-point map. */
  lemma {:induction false} SentBalances(s: State, steps: seq<Step>)
    requires Inv(s) && Runs(s, steps) && HonestAcks(s, steps)
    requires s.counters.sent == s.counters.accepted + s.counters.driftTotal
    ensures var c := Exec(s, steps).counters;
            c.sent == c.accepted + c.driftTotal && c.driftTotal == Sum(c.drifts)
    decreases |steps|
  {
    if steps != [] {
      StepKeeps(s, steps[0]);
      if steps[0].Checkpoint? {
        CheckpointBalances(s, steps[0]);
      }
      SentBalances(Next(s, steps[0]), steps[1..]);
    }
  }
}
