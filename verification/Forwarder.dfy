/**
 The buffer object and the forwarder that drains it, as imperative code
 (internal/storeforward/buffer.go, internal/uplink/forwarder.go, internal/uplink/ingress.go),
 proved to take only steps of the Delivery protocol. Outcomes of SQLite and of the
 transport are nondeterministic (`*`). The pump runs concurrently: between any two
 operations it may write some of the frames still `incoming`.
 */
module Forwarding {
  import opened Prelude
  import opened RingTable
  import opened Ack
  import opened Delivery

  const DEFAULT_CHECKPOINT_SIZE: nat := 1000

  /** t can be reached from s by steps of the protocol. */
  ghost predicate Reach(s: State, t: State) {
    exists steps :: Runs(s, steps) && Exec(s, steps) == t
  }

  lemma ReachSelf(s: State)
    ensures Reach(s, s)
  {
    assert Runs(s, []) && Exec(s, []) == s;
  }

  lemma ReachStep(s: State, t: State, step: Step)
    requires Reach(s, t) && Enabled(t, step)
    ensures Reach(s, Next(t, step))
  {
    var steps :| Runs(s, steps) && Exec(s, steps) == t;
    ReachSelf(Next(t, step));
    RunCons(t, step, []);
    RunConcat(s, steps, [step] + []);
  }

  lemma WriteReached(s: State, f: Frame)
    requires Inv(s)
    ensures Reach(s, AfterWrite(s, f)) && Inv(AfterWrite(s, f)) && AfterWrite(s, f).lastId == s.lastId + 1
  {
    WriteKeeps(s, f);
    ReachSelf(s);
    ReachStep(s, s, Write(f));
  }

  lemma ReachTrans(s: State, t: State, u: State)
    requires Reach(s, t) && Reach(t, u)
    ensures Reach(s, u)
  {
    var a :| Runs(s, a) && Exec(s, a) == t;
    var b :| Runs(t, b) && Exec(t, b) == u;
    RunConcat(s, a, b);
  }

  /** Everything reachable from a good state is good: the protocol's theorems apply to the code below. */
  lemma ReachKeeps(s: State, t: State)
    requires Inv(s) && Reach(s, t)
    ensures Inv(t)
  {
    var steps :| Runs(s, steps) && Exec(s, steps) == t;
    RunKeeps(s, steps);
  }

  /** Every stored row is at or below the cursor. */
  ghost predicate NothingPast(rows: seq<Row>, cursor: nat) {
    forall i :: 0 <= i < |rows| ==> rows[i].id <= cursor
  }

  lemma EmptyBatch(rows: seq<Row>, cursor: nat)
    requires Ordered(rows)
    ensures Batch(rows, cursor, READ_LIMIT) == [] ==> NothingPast(rows, cursor)
  {
    var from, to := BatchIsSlice(rows, cursor, READ_LIMIT);
  }

  /** What the protocol remembers beyond the table: the frames ever written and the fate of each sequence. */
  datatype History = History(log: seq<Frame>, acked: set<nat>, lost: set<nat>, expired: set<nat>, opening: Opening)

  class Buffer {
    var capacity: nat
    var rows: seq<Row>
    var cursor: nat
    var lastId: nat
    var counters: Counters
    ghost var past: History
    ghost var readFailed: bool  // the outcome of the latest ReadBatch
    ghost var failedWrites: nat  // transactions of Write that failed so far

    ghost function View(session: Option<Session>, checkpointSize: nat): State
      reads this`capacity, this`rows, this`cursor, this`lastId, this`counters, this`past
    {
      State(capacity, checkpointSize, rows, cursor, lastId, counters,
            session, past.log, past.acked, past.lost, past.expired, past.opening)
    }

    /** A fresh database; Open refuses a non-positive capacity before reaching this point. */
    constructor (capacity: nat)
      requires capacity > 0
      ensures forall n :: View(None, n) == Fresh(capacity, n)
    {
      this.capacity := capacity;
      rows, cursor, lastId, counters := [], 0, 0, ZERO;
      past, readFailed, failedWrites := History([], {}, {}, {}, Opening(0, 0, 0)), false, 0;
    }

    /** Insert, split the victims by counting, drop the oldest, commit; a failed transaction changes nothing. */
    method Write(f: Frame) returns (ok: bool)
      modifies this`rows, this`lastId, this`counters, this`past, this`failedWrites
      ensures ok ==> View(None, 0) == AfterWrite(old(View(None, 0)), f)
      ensures !ok ==> View(None, 0) == old(View(None, 0))
      ensures failedWrites == old(failedWrites) + (if ok then 0 else 1)
    {
      ok := *;
      if ok {
        ghost var t := AfterWrite(View(None, 0), f);
        var all := rows + [Row(lastId + 1, f)];
        var victims, evictedSent, lostUnsent := SplitVictims(all);
        rows, lastId := all[victims..], lastId + 1;
        counters := counters.(written := counters.written + 1,
                              evictedSent := counters.evictedSent + evictedSent,
                              lostUnsent := counters.lostUnsent + lostUnsent);
        past := past.(log := t.log, lost := t.lost, expired := t.expired);
      } else {
        failedWrites := failedWrites + 1;
      }
    }

    /** The two counts taken before the DELETE, and the split they imply. */
    method SplitVictims(all: seq<Row>) returns (victims: nat, evictedSent: nat, lostUnsent: nat)
      ensures victims == VictimCount(|all|, capacity)
      ensures evictedSent == EvictedSentFormula(all, cursor, capacity) && lostUnsent == victims - evictedSent
    {
      var total, acked := |all|, CountAcked(all, cursor);
      victims, evictedSent, lostUnsent := 0, 0, 0;
      if total - capacity > 0 {
        victims := total - capacity;
        evictedSent := Min(victims, acked);
        lostUnsent := victims - evictedSent;
      }
    }

    method ReadBatch(after: nat, limit: nat) returns (ok: bool, batch: seq<Row>)
      modifies this`readFailed
      ensures readFailed == !ok
      ensures ok ==> batch == Batch(rows, after, limit)
    {
      ok, batch := *, [];
      readFailed := !ok;
      if !ok {
        return;
      }
      for i := 0 to |rows|
        invariant |batch| <= limit
        invariant batch + Batch(rows[i..], after, limit - |batch|) == Batch(rows, after, limit)
      {
        assert rows[i..][1..] == rows[i + 1..];
        if rows[i].id > after && |batch| < limit {
          batch := batch + [rows[i]];
        }
      }
    }

    /** On error the cursor row holds its old or its new value. */
    method Advance(id: nat) returns (ok: bool)
      modifies this`cursor
      ensures cursor == id || (!ok && cursor == old(cursor))
    {
      ok := *;
      var tookEffect: bool := *;
      if ok || tookEffect {
        cursor := id;
      }
    }

    method RecordDrifts(delta: Tally)
      modifies this`counters
      ensures counters == old(counters).(drifts := Merge(old(counters.drifts), delta),
                                         driftTotal := old(counters.driftTotal) + Sum(delta))
    {
      var drifts, total := AddDrifts(counters.drifts, counters.driftTotal, delta);
      counters := counters.(drifts := drifts, driftTotal := total);
    }

    /** The counters and the cursor write of a successful acknowledgement. */
    method RecordAck(batch: seq<SentFrame>, accepted: int, drifts: Tally, ghost b: Session, ghost n: nat)
      returns (ok: bool, ghost persist: Persist)
      requires batch != [] && b.batch == batch
      modifies this`cursor, this`counters, this`past
      ensures View(if ok then Some(Session(batch[|batch| - 1].id, b.pending, [])) else None, n)
           == AfterCheckpoint(old(View(Some(b), n)), accepted, drifts, persist)
      ensures ok == persist.Persisted?
    {
      past := past.(acked := past.acked + BatchIds(batch));
      counters := counters.(sent := counters.sent + |batch|, accepted := counters.accepted + accepted);
      RecordDrifts(drifts);
      ghost var before := cursor;
      ok := Advance(batch[|batch| - 1].id);
      persist := if ok then Persisted else Failed(cursor != before);
    }
  }

  /** The frames on a stream are those written under the batch's sequences, in order. */
  ghost predicate Streamed(log: seq<Frame>, batch: seq<SentFrame>, stream: seq<Frame>) {
    && |stream| == |batch|
    && forall i :: 0 <= i < |batch| ==> 1 <= batch[i].id <= |log| && stream[i] == log[batch[i].id - 1]
  }

  lemma StreamedGrows(log: seq<Frame>, log': seq<Frame>, batch: seq<SentFrame>, stream: seq<Frame>)
    requires Streamed(log, batch, stream) && log <= log'
    ensures Streamed(log', batch, stream)
  {
  }

  lemma StreamedSnoc(log: seq<Frame>, batch: seq<SentFrame>, stream: seq<Frame>, row: Row)
    requires Streamed(log, batch, stream) && RowsMatch([row], log)
    ensures Streamed(log, batch + [SentFrame(row.id, row.frame.pointId)], stream + [row.frame])
  {
    assert [row][0] == row;
  }

  /** The server's end of the uplink: what it has received on the open stream, and what it has acknowledged so far. */
  class Sink {
    ghost var stream: seq<Frame>
    ghost var delivered: int  // frames of acknowledged streams
    ghost var acknowledged: int  // sum of the accepted counts it answered with

    constructor ()
      ensures stream == [] && delivered == 0 && acknowledged == 0
    {
      stream, delivered, acknowledged := [], 0, 0;
    }

    /** A session starts a stream of its own. */
    ghost method Connect()
      modifies this`stream
      ensures stream == []
    {
      stream := [];
    }

    method Send(f: Frame) returns (ok: bool)
      modifies this`stream
      ensures ok ==> stream == old(stream) + [f]
    {
      ok := *;
      if ok {
        stream := stream + [f];
      }
    }

    /** Half-close: the server answers with a count of its choice, or the call fails. */
    method Checkpoint() returns (answer: Option<int>)
      modifies this
      ensures answer.Some? ==>
                stream == [] && delivered == old(delivered) + |old(stream)| && acknowledged == old(acknowledged) + answer.value
      ensures answer.None? ==> delivered == old(delivered) && acknowledged == old(acknowledged)
    {
      answer := *;
      if answer.Some? {
        delivered, acknowledged, stream := delivered + |stream|, acknowledged + answer.value, [];
      }
    }
  }

  class Forwarder {
    const buf: Buffer
    const sink: Sink
    const checkpointSize: nat
    var open: bool
    var cursor: nat
    var batch: seq<SentFrame>
    var incoming: seq<Frame>
    ghost var pending: seq<Row>
    ghost var failures: nat  // how many reads, sends, acknowledgements and cursor writes have failed
    ghost const sentBefore: int  // the buffer's counters when this forwarder was made
    ghost const acceptedBefore: int

    ghost function View(): State
      reads this`open, this`cursor, this`batch, this`pending, buf
    {
      buf.View(if open then Some(Session(cursor, pending, batch)) else None, checkpointSize)
    }

    /** With nothing in flight a session stands at the persisted cursor, or still at the start. */
    ghost predicate CaughtUp()
      reads this`open, this`batch, this`cursor, buf`cursor
    {
      open && batch == [] ==> cursor == 0 || cursor == buf.cursor
    }

    /** What the server has received on the open stream is the batch, and the counters are what it has acknowledged. */
    ghost predicate Booked()
      reads this`open, this`batch, buf`past, buf`counters, sink
    {
      && (open ==> Streamed(buf.past.log, batch, sink.stream))
      && buf.counters.sent == sentBefore + sink.delivered && buf.counters.accepted == acceptedBefore + sink.acknowledged
    }

    /** Between operations a session holds fewer than checkpointSize un-acked frames. */
    ghost predicate Valid()
      reads this`open, this`cursor, this`batch, this`pending, buf, sink
    {
      Inv(View()) && checkpointSize > 0 && (open ==> |batch| < checkpointSize) && CaughtUp() && Booked()
    }

    /** A non-positive checkpoint size is replaced by the default. */
    constructor (buf: Buffer, sink: Sink, checkpointSize: int)
      requires forall n :: Inv(buf.View(None, n))
      ensures this.buf == buf && this.sink == sink && Valid() && !open
      ensures View() == buf.View(None, if checkpointSize <= 0 then DEFAULT_CHECKPOINT_SIZE else checkpointSize)
    {
      this.buf, this.sink := buf, sink;
      sentBefore, acceptedBefore := buf.counters.sent - sink.delivered, buf.counters.accepted - sink.acknowledged;
      this.checkpointSize := if checkpointSize <= 0 then DEFAULT_CHECKPOINT_SIZE else checkpointSize;
      open, cursor, batch, incoming, pending, failures := false, 0, [], [], [], 0;
    }

    /** The pump writes some frames concurrently; the session does not notice. */
    method Interference()
      requires Valid()
      modifies this`incoming, buf
      ensures Valid() && Reach(old(View()), View())
      ensures buf.lastId + |incoming| <= old(buf.lastId + |incoming|)
    {
      ghost var s := View();
      ReachSelf(s);
      var count: nat := *;
      while count > 0 && incoming != []
        invariant Valid() && Reach(s, View())
        invariant buf.lastId + |incoming| <= old(buf.lastId + |incoming|)
        invariant open == old(open) && cursor == old(cursor) && batch == old(batch) && pending == old(pending)
        decreases count
      {
        ghost var t := View();
        var f := incoming[0];
        incoming := incoming[1..];
        PumpWrite(f);
        ReachTrans(s, t, View());
        count := count - 1;
      }
    }

    /** One concurrent write, which may fail. */
    method PumpWrite(f: Frame)
      requires Valid()
      modifies buf
      ensures Valid() && Reach(old(View()), View()) && buf.lastId <= old(buf.lastId) + 1
    {
      ghost var s := View();
      ReachSelf(s);
      ghost var v := buf.View(None, 0);
      assert s == v.(session := s.session, checkpointSize := checkpointSize);
      var ok := buf.Write(f);
      if ok {
        WriteIgnoresSession(v, f, s.session, checkpointSize);
        assert View() == AfterWrite(s, f);
        WriteReached(s, f);
        if open {
          StreamedGrows(s.log, buf.past.log, batch, sink.stream);
        }
      }
    }

    /** Starts at the persisted cursor; a failed cursor read is logged and reads as 0. */
    method NewSession()
      requires Valid() && !open
      modifies this, sink`stream
      ensures Valid() && open && batch == [] && pending == [] && Reach(old(View()), View())
      ensures incoming == old(incoming) && failures == old(failures)
    {
      ghost var s := View();
      var cursorRead: bool := *;
      sink.Connect();
      open, cursor, batch, pending := true, if cursorRead then buf.cursor else 0, [], [];
      assert View() == Next(s, OpenSession(cursorRead));
      StepKeeps(s, OpenSession(cursorRead));
      ReachSelf(s);
      ReachStep(s, s, OpenSession(cursorRead));
    }

    /** Half-close, record the ack, advance past the whole batch; any failure ends the session. */
    method Checkpoint() returns (ok: bool)
      requires Inv(View()) && checkpointSize > 0 && open && CaughtUp() && Booked()
      modifies this`open, this`cursor, this`batch, this`failures, buf`cursor, buf`counters, buf`past, sink
      ensures Valid() && Reach(old(View()), View()) && Blamed(old(failures), failures, ok)
      ensures ok ==> open && batch == [] && cursor == old(cursor)
      ensures !ok ==> !open
      ensures old(batch) == [] ==> ok && View() == old(View())
    {
      ghost var s := View();
      ReachSelf(s);
      if |batch| == 0 {
        return true;
      }
      var answer := sink.Checkpoint();
      if answer.Some? {
        ok := Settle(answer.value);
      } else {
        failures := failures + 1;
        Close(s);
        ok := false;
      }
    }

    /** The answered half of a checkpoint: one step of the protocol, whichever way the cursor write goes. */
    method Settle(accepted: int) returns (ok: bool)
      requires Inv(View()) && checkpointSize > 0 && open && batch != [] && sink.stream == []
      requires buf.counters.sent + |batch| == sentBefore + sink.delivered
      requires buf.counters.accepted + accepted == acceptedBefore + sink.acknowledged
      modifies this`open, this`cursor, this`batch, this`failures, buf`cursor, buf`counters, buf`past
      ensures Valid() && Reach(old(View()), View()) && Blamed(old(failures), failures, ok)
      ensures ok == open && cursor == old(cursor) && (ok ==> batch == [])
    {
      ghost var s := View();
      ReachSelf(s);
      var drifts: Tally;
      ghost var persist;
      ok, drifts, persist := Acknowledge(accepted);
      if !ok {
        failures := failures + 1;
      }
      StepKeeps(s, Delivery.Checkpoint(accepted, drifts, persist));
      ReachStep(s, s, Delivery.Checkpoint(accepted, drifts, persist));
    }

    /** A successful acknowledgement is one Checkpoint step, whichever way the cursor write goes. */
    method Acknowledge(accepted: int) returns (ok: bool, drifts: Tally, ghost persist: Persist)
      requires open && batch != [] && batch[|batch| - 1].id == cursor
      modifies this`open, this`cursor, this`batch, buf`cursor, buf`counters, buf`past
      ensures Enabled(old(View()), Delivery.Checkpoint(accepted, drifts, persist))
      ensures View() == Next(old(View()), Delivery.Checkpoint(accepted, drifts, persist))
      ensures ok == open && cursor == old(cursor) && (ok ==> batch == [] && buf.cursor == cursor)
    {
      var newCursor: nat;
      newCursor, drifts := ApplyAck(batch, accepted);
      ok, persist := buf.RecordAck(batch, accepted, drifts, Session(cursor, pending, batch), checkpointSize);
      cursor, open := newCursor, ok;
      if ok {
        batch := [];
      }
    }

    /** Sends one queued row; a transport failure ends the session. */
    method SendOne(row: Row) returns (ok: bool)
      requires Valid() && open && pending != [] && pending[0] == row
      modifies this`open, this`cursor, this`batch, this`pending, this`failures, sink`stream
      ensures Inv(View()) && Booked() && Reach(old(View()), View()) && Blamed(old(failures), failures, ok)
      ensures if ok then open && cursor == row.id && pending == old(pending)[1..] && batch != [] else !open
    {
      ghost var s := View();
      ReachSelf(s);
      ok := sink.Send(row.frame);
      if ok {
        StreamedSnoc(buf.past.log, batch, old(sink.stream), row);
        Sent(row);
      } else {
        failures := failures + 1;
        Close(s);
      }
    }

    method Sent(row: Row)
      requires Inv(View()) && |batch| < checkpointSize && open && pending != [] && pending[0] == row
      modifies this`cursor, this`batch, this`pending
      ensures Inv(View()) && Reach(old(View()), View())
      ensures cursor == row.id && pending == old(pending)[1..]
      ensures batch == old(batch) + [SentFrame(row.id, row.frame.pointId)]
    {
      ghost var s := View();
      batch := batch + [SentFrame(row.id, row.frame.pointId)];
      cursor := row.id;
      pending := pending[1..];
      assert View() == Next(s, Send);
      StepKeeps(s, Send);
      ReachSelf(s);
      ReachStep(s, s, Send);
    }

    /** One turn of the send loop: the pump may write, the row is sent, and a full batch is checkpointed. */
    method SendNext(row: Row) returns (ok: bool)
      requires Valid() && open && pending != [] && pending[0] == row
      modifies this, buf, sink
      ensures Blamed(old(failures), failures, ok)
      ensures Valid() && Reach(old(View()), View())
      ensures buf.lastId + |incoming| <= old(buf.lastId + |incoming|)
      ensures if ok then open && pending == old(pending)[1..] && cursor == row.id else !open
    {
      ghost var s := View();
      Interference();
      ghost var t := View();
      ok := SendChecked(row);
      ReachTrans(s, t, View());
    }

    method SendChecked(row: Row) returns (ok: bool)
      requires Valid() && open && pending != [] && pending[0] == row
      modifies this`open, this`cursor, this`batch, this`pending, this`failures, buf`cursor, buf`counters, buf`past, sink
      ensures Valid() && Reach(old(View()), View()) && Blamed(old(failures), failures, ok)
      ensures if ok then open && pending == old(pending)[1..] && cursor == row.id else !open
    {
      ghost var s := View();
      ok := SendOne(row);
      if ok && |batch| >= checkpointSize {
        ghost var t := View();
        ok := Checkpoint();
        ReachTrans(s, t, View());
      }
    }

    /** Sends every row read, checkpointing on size. */
    method SendAll(frames: seq<Row>) returns (ok: bool)
      requires Valid() && open && pending == frames && frames != []
      modifies this, buf, sink
      ensures Blamed(old(failures), failures, ok)
      ensures Valid() && Reach(old(View()), View())
      ensures buf.lastId + |incoming| <= old(buf.lastId + |incoming|)
      ensures if ok then open && pending == [] && cursor == frames[|frames| - 1].id else !open
    {
      ghost var s := View();
      ReachSelf(s);
      for i := 0 to |frames|
        invariant Valid() && open && pending == frames[i..] && Reach(s, View())
        invariant buf.lastId + |incoming| <= old(buf.lastId + |incoming|)
        invariant (i > 0 ==> cursor == frames[i - 1].id) && old(failures) <= failures
      {
        ghost var t := View();
        ok := SendNext(frames[i]);
        ReachTrans(s, t, View());
        if !ok {
          return;
        }
      }
      ok := true;
    }

    /** Reads and sends until nothing is left past the cursor; a read error just ends the drain. */
    method Drain() returns (ok: bool)
      requires Valid() && open && pending == []
      modifies this, buf, sink
      ensures Blamed(old(failures), failures, ok && NothingPast(buf.rows, cursor))
      ensures Valid() && Reach(old(View()), View())
      ensures if ok then open && pending == [] else !open
      ensures ok ==> NothingPast(buf.rows, cursor) || buf.readFailed
    {
      ghost var s := View();
      ReachSelf(s);
      while true
        invariant Valid() && open && pending == [] && Reach(s, View()) && old(failures) <= failures
        decreases buf.lastId + |incoming| - cursor
      {
        ghost var t := View();
        var more;
        ok, more := DrainTurn();
        ReachTrans(s, t, View());
        if !ok || !more {
          return;
        }
      }
    }

    /** One read of up to READ_LIMIT rows, and their sending. */
    method DrainTurn() returns (ok: bool, more: bool)
      requires Valid() && open && pending == []
      modifies this, buf, sink
      ensures Blamed(old(failures), failures, ok && (more || NothingPast(buf.rows, cursor)))
      ensures Valid() && Reach(old(View()), View())
      ensures if ok then open && pending == [] else !open
      ensures ok && !more ==> NothingPast(buf.rows, cursor) || buf.readFailed
      ensures ok && more ==> old(cursor) < cursor <= buf.lastId && buf.lastId + |incoming| <= old(buf.lastId + |incoming|)
    {
      ghost var s := View();
      Interference();
      ghost var t := View();
      var readOk, frames := buf.ReadBatch(cursor, READ_LIMIT);
      if !readOk {
        failures := failures + 1;
      }
      if !readOk || |frames| == 0 {
        EmptyBatch(buf.rows, cursor);
        return true, false;
      }
      more := true;
      ok := SendFrames(frames);
      ReachTrans(s, t, View());
    }

    method SendFrames(frames: seq<Row>) returns (ok: bool)
      requires Valid() && open && pending == [] && frames != [] && frames == Batch(buf.rows, cursor, READ_LIMIT)
      modifies this, buf, sink
      ensures Blamed(old(failures), failures, ok)
      ensures Valid() && Reach(old(View()), View())
      ensures if ok then open && pending == [] else !open
      ensures ok ==> old(cursor) < cursor <= buf.lastId && buf.lastId + |incoming| <= old(buf.lastId + |incoming|)
    {
      ghost var s := View();
      Queue(frames);
      ghost var t := View();
      ok := SendAll(frames);
      ReachTrans(s, t, View());
    }

    /** The rows just read become the session's queue. */
    ghost method Queue(frames: seq<Row>)
      requires Valid() && open && pending == [] && frames == Batch(buf.rows, cursor, READ_LIMIT)
      modifies this`pending
      ensures Valid() && pending == frames && Reach(old(View()), View())
    {
      var s := View();
      pending := frames;
      assert View() == Next(s, Read);
      StepKeeps(s, Read);
      ReachSelf(s);
      ReachStep(s, s, Read);
    }

    /** One forwarding session: checkpoints on the age tick, drains on write signals, until cancelled or failed. */
    method Run(wakeups: nat) returns (ok: bool)
      requires Valid() && !open
      modifies this, buf, sink
      ensures Blamed(old(failures), failures, ok)
      ensures Valid() && !open && Reach(old(View()), View())
    {
      ghost var s := View();
      NewSession();
      for i := 0 to wakeups
        invariant Valid() && open && pending == [] && Reach(s, View()) && old(failures) <= failures
      {
        ghost var t := View();
        var tick: bool := *;
        if tick {
          ok := Checkpoint();
        } else {
          ok := Drain();
        }
        ReachTrans(s, t, View());
        if !ok {
          return;
        }
      }
      Close(s);
      ok := true;
    }

    /** The session ends, on an error or when cancelled, without a checkpoint: its un-acked batch is replayed later. */
    method Close(ghost s: State)
      requires Inv(View()) && checkpointSize > 0 && open && Reach(s, View())
      requires buf.counters.sent == sentBefore + sink.delivered && buf.counters.accepted == acceptedBefore + sink.acknowledged
      modifies this`open
      ensures Valid() && !open && Reach(s, View())
    {
      ghost var t := View();
      StepKeeps(t, EndSession);
      open := false;
      assert View() == Next(t, EndSession);
      ReachStep(s, t, EndSession);
    }

    /**
     The shutdown flush: drain what is past the cursor, then checkpoint once. If it succeeds
     every stored row is at or below the persisted cursor, unless the last read failed.
     */
    method DrainOnce() returns (ok: bool)
      requires Valid() && !open
      modifies this, buf, sink
      ensures Blamed(old(failures), failures, ok && NothingPast(buf.rows, buf.cursor))
      ensures Valid() && !open && Reach(old(View()), View())
      ensures ok ==> NothingPast(buf.rows, buf.cursor) || buf.readFailed
    {
      ghost var s := View();
      NewSession();
      ghost var t0 := View();
      ok := Drain();
      ghost var t1 := View();
      ReachTrans(s, t0, t1);
      if !ok {
        return;
      }
      ok := CheckpointAndClose(s);
    }

    /** What was at or below the session's cursor is then at or below the persisted one. */
    method CheckpointAndClose(ghost s: State) returns (ok: bool)
      requires Valid() && open && Reach(s, View())
      modifies this`open, this`cursor, this`batch, this`failures, buf`cursor, buf`counters, buf`past, sink
      ensures Valid() && !open && Reach(s, View()) && Blamed(old(failures), failures, ok)
      ensures ok && NothingPast(buf.rows, old(cursor)) ==> NothingPast(buf.rows, buf.cursor)
    {
      ghost var t := View();
      ok := Checkpoint();
      ReachTrans(s, t, View());
      if ok {
        Close(s);
      }
    }

    /** Ingress: sessions one after another, reconnecting on errors, then the final flush. Every state it passes through is accounted for. */
    method Ingress(sessions: nat) returns (flushed: bool)
      requires Valid() && !open
      modifies this, buf, sink
      ensures Blamed(old(failures), failures, flushed && NothingPast(buf.rows, buf.cursor))
      ensures Valid() && !open && Reach(old(View()), View())
      ensures flushed ==> NothingPast(buf.rows, buf.cursor) || buf.readFailed
    {
      ghost var s := View();
      ReachSelf(s);
      for i := 0 to sessions
        invariant Valid() && !open && Reach(s, View()) && old(failures) <= failures
      {
        ghost var t := View();
        var wakeups: nat := *;
        var _ := Run(wakeups);
        ReachTrans(s, t, View());
      }
      ghost var t := View();
      flushed := DrainOnce();
      ReachTrans(s, t, View());
    }
  }
}
