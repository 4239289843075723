/**
 The pump's idempotent write (internal/storeforward/pump.go): a sliding bitmap over
 stream sequences, proved to be a set, and the loop that writes, skips and acknowledges.
 The index `s & (n - 1)` for a power of two n is written `s % n`, and the bitmap is an
 array with one cell per residue instead of one bit of a 64-bit word.
 */
module Pumping {
  import opened Prelude
  import opened RingTable
  import opened Forwarding

  const DEDUP_WINDOW_SEQS: nat := 2097152

  lemma {:induction false} LapsApart(n: nat, a: int, b: int)
    requires a < b
    ensures n * a + n <= n * b
    decreases b - a
  {
    assert n * (b - 1) + n == n * b;
    if a < b - 1 {
      LapsApart(n, a, b - 1);
    }
  }

  lemma SameRemainder(n: nat, a: int, r: int, b: int, q: int)
    requires 0 <= r < n && 0 <= q < n && n * a + r == n * b + q
    ensures a == b && r == q
  {
    if a < b {
      LapsApart(n, a, b);
    } else if b < a {
      LapsApart(n, b, a);
    }
  }

  /** Two sequences within one window span land on the same bit only if they are equal. */
  lemma ResidueDecides(s: nat, t: nat, n: nat)
    requires n > 0 && s % n == t % n && s < t + n && t < s + n
    ensures s == t
  {
    var a, b := s / n, t / n;
    if a < b {
      LapsApart(n, a, b);
    } else if b < a {
      LapsApart(n, b, a);
    }
  }

  lemma NextLap(s: nat, n: nat)
    requires n > 0
    ensures (s + n) % n == s % n
  {
    var a, b := s / n, (s + n) / n;
    assert n * (a + 1) == n * a + n;
    SameRemainder(n, a + 1, s % n, b, (s + n) % n);
  }

  // ---- The window ----

  ghost function Doubled(k: nat): nat {
    if k == 0 then 64 else 2 * Doubled(k - 1)
  }

  ghost predicate IsTop(added: set<nat>, top: int) {
    if added == {} then top == -1 else top in added && forall s :: s in added ==> s <= top
  }

  lemma {:induction false} DoubledGrows(a: nat, b: nat)
    requires a < b
    ensures 2 * Doubled(a) <= Doubled(b) && Doubled(a) >= 64
    decreases b
  {
    if a < b - 1 {
      DoubledGrows(a, b - 1);
    } else if a > 0 {
      DoubledGrows(a - 1, a);
    }
  }

  /** A size that is itself 64 doubled is spanned exactly. */
  lemma SpanIsExact(span: nat, size: nat, k: nat, j: nat)
    requires span == Doubled(k) && size == Doubled(j) && span >= size && (span == 64 || span < 2 * size)
    ensures span == size
  {
    if k < j {
      DoubledGrows(k, j);
    } else if j < k {
      DoubledGrows(j, k);
    }
  }

  lemma WindowIsDoubled()
    ensures DEDUP_WINDOW_SEQS == Doubled(15)
  {
    assert Doubled(5) == 2048;
    assert Doubled(10) == 65536;
  }

  /** 64 doubled until it is large enough. */
  method Span(size: nat) returns (span: nat)
    ensures span >= size && (exists k :: span == Doubled(k)) && (span == 64 || 64 < span < 2 * size)
  {
    span := 64;
    ghost var k := 0;
    while span < size
      invariant span >= 64 && span == Doubled(k) && (span == 64 || span < 2 * size)
      decreases size - span
    {
      span, k := span * 2, k + 1;
    }
  }

  class SeqWindow {
    const n: nat
    const bits: array<bool>
    var base: nat
    ghost var added: set<nat>
    ghost var top: int

    ghost predicate Covers(from: nat)
      reads this, bits
    {
      && n == bits.Length && n > 0
      && forall s: nat :: from <= s < from + n ==> (bits[s % n] <==> s in added)
    }

    /** The cells of [base, base + n) say exactly which of those sequences were added. */
    ghost predicate Valid()
      reads this, bits
    {
      && Covers(base) && IsTop(added, top)
      && base == Max(0, top - n + 1)
    }

    /** Spans at least `size` sequences. */
    constructor (size: nat)
      ensures Valid() && added == {} && fresh(bits) && n >= size && (exists k :: n == Doubled(k)) && (n == 64 || n < 2 * size)
    {
      var span := Span(size);
      n := span;
      bits := new bool[span](_ => false);
      base, added, top := 0, {}, -1;
    }

    /** The bitmap is a set with a horizon: a sequence is remembered iff it was added and lies within n of the newest. */
    method Contains(s: nat) returns (r: bool)
      requires Valid()
      ensures r <==> s in added && s > top - n
    {
      if s < base || s - base >= n {
        return false;
      }
      r := bits[s % n];
    }

    method Add(s: nat)
      requires Valid()
      modifies this, bits
      ensures Valid() && added == old(added) + {s} && top == Max(old(top), s)
    {
      ghost var newTop := Max(top, s);
      if s >= base {
        if s - base >= n {
          Slide(s - n + 1);
        }
        bits[s % n] := true;
        forall t: nat | base <= t < base + n
          ensures bits[t % n] <==> t in added + {s}
        {
          if t % n == s % n {
            ResidueDecides(s, t, n);
          }
        }
      }
      added, top := added + {s}, newTop;
    }

    /** Moves base forward, clearing the cells of the sequences it passes. */
    method Slide(newBase: nat)
      requires Covers(base) && base < newBase
      requires forall s :: s in added ==> s < base + n
      modifies bits, this`base
      ensures Covers(base) && base == newBase
    {
      if newBase - base >= n {
        for i := 0 to n
          invariant forall j :: 0 <= j < i ==> !bits[j]
        {
          bits[i] := false;
        }
      } else {
        for s := base to newBase
          invariant Covers(s)
        {
          ClearOne(s);
        }
      }
      base := newBase;
    }

    method ClearOne(s: nat)
      requires Covers(s) && s + n !in added
      modifies bits
      ensures Covers(s + 1)
    {
      bits[s % n] := false;
      forall t: nat | s + 1 <= t < s + 1 + n
        ensures bits[t % n] <==> t in added
      {
        if t == s + n {
          NextLap(s, n);
        } else if t % n == s % n {
          ResidueDecides(s, t, n);
        }
      }
    }
  }

  // ---- The pump ----

  /** A frame with its source message's stream sequence; 0 means unknown and disables the check. */
  datatype FrameMsg = FrameMsg(frame: Frame, streamSeq: nat)

  /** Written and Duplicate messages are acknowledged; a failed write is NAK'd for redelivery. */
  datatype Outcome = Written | Duplicate | WriteFailed

  ghost function WrittenSeqs(src: seq<FrameMsg>, out: seq<Outcome>): set<nat>
    requires |out| <= |src|
  {
    set i | 0 <= i < |out| && out[i] == Written && src[i].streamSeq != 0 :: src[i].streamSeq
  }

  ghost function WrittenFrames(src: seq<FrameMsg>, out: seq<Outcome>): seq<Frame>
    requires |out| <= |src|
  {
    if out == [] then []
    else
      var k := |out| - 1;
      WrittenFrames(src, out[..k]) + (if out[k] == Written then [src[k].frame] else [])
  }

  /** Skipped iff already written and nothing written since the start lies n or more beyond it. */
  ghost predicate Judged(src: seq<FrameMsg>, out: seq<Outcome>, n: nat, j: nat)
    requires |out| <= |src| && j < |out|
  {
    var s := src[j].streamSeq;
    out[j] == Duplicate <==>
      && s != 0
      && (exists i :: 0 <= i < j && out[i] == Written && src[i].streamSeq == s)
      && (forall k :: 0 <= k < j && out[k] == Written ==> src[k].streamSeq < s + n)
  }

  ghost predicate Pumped(src: seq<FrameMsg>, out: seq<Outcome>, n: nat) {
    |out| <= |src| && forall j :: 0 <= j < |out| ==> Judged(src, out, n, j)
  }

  lemma WrittenSnoc(src: seq<FrameMsg>, out: seq<Outcome>, o: Outcome)
    requires |out| < |src|
    ensures WrittenSeqs(src, out + [o]) ==
            WrittenSeqs(src, out) + (if o == Written && src[|out|].streamSeq != 0 then {src[|out|].streamSeq} else {})
    ensures WrittenFrames(src, out + [o]) ==
            WrittenFrames(src, out) + (if o == Written then [src[|out|].frame] else [])
  {
    assert (out + [o])[..|out|] == out;
    SeqsGrow(src, out, o);
    SeqsFrom(src, out, o);
  }

  lemma SeqsGrow(src: seq<FrameMsg>, out: seq<Outcome>, o: Outcome)
    requires |out| < |src|
    ensures WrittenSeqs(src, out) <= WrittenSeqs(src, out + [o])
    ensures o == Written && src[|out|].streamSeq != 0 ==> src[|out|].streamSeq in WrittenSeqs(src, out + [o])
  {
    var out' := out + [o];
    assert out'[|out|] == o;
    forall x | x in WrittenSeqs(src, out)
      ensures x in WrittenSeqs(src, out')
    {
      var i :| 0 <= i < |out| && out[i] == Written && src[i].streamSeq == x != 0;
      assert out'[i] == Written;
    }
  }

  lemma SeqsFrom(src: seq<FrameMsg>, out: seq<Outcome>, o: Outcome)
    requires |out| < |src|
    ensures forall x :: x in WrittenSeqs(src, out + [o]) ==>
                          x in WrittenSeqs(src, out) || (o == Written && x == src[|out|].streamSeq != 0)
  {
    var out' := out + [o];
    forall x | x in WrittenSeqs(src, out')
      ensures x in WrittenSeqs(src, out) || (o == Written && x == src[|out|].streamSeq != 0)
    {
      var i :| 0 <= i < |out'| && out'[i] == Written && src[i].streamSeq == x != 0;
      assert i < |out| ==> out[i] == Written;
    }
  }

  /** Extending a judged prefix by one correctly judged outcome. */
  lemma JudgedSnoc(src: seq<FrameMsg>, out: seq<Outcome>, o: Outcome, n: nat, top: int)
    requires |out| < |src| && Pumped(src, out, n) && IsTop(WrittenSeqs(src, out), top) && n > 0
    requires var s := src[|out|].streamSeq;
             o == Duplicate <==> s != 0 && s in WrittenSeqs(src, out) && s > top - n
    ensures Pumped(src, out + [o], n)
  {
    var out' := out + [o];
    var s := src[|out|].streamSeq;
    forall j | 0 <= j < |out|
      ensures Judged(src, out', n, j)
    {
      assert Judged(src, out, n, j);
      assert forall i :: 0 <= i < |out| ==> out'[i] == out[i];
    }
    assert Judged(src, out', n, |out|) by {
      assert forall i :: 0 <= i < |out| ==> out'[i] == out[i];
      assert forall k :: 0 <= k < |out| && out[k] == Written && src[k].streamSeq != 0 ==>
               src[k].streamSeq in WrittenSeqs(src, out);
      if s in WrittenSeqs(src, out) && s <= top - n {
        var k :| 0 <= k < |out| && out[k] == Written && src[k].streamSeq == top;
        assert !(src[k].streamSeq < s + n);
      }
    }
  }

  /** How many messages are left unacknowledged. */
  ghost function Failures(out: seq<Outcome>): nat {
    if out == [] then 0 else Failures(out[..|out| - 1]) + (if out[|out| - 1] == WriteFailed then 1 else 0)
  }

  /** Writes each message once per window, acknowledges only what is durably written, and leaves unacknowledged only what the store refused. */
  method Pump(src: seq<FrameMsg>, buf: Buffer) returns (out: seq<Outcome>)
    modifies buf
    ensures |out| == |src| && Pumped(src, out, DEDUP_WINDOW_SEQS)
    ensures buf.past.log == old(buf.past.log) + WrittenFrames(src, out)
    ensures Failures(out) == buf.failedWrites - old(buf.failedWrites)
  {
    var written := PumpWindow();
    ghost var n := written.n;
    out := [];
    while |out| < |src|
      invariant |out| <= |src| && Pumped(src, out, n) && fresh(written) && fresh(written.bits)
      invariant written.Valid() && written.added == WrittenSeqs(src, out)
      invariant buf.past.log == old(buf.past.log) + WrittenFrames(src, out)
      invariant Failures(out) == buf.failedWrites - old(buf.failedWrites)
      decreases |src| - |out|
    {
      ghost var top := written.top;
      var o := PumpOne(src[|out|], written, buf);
      JudgedSnoc(src, out, o, n, top);
      WrittenSnoc(src, out, o);
      assert (out + [o])[..|out|] == out;
      out := out + [o];
    }
  }

  /** The pump's own window spans exactly DEDUP_WINDOW_SEQS sequences. */
  method PumpWindow() returns (w: SeqWindow)
    ensures fresh(w) && fresh(w.bits) && w.Valid() && w.added == {} && w.n == DEDUP_WINDOW_SEQS
  {
    w := new SeqWindow(DEDUP_WINDOW_SEQS);
    WindowIsDoubled();
    ghost var k :| w.n == Doubled(k);
    SpanIsExact(w.n, DEDUP_WINDOW_SEQS, k, 15);
  }

  /** Skip exactly what the window remembers; write, remember and report everything else. */
  method PumpOne(msg: FrameMsg, written: SeqWindow, buf: Buffer) returns (o: Outcome)
    requires written.Valid()
    modifies buf, written, written.bits
    ensures written.Valid()
    ensures o == Duplicate <==> msg.streamSeq != 0 && msg.streamSeq in old(written.added) && msg.streamSeq > old(written.top) - written.n
    ensures buf.past.log == old(buf.past.log) + (if o == Written then [msg.frame] else [])
    ensures buf.failedWrites == old(buf.failedWrites) + (if o == WriteFailed then 1 else 0)
    ensures written.added == old(written.added) + (if o == Written && msg.streamSeq != 0 then {msg.streamSeq} else {})
  {
    var seen := false;
    if msg.streamSeq != 0 {
      seen := written.Contains(msg.streamSeq);
    }
    o := Duplicate;
    if !seen {
      o := WriteOne(msg, written, buf);
    }
  }

  method WriteOne(msg: FrameMsg, written: SeqWindow, buf: Buffer) returns (o: Outcome)
    requires written.Valid()
    modifies buf, written, written.bits
    ensures written.Valid() && o != Duplicate
    ensures buf.past.log == old(buf.past.log) + (if o == Written then [msg.frame] else [])
    ensures buf.failedWrites == old(buf.failedWrites) + (if o == WriteFailed then 1 else 0)
    ensures written.added == old(written.added) + (if o == Written && msg.streamSeq != 0 then {msg.streamSeq} else {})
  {
    var ok := buf.Write(msg.frame);
    if !ok {
      return WriteFailed;
    }
    if msg.streamSeq != 0 {
      written.Add(msg.streamSeq);
    }
    o := Written;
  }

  /** An acknowledged message was durably written, now or earlier under the same stream sequence. */
  lemma AckedMeansWritten(src: seq<FrameMsg>, out: seq<Outcome>, n: nat, j: nat)
    requires Pumped(src, out, n) && j < |out| && out[j] != WriteFailed
    ensures exists i :: 0 <= i <= j && out[i] == Written && src[i].streamSeq == src[j].streamSeq
  {
    assert Judged(src, out, n, j);
    if out[j] == Written {
      assert src[j].streamSeq == src[j].streamSeq;
    }
  }

  /**
   A nonzero sequence is written a second time only if some sequence n or more beyond it
   was written before, and in between the two writes unless the first one was itself a
   straggler, already n behind when it was written.
   */
  lemma SecondWriteNeedsNewer(src: seq<FrameMsg>, out: seq<Outcome>, n: nat, i: nat, j: nat)
    requires Pumped(src, out, n) && i < j < |out| && out[i] == Written && out[j] == Written
    requires src[i].streamSeq == src[j].streamSeq != 0
    ensures exists k :: 0 <= k < j && out[k] == Written && src[k].streamSeq >= src[i].streamSeq + n
    ensures (forall k :: 0 <= k < i && out[k] == Written ==> src[k].streamSeq < src[i].streamSeq + n) && n > 0 ==>
              exists k :: i < k < j && out[k] == Written && src[k].streamSeq >= src[i].streamSeq + n
  {
    assert Judged(src, out, n, j);
    var k :| 0 <= k < j && out[k] == Written && src[k].streamSeq >= src[i].streamSeq + n;
    if k <= i && n > 0 {
      assert k < i;
    }
  }

  /** The straggler family: once something n or more beyond s is written, s is never skipped again. */
  lemma StragglerIsNeverSkipped(src: seq<FrameMsg>, out: seq<Outcome>, n: nat, k: nat, j: nat)
    requires Pumped(src, out, n) && k < j < |out| && out[k] == Written
    requires src[k].streamSeq >= src[j].streamSeq + n
    ensures out[j] != Duplicate
  {
    assert Judged(src, out, n, j);
  }

  /** One message more than a window ahead, then a straggler and its redelivery. */
  function Straggler(f: Frame): seq<FrameMsg> {
    [FrameMsg(f, DEDUP_WINDOW_SEQS + 5), FrameMsg(f, 5), FrameMsg(f, 5)]
  }

  /** On that stream, unless a write fails, the pump writes the straggler twice in a row. */
  lemma StragglerWrittenTwice(f: Frame)
    ensures Pumped(Straggler(f), [Written, Written, Written], DEDUP_WINDOW_SEQS)
    ensures forall out :: |out| == 3 && WriteFailed !in out && Pumped(Straggler(f), out, DEDUP_WINDOW_SEQS) ==>
                            out == [Written, Written, Written]
  {
    var src, all := Straggler(f), [Written, Written, Written];
    assert all[0] == Written && src[0].streamSeq == DEDUP_WINDOW_SEQS + 5;
    assert Judged(src, all, DEDUP_WINDOW_SEQS, 0) && Judged(src, all, DEDUP_WINDOW_SEQS, 1) && Judged(src, all, DEDUP_WINDOW_SEQS, 2);
    forall out | |out| == 3 && WriteFailed !in out && Pumped(src, out, DEDUP_WINDOW_SEQS)
      ensures out == all
    {
      assert out[0] != WriteFailed && out[1] != WriteFailed && out[2] != WriteFailed;
      assert Judged(src, out, DEDUP_WINDOW_SEQS, 0);
      StragglerIsNeverSkipped(src, out, DEDUP_WINDOW_SEQS, 0, 1);
      StragglerIsNeverSkipped(src, out, DEDUP_WINDOW_SEQS, 0, 2);
    }
  }
}
