/**
 Command idempotency (connector/sdk/dedup.go): a bounded FIFO of reserved control ids
 with cached replies, and what every history of TryReserve and Complete guarantees.
 */
module CommandDedup {
  import opened Prelude

  datatype WriteReply = WriteReply(success: bool, response: string)

  /** A reserved id without a reply is in flight. */
  datatype State = State(entries: map<string, Option<WriteReply>>, keys: seq<string>)

  datatype Answer = Proceed | InFlight | Cached(reply: WriteReply)

  datatype Op = TryReserve(id: string) | Complete(id: string, reply: WriteReply)

  const EMPTY: State := State(map[], [])

  function Answered(s: State, id: string): Answer {
    if id !in s.entries then Proceed
    else if s.entries[id].None? then InFlight
    else Cached(s.entries[id].value)
  }

  function Reserved(s: State, id: string, cap: nat): State
    requires id !in s.entries && cap > 0
  {
    var t := if |s.keys| >= cap then State(s.entries - {s.keys[0]}, s.keys[1..]) else s;
    State(t.entries[id := None], t.keys + [id])
  }

  function Step(s: State, op: Op, cap: nat): State
    requires cap > 0
  {
    match op
    case TryReserve(id) => if id in s.entries then s else Reserved(s, id, cap)
    case Complete(id, reply) => s.(entries := s.entries[id := Some(reply)])
  }

  class Dedup {
    var entries: map<string, Option<WriteReply>>
    var keys: seq<string>
    const cap: nat

    ghost function View(): State
      reads this
    {
      State(entries, keys)
    }

    constructor (cap: nat)
      ensures View() == EMPTY && this.cap == cap
    {
      entries, keys, this.cap := map[], [], cap;
    }

    method TryReserve(id: string) returns (proceed: bool, cached: Option<WriteReply>)
      requires cap > 0
      modifies this
      ensures View() == Step(old(View()), Op.TryReserve(id), cap)
      ensures match Answered(old(View()), id)
              case Proceed => proceed && cached == None
              case InFlight => !proceed && cached == None
              case Cached(reply) => !proceed && cached == Some(reply)
    {
      if id in entries {
        return false, entries[id];
      }
      if |keys| >= cap {
        var oldest := keys[0];
        keys := keys[1..];
        entries := entries - {oldest};
      }
      entries := entries[id := None];
      keys := keys + [id];
      return true, None;
    }

    method Complete(id: string, reply: WriteReply)
      requires cap > 0
      modifies this
      ensures View() == Step(old(View()), Op.Complete(id, reply), cap)
    {
      entries := entries[id := Some(reply)];
    }
  }

  // ---- Histories ----

  function Run(s: State, ops: seq<Op>, cap: nat): State
    requires cap > 0
    decreases |ops|
  {
    if ops == [] then s else Run(Step(s, ops[0], cap), ops[1..], cap)
  }

  predicate Succeeds(s: State, op: Op) {
    op.TryReserve? && op.id !in s.entries
  }

  /** Successful reservations of ids other than `id` along a history. */
  function Others(s: State, ops: seq<Op>, id: string, cap: nat): nat
    requires cap > 0
    decreases |ops|
  {
    if ops == [] then 0
    else
      (if Succeeds(s, ops[0]) && ops[0].id != id then 1 else 0) + Others(Step(s, ops[0], cap), ops[1..], id, cap)
  }

  ghost predicate Distinct(keys: seq<string>) {
    forall i, j :: 0 <= i < j < |keys| ==> keys[i] != keys[j]
  }

  /** Keys are distinct, live and at most cap; entries may also hold ids completed after their eviction. */
  ghost predicate Inv(s: State, cap: nat) {
    && |s.keys| <= cap && Distinct(s.keys)
    && forall i :: 0 <= i < |s.keys| ==> s.keys[i] in s.entries
  }

  lemma StepKeeps(s: State, op: Op, cap: nat)
    requires Inv(s, cap) && cap > 0
    ensures Inv(Step(s, op, cap), cap)
  {
  }

  /** Number of successful reservations an id still survives: its distance from eviction. */
  ghost predicate SafeFor(s: State, id: string, left: nat, cap: nat) {
    id in s.entries && exists p :: 0 <= p < |s.keys| && s.keys[p] == id && p + cap >= |s.keys| + left
  }

  lemma StaysSafe(s: State, op: Op, id: string, left: nat, cap: nat)
    requires Inv(s, cap) && cap > 0 && SafeFor(s, id, left, cap)
    requires Succeeds(s, op) ==> left > 0
    ensures SafeFor(Step(s, op, cap), id, if Succeeds(s, op) then left - 1 else left, cap)
  {
    var p :| 0 <= p < |s.keys| && s.keys[p] == id && p + cap >= |s.keys| + left;
    var t := Step(s, op, cap);
    if Succeeds(s, op) {
      if |s.keys| >= cap {
        assert p > 0;
        assert t.keys[p - 1] == id;
      } else {
        assert t.keys[p] == id;
      }
    } else {
      assert t.keys[p] == id;
    }
  }

  /** From a successful reservation on, the id stays reserved while fewer than cap others succeed. */
  lemma {:induction false} HeldForWindow(s: State, ops: seq<Op>, id: string, left: nat, cap: nat)
    requires Inv(s, cap) && cap > 0 && SafeFor(s, id, left, cap) && Others(s, ops, id, cap) <= left
    ensures id in Run(s, ops, cap).entries
    decreases |ops|
  {
    if ops != [] {
      StepKeeps(s, ops[0], cap);
      StaysSafe(s, ops[0], id, left, cap);
      HeldForWindow(Step(s, ops[0], cap), ops[1..], id, if Succeeds(s, ops[0]) then left - 1 else left, cap);
    }
  }

  lemma {:induction false} RunKeeps(s: State, ops: seq<Op>, cap: nat)
    requires Inv(s, cap) && cap > 0
    ensures Inv(Run(s, ops, cap), cap)
    decreases |ops|
  {
    if ops != [] {
      StepKeeps(s, ops[0], cap);
      RunKeeps(Step(s, ops[0], cap), ops[1..], cap);
    }
  }

  lemma FreshlyReserved(s: State, id: string, cap: nat)
    requires Inv(s, cap) && cap > 0 && id !in s.entries
    ensures SafeFor(Reserved(s, id, cap), id, cap - 1, cap)
  {
    var t := Reserved(s, id, cap);
    assert t.keys[|t.keys| - 1] == id;
  }

  /** Over every history, two successful reservations of one id are separated by at least cap successful reservations of others. */
  lemma ReservationsAreSeparated(before: seq<Op>, between: seq<Op>, id: string, cap: nat)
    requires cap > 0
    requires Succeeds(Run(EMPTY, before, cap), TryReserve(id))
    requires var s := Step(Run(EMPTY, before, cap), TryReserve(id), cap);
             Succeeds(Run(s, between, cap), TryReserve(id))
    ensures var s := Step(Run(EMPTY, before, cap), TryReserve(id), cap);
            Others(s, between, id, cap) >= cap
  {
    RunKeeps(EMPTY, before, cap);
    var s0 := Run(EMPTY, before, cap);
    var s := Step(s0, TryReserve(id), cap);
    StepKeeps(s0, TryReserve(id), cap);
    FreshlyReserved(s0, id, cap);
    if Others(s, between, id, cap) <= cap - 1 {
      HeldForWindow(s, between, id, cap - 1, cap);
    }
  }

  /** The last reply recorded for an id in a history, if any. */
  function LastReply(ops: seq<Op>, id: string): Option<WriteReply> {
    if ops == [] then None
    else
      var last := ops[|ops| - 1];
      if last.Complete? && last.id == id then Some(last.reply) else LastReply(ops[..|ops| - 1], id)
  }

  lemma {:induction false} RunSnoc(s: State, ops: seq<Op>, op: Op, id: string, cap: nat)
    requires cap > 0
    ensures Run(s, ops + [op], cap) == Step(Run(s, ops, cap), op, cap)
    ensures Others(s, ops + [op], id, cap) ==
            Others(s, ops, id, cap) + (if Succeeds(Run(s, ops, cap), op) && op.id != id then 1 else 0)
    decreases |ops|
  {
    if ops == [] {
      assert (ops + [op])[1..] == [];
    } else {
      assert (ops + [op])[1..] == ops[1..] + [op];
      RunSnoc(Step(s, ops[0], cap), ops[1..], op, id, cap);
    }
  }

  /** Within the window the entry is exactly the last completed reply, or still in flight. */
  lemma {:induction false} EntryWithinWindow(s: State, ops: seq<Op>, id: string, cap: nat)
    requires Inv(s, cap) && cap > 0 && SafeFor(s, id, cap - 1, cap) && s.entries[id] == None
    requires Others(s, ops, id, cap) < cap
    ensures id in Run(s, ops, cap).entries && Run(s, ops, cap).entries[id] == LastReply(ops, id)
    decreases |ops|
  {
    if ops != [] {
      var front, last := ops[..|ops| - 1], ops[|ops| - 1];
      assert ops == front + [last];
      RunSnoc(s, front, last, id, cap);
      EntryWithinWindow(s, front, id, cap);
      HeldForWindow(s, ops, id, cap - 1, cap);
    }
  }

  /** Within the window a completed command always returns its stored reply, and an uncompleted one reports in-flight. */
  lemma AnswerWithinWindow(before: seq<Op>, between: seq<Op>, id: string, cap: nat)
    requires cap > 0 && Succeeds(Run(EMPTY, before, cap), TryReserve(id))
    requires Others(Step(Run(EMPTY, before, cap), TryReserve(id), cap), between, id, cap) < cap
    ensures var s := Step(Run(EMPTY, before, cap), TryReserve(id), cap);
            Answered(Run(s, between, cap), id) ==
            match LastReply(between, id) { case None => InFlight case Some(reply) => Cached(reply) }
  {
    RunKeeps(EMPTY, before, cap);
    var s0 := Run(EMPTY, before, cap);
    StepKeeps(s0, TryReserve(id), cap);
    FreshlyReserved(s0, id, cap);
    EntryWithinWindow(Step(s0, TryReserve(id), cap), between, id, cap);
  }

  // ---- How many entries are held ----

  /** Nothing is held that is not also queued for eviction. */
  ghost predicate Tight(s: State) {
    forall id :: id in s.entries ==> id in s.keys
  }

  /** Every reply along a history arrives while its id is still reserved. */
  predicate Punctual(s: State, ops: seq<Op>, cap: nat)
    requires cap > 0
    decreases |ops|
  {
    ops == [] || ((ops[0].Complete? ==> ops[0].id in s.entries) && Punctual(Step(s, ops[0], cap), ops[1..], cap))
  }

  /** An entry that is no longer queued is never evicted. */
  lemma {:induction false} LeakedForever(s: State, ops: seq<Op>, id: string, cap: nat)
    requires Inv(s, cap) && cap > 0 && id in s.entries && id !in s.keys
    ensures id in Run(s, ops, cap).entries && id !in Run(s, ops, cap).keys
    decreases |ops|
  {
    if ops != [] {
      StepKeeps(s, ops[0], cap);
      LeakedForever(Step(s, ops[0], cap), ops[1..], id, cap);
    }
  }

  lemma TightStep(s: State, op: Op, cap: nat)
    requires Inv(s, cap) && cap > 0 && Tight(s) && (op.Complete? ==> op.id in s.entries)
    ensures Tight(Step(s, op, cap))
  {
    if Succeeds(s, op) && |s.keys| >= cap {
      assert s.keys == [s.keys[0]] + s.keys[1..];
    }
  }

  /** A reply that comes after its reservation was evicted leaves an entry for good, and nothing else does. */
  lemma {:induction false} TightIff(s: State, ops: seq<Op>, cap: nat)
    requires Inv(s, cap) && cap > 0 && Tight(s)
    ensures Tight(Run(s, ops, cap)) <==> Punctual(s, ops, cap)
    decreases |ops|
  {
    if ops != [] {
      var t := Step(s, ops[0], cap);
      StepKeeps(s, ops[0], cap);
      if ops[0].Complete? && ops[0].id !in s.entries {
        LeakedForever(t, ops[1..], ops[0].id, cap);
      } else {
        TightStep(s, ops[0], cap);
        TightIff(t, ops[1..], cap);
      }
    }
  }

  lemma {:induction false} HeldWithin(held: set<string>, keys: seq<string>)
    requires forall id :: id in held ==> id in keys
    ensures |held| <= |keys|
    decreases |keys|
  {
    if keys == [] {
      assert held == {};
    } else {
      assert keys == [keys[0]] + keys[1..];
      HeldWithin(held - {keys[0]}, keys[1..]);
      WithoutOne(held, keys[0]);
    }
  }

  lemma WithoutOne(held: set<string>, k: string)
    ensures |held| <= |held - {k}| + 1
  {
    if k in held {
      assert held == (held - {k}) + {k};
    } else {
      assert held == held - {k};
    }
  }

  /** Over every history from the start with punctual replies at most cap entries are held. */
  lemma PunctualIsBounded(ops: seq<Op>, cap: nat)
    requires cap > 0 && Punctual(EMPTY, ops, cap)
    ensures |Run(EMPTY, ops, cap).entries| <= cap
  {
    RunKeeps(EMPTY, ops, cap);
    TightIff(EMPTY, ops, cap);
    var s := Run(EMPTY, ops, cap);
    HeldWithin(s.entries.Keys, s.keys);
    assert |s.entries| == |s.entries.Keys|;
  }

  lemma {:induction false} RunConcat(s: State, a: seq<Op>, b: seq<Op>, cap: nat)
    requires cap > 0
    ensures Run(s, a + b, cap) == Run(Run(s, a, cap), b, cap)
    ensures Punctual(s, a + b, cap) <==> Punctual(s, a, cap) && Punctual(Run(s, a, cap), b, cap)
    decreases |a|
  {
    if a == [] {
      assert a + b == b;
    } else {
      assert (a + b)[1..] == a[1..] + b;
      RunConcat(Step(s, a[0], cap), a[1..], b, cap);
    }
  }

  predicate ReservesOnly(ops: seq<Op>) {
    forall i :: 0 <= i < |ops| ==> ops[i].TryReserve?
  }

  lemma {:induction false} ReservesArePunctual(s: State, ops: seq<Op>, cap: nat)
    requires cap > 0 && ReservesOnly(ops)
    ensures Punctual(s, ops, cap)
    decreases |ops|
  {
    if ops != [] {
      ReservesArePunctual(Step(s, ops[0], cap), ops[1..], cap);
    }
  }

  /** The id of length n, and the histories that reserve or complete the ids of lengths from..from+count. */
  function Name(n: nat): (id: string)
    ensures |id| == n
  {
    seq(n, _ => 'x')
  }

  function Reserves(from: nat, count: nat): (ops: seq<Op>)
    ensures |ops| == count && ReservesOnly(ops)
    decreases count
  {
    if count == 0 then [] else [TryReserve(Name(from))] + Reserves(from + 1, count - 1)
  }

  function Completes(from: nat, count: nat, reply: WriteReply): seq<Op>
    decreases count
  {
    if count == 0 then [] else [Complete(Name(from), reply)] + Completes(from + 1, count - 1, reply)
  }

  predicate AllSucceed(s: State, ops: seq<Op>, cap: nat)
    requires cap > 0
    decreases |ops|
  {
    ops == [] || (Succeeds(s, ops[0]) && AllSucceed(Step(s, ops[0], cap), ops[1..], cap))
  }

  ghost predicate ShorterThan(s: State, n: nat) {
    forall id :: id in s.entries ==> |id| < n
  }

  /** Reserving fresh ids one after another always succeeds and fills the queue. */
  lemma {:induction false} FillUp(s: State, from: nat, count: nat, cap: nat)
    requires Inv(s, cap) && cap > 0 && ShorterThan(s, from)
    ensures var t := Run(s, Reserves(from, count), cap);
            Inv(t, cap) && |t.keys| == Min(cap, |s.keys| + count) && AllSucceed(s, Reserves(from, count), cap)
    decreases count
  {
    if count > 0 {
      var t := Step(s, TryReserve(Name(from)), cap);
      StepKeeps(s, TryReserve(Name(from)), cap);
      assert Reserves(from, count)[1..] == Reserves(from + 1, count - 1);
      FillUp(t, from + 1, count - 1, cap);
    }
  }

  lemma {:induction false} SomeLength(ids: set<string>) returns (n: nat)
    ensures forall id :: id in ids ==> |id| < n
  {
    n := 0;
    if ids != {} {
      var id :| id in ids;
      n := SomeLength(ids - {id});
      n := Max(n, |id| + 1);
    }
  }

  lemma {:induction false} HeldAtLeast(held: set<string>, keys: seq<string>)
    requires Distinct(keys) && forall i :: 0 <= i < |keys| ==> keys[i] in held
    ensures |held| >= |keys|
    decreases |keys|
  {
    if keys != [] {
      var k := keys[0];
      HeldAtLeast(held - {k}, keys[1..]);
      assert held == (held - {k}) + {k};
    }
  }

  /** After a late reply, cap fresh reservations hold more than cap entries. */
  lemma LateReplyOverflows(ops: seq<Op>, cap: nat) returns (more: seq<Op>)
    requires cap > 0 && !Punctual(EMPTY, ops, cap)
    ensures ReservesOnly(more) && |Run(EMPTY, ops + more, cap).entries| > cap
  {
    var s := Run(EMPTY, ops, cap);
    RunKeeps(EMPTY, ops, cap);
    TightIff(EMPTY, ops, cap);
    var id :| id in s.entries && id !in s.keys;
    var n := SomeLength(s.entries.Keys);
    more := Reserves(n, cap);
    FillUp(s, n, cap, cap);
    LeakedForever(s, more, id, cap);
    RunConcat(EMPTY, ops, more, cap);
    var t := Run(s, more, cap);
    HeldAtLeast(t.entries.Keys, t.keys + [id]);
    assert |t.entries| == |t.entries.Keys|;
  }

  /** The size bound, exactly: every reply came in time if and only if no further reservations hold more than cap entries. */
  lemma BoundedIff(ops: seq<Op>, cap: nat)
    requires cap > 0
    ensures Punctual(EMPTY, ops, cap) <==>
            forall more :: ReservesOnly(more) ==> |Run(EMPTY, ops + more, cap).entries| <= cap
  {
    if Punctual(EMPTY, ops, cap) {
      forall more | ReservesOnly(more)
        ensures |Run(EMPTY, ops + more, cap).entries| <= cap
      {
        RunConcat(EMPTY, ops, more, cap);
        ReservesArePunctual(Run(EMPTY, ops, cap), more, cap);
        PunctualIsBounded(ops + more, cap);
      }
    } else {
      var more := LateReplyOverflows(ops, cap);
    }
  }

  /** The smallest overflow: with room for one id, a reply to the first after the second was reserved. */
  lemma TwoHeldInRoomForOne(reply: WriteReply)
    ensures Run(EMPTY, [TryReserve("a"), TryReserve("b"), Complete("a", reply)], 1).entries == map["a" := Some(reply), "b" := None]
  {
    var s1 := Step(EMPTY, TryReserve("a"), 1);
    var s2 := Step(s1, TryReserve("b"), 1);
    var s3 := Step(s2, Complete("a", reply), 1);
    assert s2.entries == map["b" := None];
    var last := [Complete("a", reply)];
    assert last[1..] == [] && Run(s2, last, 1) == s3;
    assert [TryReserve("b"), Complete("a", reply)][1..] == last;
    assert [TryReserve("a"), TryReserve("b"), Complete("a", reply)][1..] == [TryReserve("b"), Complete("a", reply)];
  }

  lemma {:induction false} CompletesHold(s: State, from: nat, count: nat, reply: WriteReply, cap: nat)
    requires cap > 0
    ensures forall id :: id in s.entries ==> id in Run(s, Completes(from, count, reply), cap).entries
    ensures forall i :: from <= i < from + count ==> Name(i) in Run(s, Completes(from, count, reply), cap).entries
    decreases count
  {
    if count > 0 {
      assert Completes(from, count, reply)[1..] == Completes(from + 1, count - 1, reply);
      CompletesHold(Step(s, Complete(Name(from), reply), cap), from + 1, count - 1, reply, cap);
    }
  }

  /** There is no bound at all: n + 1 ids, each reserved successfully and then answered once, are all held. */
  lemma NoBound(n: nat, reply: WriteReply, cap: nat)
    requires cap > 0
    ensures AllSucceed(EMPTY, Reserves(1, n + 1), cap)
    ensures |Run(EMPTY, Reserves(1, n + 1) + Completes(1, n + 1, reply), cap).entries| > n
  {
    FillUp(EMPTY, 1, n + 1, cap);
    var s := Run(EMPTY, Reserves(1, n + 1), cap);
    RunConcat(EMPTY, Reserves(1, n + 1), Completes(1, n + 1, reply), cap);
    CompletesHold(s, 1, n + 1, reply, cap);
    var t := Run(s, Completes(1, n + 1, reply), cap);
    var names := seq(n + 1, i requires 0 <= i < n + 1 => Name(i + 1));
    assert forall i :: 0 <= i < n + 1 ==> |names[i]| == i + 1 && names[i] in t.entries;
    HeldAtLeast(t.entries.Keys, names);
    assert |t.entries| == |t.entries.Keys|;
  }
}
