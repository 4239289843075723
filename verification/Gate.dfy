/**
 What the clock controller relies on the admission gate for (the Admission interface of
 internal/clocksync/runtime.go), stated on what an operation finds and what it leaves.
 */
module AdmissionGate {

  /** The gate as the controller sees it: open or not, and how many published events are not durable yet. */
  datatype GateView = GateView(open: bool, stopping: bool, running: bool, outstanding: nat)

  /** Hold closes the gate whether or not it succeeds, starts nothing, and adds nothing behind a stopped producer. */
  ghost predicate HoldContract(before: GateView, after: GateView) {
    && !after.open && (after.running ==> before.running) && (before.stopping ==> after.stopping)
    && (!before.running && before.outstanding == 0 ==> after.outstanding == 0)
  }

  /** Drain behind a closed gate and a stopped producer only ever makes events durable, and on success all of them. */
  ghost predicate DrainContract(before: GateView, after: GateView, ok: bool) {
    && !after.open && !after.running && (before.stopping ==> after.stopping)
    && after.outstanding <= before.outstanding && (ok ==> after.outstanding == 0)
  }

  /** Resume opens on success unless a shutdown was requested, and leaves the gate closed on failure. */
  ghost predicate ResumeContract(before: GateView, after: GateView, ok: bool) {
    (if ok then after.open <==> !after.stopping else !after.open) && (before.stopping ==> after.stopping)
  }
}

/** The gateway's own Hold, Drain and Resume, interleaved with everything else, keep those contracts. */
module GatewayHonours {
  import opened AdmissionGate
  import opened Gateway

  /** Published events that are neither buffered nor quarantined. */
  ghost function Outstanding(s: State): set<nat> {
    s.events.published - (s.events.buffered + s.events.quarantined)
  }

  ghost function Seen(s: State): GateView {
    GateView(!s.held, s.stopping, s.producer.alive, |Outstanding(s)|)
  }

  /** From t on the controller is busy until the last step leaves it free. */
  ghost predicate BusyUntilEnd(t: State, rest: seq<Step>)
    requires Runs(t, rest)
    decreases |rest|
  {
    if rest == [] then ControllerFree(t) else !ControllerFree(t) && BusyUntilEnd(Next(t, rest[0]), rest[1..])
  }

  /** One operation of the controller, with whatever else happens while it runs. */
  ghost predicate Operation(s: State, steps: seq<Step>, first: Step) {
    && steps != [] && steps[0] == first && Runs(s, steps) && BusyUntilEnd(Next(s, first), steps[1..])
  }

  /** A busy controller starts no producer, and without one nothing is published. */
  lemma BusyStep(s: State, step: Step)
    requires Enabled(s, step) && !ControllerFree(s)
    ensures var t := Next(s, step);
            && (s.stopping ==> t.stopping) && (t.producer.alive ==> s.producer.alive)
            && (!s.producer.alive ==> Outstanding(t) <= Outstanding(s))
  {
    var t := Next(s, step);
    assert s.events.buffered <= t.events.buffered && s.events.quarantined <= t.events.quarantined;
    assert step.Publish? || t.events.published == s.events.published;
  }

  lemma FewerOutstanding(s: State, t: State)
    requires Outstanding(t) <= Outstanding(s)
    ensures |Outstanding(t)| <= |Outstanding(s)|
  {
    var more := Outstanding(s) - Outstanding(t);
    assert Outstanding(s) == Outstanding(t) + more;
  }

  lemma {:induction false} BusyRun(s: State, rest: seq<Step>)
    requires Runs(s, rest) && BusyUntilEnd(s, rest)
    ensures var t := Exec(s, rest);
            && (s.stopping ==> t.stopping) && (t.producer.alive ==> s.producer.alive)
            && (!s.producer.alive ==> Outstanding(t) <= Outstanding(s))
    decreases |rest|
  {
    if rest != [] {
      BusyStep(s, rest[0]);
      BusyRun(Next(s, rest[0]), rest[1..]);
    }
  }

  predicate InHold(s: State) {
    s.held && s.drain == NoDrain && (s.phase == Holding || s.phase == Quiescing)
  }

  lemma HoldStep(s: State, step: Step)
    requires Enabled(s, step) && InHold(s)
    ensures var t := Next(s, step); InHold(t) || (t.held && t.drain == NoDrain && (t.phase == Quiet || t.phase == Closed))
  {
  }

  lemma {:induction false} HoldRun(s: State, rest: seq<Step>)
    requires Runs(s, rest) && BusyUntilEnd(s, rest)
    requires InHold(s) || (rest == [] && s.held && (s.phase == Quiet || s.phase == Closed))
    ensures var t := Exec(s, rest); t.held && (t.phase == Quiet || t.phase == Closed)
    decreases |rest|
  {
    if rest != [] {
      HoldStep(s, rest[0]);
      HoldRun(Next(s, rest[0]), rest[1..]);
    }
  }

  /** Hold, in every interleaving. */
  lemma HoldHonoured(s: State, steps: seq<Step>)
    requires Operation(s, steps, BeginHold)
    ensures HoldContract(Seen(s), Seen(Exec(s, steps)))
  {
    var t := Next(s, BeginHold);
    BusyRun(t, steps[1..]);
    HoldRun(t, steps[1..]);
    if !s.producer.alive {
      FewerOutstanding(s, Exec(t, steps[1..]));
    }
  }

  predicate InDrain(s: State) {
    s.held && s.drain != NoDrain
  }

  /** A busy drain ends by returning, with the stream and the worker empty, or by failing. */
  lemma DrainStep(s: State, step: Step)
    requires Inv(s) && Enabled(s, step) && InDrain(s)
    ensures var t := Next(s, step);
            && t.held && (t.drain == NoDrain <==> step.DrainReturns? || step.DrainFails?)
            && (step.DrainReturns? ==> Outstanding(t) == {})
  {
  }

  lemma {:induction false} DrainRun(s: State, rest: seq<Step>)
    requires Inv(s) && Runs(s, rest) && BusyUntilEnd(s, rest) && InDrain(s) && !s.producer.alive
    ensures rest != [] && Exec(s, rest).held && !Exec(s, rest).producer.alive
    ensures rest[|rest| - 1].DrainReturns? ==> Outstanding(Exec(s, rest)) == {}
    decreases |rest|
  {
    var t := Next(s, rest[0]);
    StepKeeps(s, rest[0]);
    DrainStep(s, rest[0]);
    BusyStep(s, rest[0]);
    if rest[1..] != [] {
      DrainRun(t, rest[1..]);
    }
  }

  /** Drain, in every interleaving; it succeeded if its last step is its return. */
  lemma DrainHonoured(s: State, steps: seq<Step>)
    requires Inv(s) && Operation(s, steps, BeginDrain)
    ensures DrainContract(Seen(s), Seen(Exec(s, steps)), steps[|steps| - 1].DrainReturns?)
  {
    var t := Next(s, BeginDrain);
    StepKeeps(s, BeginDrain);
    BusyRun(t, steps[1..]);
    DrainRun(t, steps[1..]);
    FewerOutstanding(s, Exec(t, steps[1..]));
  }

  predicate InResume(s: State) {
    s.held && s.drain == NoDrain && (s.phase == Resuming || s.phase == Confirmed)
  }

  lemma ResumeStep(s: State, step: Step)
    requires Enabled(s, step) && InResume(s)
    ensures var t := Next(s, step);
            if step.ResumeReturns? then !t.held && !t.stopping && ControllerFree(t)
            else t.held && (if step.ResumeFails? then ControllerFree(t) else InResume(t))
  {
  }

  lemma {:induction false} ResumeRun(s: State, rest: seq<Step>)
    requires Runs(s, rest) && BusyUntilEnd(s, rest) && InResume(s)
    ensures rest != []
    ensures var t := Exec(s, rest); if rest[|rest| - 1].ResumeReturns? then !t.held && !t.stopping else t.held
    decreases |rest|
  {
    ResumeStep(s, rest[0]);
    if rest[1..] != [] {
      ResumeRun(Next(s, rest[0]), rest[1..]);
    }
  }

  /** Resume, in every interleaving, a shutdown request included; it succeeded if its last step is its return. */
  lemma ResumeHonoured(s: State, steps: seq<Step>)
    requires Inv(s) && Operation(s, steps, SendResume) && s.phase == Quiet
    ensures ResumeContract(Seen(s), Seen(Exec(s, steps)), steps[|steps| - 1].ResumeReturns?)
  {
    var t := Next(s, SendResume);
    BusyRun(t, steps[1..]);
    ResumeRun(t, steps[1..]);
  }
}
