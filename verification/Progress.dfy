/**
 The clock gateway is never stuck: from every state it can get into without a shutdown
 request, some continuation reopens admission with an active producer, and some continuation
 makes any published event durable and acknowledges it. Nothing says that the continuation
 is taken.
 */
module GatewayProgress {
  import opened Prelude
  import opened Gateway

  ghost predicate CanReach(s: State, t: State) {
    exists steps :: Runs(s, steps) && Exec(s, steps) == t
  }

  lemma {:induction false} RunSnoc(s: State, steps: seq<Step>, next: Step)
    requires Runs(s, steps) && Enabled(Exec(s, steps), next)
    ensures Runs(s, steps + [next]) && Exec(s, steps + [next]) == Next(Exec(s, steps), next)
    decreases |steps|
  {
    if steps == [] {
      assert steps + [next] == [next];
    } else {
      assert (steps + [next])[1..] == steps[1..] + [next];
      RunSnoc(Next(s, steps[0]), steps[1..], next);
    }
  }

  lemma ReachSelf(s: State)
    ensures CanReach(s, s)
  {
    assert Runs(s, []) && Exec(s, []) == s;
  }

  /** One more step, which keeps the invariant. */
  lemma ReachStep(s: State, t: State, step: Step)
    requires CanReach(s, t) && Inv(t) && Enabled(t, step)
    ensures CanReach(s, Next(t, step)) && Inv(Next(t, step))
  {
    var steps :| Runs(s, steps) && Exec(s, steps) == t;
    RunSnoc(s, steps, step);
    StepKeeps(t, step);
  }

  // ---- Reopening ----

  /** Whatever the controller is at, it can give it up. */
  lemma CanBeFree(s: State) returns (t: State)
    requires Inv(s) && !s.stopping
    ensures CanReach(s, t) && Inv(t) && !t.stopping && ControllerFree(t) && t.events == s.events
  {
    ReachSelf(s);
    t := s;
    if s.drain != NoDrain {
      ReachStep(s, s, DrainFails);
      t := Next(s, DrainFails);
    } else if s.phase == Holding || s.phase == Quiescing {
      ReachStep(s, s, HoldFails);
      t := Next(s, HoldFails);
    } else if s.phase == Resuming || s.phase == Confirmed {
      ReachStep(s, s, ResumeFails);
      t := Next(s, ResumeFails);
    }
  }

  /** Behind the closed gate the commands in flight can end. */
  lemma {:induction false} CommandsCanEnd(s: State, t: State) returns (u: State)
    requires CanReach(s, t) && Inv(t)
    ensures CanReach(s, u) && Inv(u) && u == t.(commands := 0)
    decreases t.commands
  {
    u := t;
    if t.commands > 0 {
      ReachStep(s, t, ExitCommand);
      u := CommandsCanEnd(s, Next(t, ExitCommand));
    }
  }

  /** Nothing in flight need keep a Hold waiting. */
  lemma CanBeIdle(s: State) returns (t: State)
    requires Inv(s) && !s.stopping
    ensures CanReach(s, t) && Inv(t) && !t.stopping && t.phase == Holding && t.held && t.drain == NoDrain
    ensures t.commands == 0 && !t.worker.Processing?
  {
    t := CanBeFree(s);
    ReachStep(s, t, BeginHold);
    t := CommandsCanEnd(s, Next(t, BeginHold));
    if t.worker.Processing? {
      ReachStep(s, t, Abandon);
      t := Next(t, Abandon);
    }
  }

  /** A Hold can return, with the old producer stopped. */
  lemma CanBeQuiet(s: State) returns (t: State)
    requires Inv(s) && !s.stopping
    ensures CanReach(s, t) && Inv(t) && !t.stopping && t.phase == Quiet && t.drain == NoDrain
    ensures !t.started && t.discovered && !t.worker.Processing?
  {
    t := CanBeIdle(s);
    ReachStep(s, t, StopProducer);
    t := Next(t, StopProducer);
    ReachStep(s, t, HoldReturns);
    t := Next(t, HoldReturns);
  }

  /** Requests of earlier processes are skipped. */
  lemma {:induction false} StaleAreSkipped(s: State, t: State) returns (u: State)
    requires CanReach(s, t) && Inv(t) && t.producer.alive && t.producer.handling == None && t.producer.inbox != []
    requires forall i :: 0 <= i < |t.producer.inbox| - 1 ==> t.producer.inbox[i].session != t.producer.session
    ensures CanReach(s, u) && Inv(u) && u == t.(producer := t.producer.(inbox := [t.producer.inbox[|t.producer.inbox| - 1]]))
    decreases |t.producer.inbox|
  {
    u := t;
    if |t.producer.inbox| > 1 {
      ReachStep(s, t, TakeControl);
      u := StaleAreSkipped(s, Next(t, TakeControl));
    } else {
      assert t.producer.inbox == [t.producer.inbox[0]];
    }
  }

  /** A new producer is started and asked to resume. */
  lemma CanBeAsked(s: State, t: State) returns (u: State)
    requires CanReach(s, t) && Inv(t) && !t.stopping && t.phase == Quiet && t.drain == NoDrain && !t.started && t.discovered
    ensures CanReach(s, u) && Inv(u) && !u.stopping && u.phase == Resuming && u.drain == NoDrain && u.worker == t.worker
    ensures var p := u.producer;
            && p.alive && p.lock == Free && p.handling == None && p.inbox == [Control(Resume, p.session, u.attempts)]
  {
    ReachStep(s, t, StartProducer(true));
    u := Next(t, StartProducer(true));
    assert forall i :: 0 <= i < |u.producer.inbox| ==> u.producer.inbox[i].session < u.producer.session;
    ReachStep(s, u, SendResume);
    u := StaleAreSkipped(s, Next(u, SendResume));
  }

  /** From every state without a shutdown request, admission can reopen with an active producer. */
  lemma CanReopen(s: State) returns (t: State)
    requires Inv(s) && !s.stopping
    ensures CanReach(s, t) && Inv(t) && !t.stopping && !t.held && t.producer.alive && t.producer.active && !t.worker.Processing?
  {
    t := CanBeQuiet(s);
    t := CanBeAsked(s, t);
    ReachStep(s, t, TakeControl);
    t := Next(t, TakeControl);
    ReachStep(s, t, FinishControl);
    t := Next(t, FinishControl);
    ReachStep(s, t, ResumeAnswered);
    t := Next(t, ResumeAnswered);
    ReachStep(s, t, ResumeReturns);
    t := Next(t, ResumeReturns);
  }

  // ---- Settling an event ----

  /** Buffered or quarantined, an event in processing can be acknowledged. */
  lemma EitherOutcomeSettles(s: State, t: State, quarantine: bool) returns (u: State)
    requires CanReach(s, t) && Inv(t) && t.worker.Processing?
    ensures CanReach(s, u) && t.worker.event in u.events.done
    ensures t.worker.event in if quarantine then u.events.quarantined else u.events.buffered
  {
    var step := if quarantine then Quarantine else Buffer;
    ReachStep(s, t, step);
    u := Next(t, step);
    ReachStep(s, u, AckDone);
    u := Next(u, AckDone);
  }

  lemma {:induction false} PublishedGrows(s: State, steps: seq<Step>)
    requires Runs(s, steps)
    ensures s.events.published <= Exec(s, steps).events.published
    decreases |steps|
  {
    if steps != [] {
      assert s.events.published <= Next(s, steps[0]).events.published;
      PublishedGrows(Next(s, steps[0]), steps[1..]);
    }
  }

  /** With admission open, the worker can put down what it holds and the stream offer any event that is not done. */
  lemma CanBeOffered(s: State, t: State, e: nat) returns (u: State)
    requires CanReach(s, t) && Inv(t) && !t.held && t.worker == Idle && e in t.events.pending + t.events.delivered
    ensures CanReach(s, u) && Inv(u) && !u.held && u.worker == Idle && e in u.events.pending
  {
    u := t;
    if e in t.events.delivered {
      ReachStep(s, t, Redeliver(e));
      u := Next(t, Redeliver(e));
    }
  }

  lemma CanPutDown(s: State, t: State) returns (u: State)
    requires CanReach(s, t) && Inv(t) && !t.held && t.worker.Fetched?
    ensures CanReach(s, u) && Inv(u) && !u.held && u.worker == Idle
    ensures u.events.pending + u.events.delivered == t.events.pending + t.events.delivered
  {
    ReachStep(s, t, BeginProcess);
    u := Next(t, BeginProcess);
    ReachStep(s, u, Abandon);
    u := Next(u, Abandon);
  }

  lemma CanBeTaken(s: State, t: State, e: nat) returns (u: State)
    requires CanReach(s, t) && Inv(t) && !t.held && !t.worker.Processing? && e in t.events.pending + t.events.delivered
    ensures CanReach(s, u) && Inv(u) && u.worker == Processing(e)
  {
    u := t;
    if t.worker.Fetched? {
      u := CanPutDown(s, t);
    }
    u := CanBeOffered(s, u, e);
    ReachStep(s, u, FetchEvent(e));
    u := Next(u, FetchEvent(e));
    ReachStep(s, u, BeginProcess);
    u := Next(u, BeginProcess);
  }

  /** In every state without a shutdown request, every event published so far is done and durable or can still become so. */
  lemma NoEventIsStranded(s0: State, before: seq<Step>, e: nat)
    requires Initial(s0) && Runs(s0, before)
    requires var s := Exec(s0, before); !s.stopping && e in s.events.published
    ensures exists t :: CanReach(Exec(s0, before), t) && e in t.events.done && e in t.events.buffered + t.events.quarantined
  {
    var s := Exec(s0, before);
    RunKeeps(s0, before);
    var t := CanReopen(s);
    var steps :| Runs(s, steps) && Exec(s, steps) == t;
    PublishedGrows(s, steps);
    if e !in t.events.done {
      var u := CanBeTaken(s, t, e);
      var v := EitherOutcomeSettles(s, u, false);
    }
  }

  /** From every state of every run without a shutdown request, admission can reopen with an active producer. */
  lemma NeverStuck(s0: State, before: seq<Step>)
    requires Initial(s0) && Runs(s0, before) && !Exec(s0, before).stopping
    ensures exists t :: CanReach(Exec(s0, before), t) && !t.held && t.producer.alive && t.producer.active
  {
    RunKeeps(s0, before);
    var t := CanReopen(Exec(s0, before));
  }
}
