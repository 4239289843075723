/**
 The admission gate of the clock gateway under concurrency (internal/clocksync/gateway.go
 with connector/bacnet/bacnet_connector/managed.py): commands, the event worker, the
 controller's Hold, Drain and Resume, a shutdown request, and the producer with its lock and
 its control requests, all interleaved step by step. Control requests reach the producer in
 the order they were sent and are handled one at a time; any of them may time out.
 */
module Gateway {
  import opened Prelude

  datatype Action = Quiesce | Resume | Status

  datatype Control = Control(action: Action, session: nat, attempt: nat)

  datatype Lock = Free | Polling | Writing

  datatype Answer = Answer(to: Control, paused: bool)

  /** One producer process: its admission flag, its lock, and the control request in hand. */
  datatype Producer = Producer(
    alive: bool, session: nat, active: bool, lock: Lock,
    inbox: seq<Control>, handling: Option<Control>, answer: Option<Answer>)

  /** Where the controller stands. Quiet runs from Hold returning nil until a resume request is sent. */
  datatype Phase = Open | Closed | Holding | Quiescing | Quiet | Resuming | Confirmed

  datatype Worker = Idle | Fetched(event: nat) | Processing(event: nat)

  datatype Drain = NoDrain | Draining | SawEmpty

  /** Where each published event is: the stream's view, and what the gateway made durable. */
  datatype Events = Events(
    published: set<nat>, pending: set<nat>, delivered: set<nat>, done: set<nat>,
    buffered: set<nat>, quarantined: set<nat>)

  datatype State = State(
    held: bool, stopping: bool, commands: nat, phase: Phase, discovered: bool, started: bool, attempts: nat,
    producer: Producer, worker: Worker, drain: Drain, events: Events)

  /** Admission of telemetry processing: open, or draining behind the gate. */
  predicate Allowed(s: State) {
    !s.held || s.drain != NoDrain
  }

  /** The controller runs one operation at a time. */
  predicate ControllerFree(s: State) {
    s.drain == NoDrain && (s.phase == Open || s.phase == Closed || s.phase == Quiet)
  }

  // ---- Steps ----

  datatype Step =
    // commands
    | EnterCommand | ExitCommand
    // worker
    | FetchEvent(e: nat) | BeginProcess | NakFetched
    | Buffer | Quarantine | AckDone | Abandon | Redeliver(e: nat)
    // producer
    | BeginPoll | Publish(e: nat) | BeginWrite | EndLocked | TakeControl | FinishControl | ProducerDies
    // controller
    | BeginHold | HoldIdle | HoldReturns | HoldFails | SendQuiesce | SendStatus
    | StopProducer | StartProducer(alive: bool)
    | SendResume | ResumeAnswered | ResumeReturns | ResumeFails
    | BeginDrain | DrainSeesEmpty | DrainReturns | DrainFails
    | RequestStop

  /** An answer reaches the controller only if it answers the attempt it is waiting for. */
  predicate Answered(s: State, action: Action) {
    s.producer.alive && s.producer.answer.Some? && s.producer.answer.value.to.attempt == s.attempts
    && s.producer.answer.value.to.action == action && s.producer.answer.value.to.session == s.producer.session
  }

  predicate Enabled(s: State, step: Step) {
    var p, ev := s.producer, s.events;
    match step
    case EnterCommand => !s.held
    case ExitCommand => s.commands > 0
    case FetchEvent(e) => s.worker == Idle && e in ev.pending
    case BeginProcess => s.worker.Fetched? && Allowed(s)
    case NakFetched => s.worker.Fetched? && !Allowed(s)
    case Buffer => s.worker.Processing?
    case Quarantine => s.worker.Processing?
    case AckDone => s.worker.Processing? && (s.worker.event in ev.buffered || s.worker.event in ev.quarantined)
    case Abandon => s.worker.Processing?
    case Redeliver(e) => e in ev.delivered
    case BeginPoll => p.alive && p.lock == Free && p.active
    case Publish(e) => p.alive && p.lock == Polling && e !in ev.published
    case BeginWrite => p.alive && p.lock == Free && p.active
    case EndLocked => p.alive && p.lock != Free
    case TakeControl => p.alive && p.handling == None && p.inbox != []
    case FinishControl => p.alive && p.handling.Some? && (p.lock == Free || p.handling.value.action == Status)
    case ProducerDies => p.alive
    case BeginHold => ControllerFree(s)
    case HoldIdle => s.phase == Holding && s.worker.Processing? == false && s.commands == 0 && s.discovered && s.started
    case HoldReturns =>
      || (s.phase == Holding && s.worker.Processing? == false && s.commands == 0 && s.discovered && !s.started)
      || (s.phase == Quiescing && Answered(s, Quiesce) && s.producer.answer.value.paused)
    case HoldFails => s.phase == Holding || s.phase == Quiescing
    case SendQuiesce => s.phase == Quiescing
    case SendStatus => s.phase == Quiet && ControllerFree(s)
    case StopProducer => s.held && (ControllerFree(s) || s.phase == Holding || s.phase == Quiescing)
    case StartProducer(_) => s.phase == Quiet && ControllerFree(s) && s.discovered && !s.started && !s.stopping
    case SendResume => ((s.phase == Quiet && ControllerFree(s)) || s.phase == Resuming) && !s.stopping
    case ResumeAnswered => s.phase == Resuming && Answered(s, Resume) && !s.producer.answer.value.paused && !s.stopping
    case ResumeReturns => s.phase == Confirmed && !s.stopping
    case ResumeFails => s.phase == Resuming || s.phase == Confirmed
    case BeginDrain => ControllerFree(s) && s.held && s.discovered && !s.started
    case DrainSeesEmpty => s.drain == Draining && ev.pending == {} && ev.delivered == {}
    case DrainReturns => s.drain == SawEmpty && !s.worker.Processing?
    case DrainFails => s.drain != NoDrain
    case RequestStop => true
  }

  function Sent(s: State, action: Action): State {
    s.(attempts := s.attempts + 1, producer := Queued(s.producer, action, s.attempts + 1))
  }

  function Queued(p: Producer, action: Action, attempt: nat): Producer {
    p.(inbox := p.inbox + [Control(action, p.session, attempt)])
  }

  /** Closing first, then waiting: a quiesce request lowers the flag the moment it is taken. */
  function Taken(p: Producer): Producer
    requires p.inbox != []
  {
    var c := p.inbox[0];
    if c.session != p.session then p.(inbox := p.inbox[1..])
    else p.(inbox := p.inbox[1..], handling := Some(c), active := p.active && c.action != Quiesce)
  }

  /** With the lock in hand, or without it for a status request, the request completes and its receipt tells the flag. */
  function Finished(p: Producer): Producer
    requires p.handling.Some?
  {
    var c := p.handling.value;
    var active := p.active || c.action == Resume;
    p.(handling := None, active := active, answer := Some(Answer(c, !active)))
  }

  function Dead(p: Producer): Producer {
    p.(alive := false, active := false, lock := Free, handling := None, answer := None)
  }

  function Settle(ev: Events, e: nat): Events {
    ev.(pending := ev.pending - {e}, delivered := ev.delivered - {e}, done := ev.done + {e})
  }

  function Next(s: State, step: Step): State
    requires Enabled(s, step)
  {
    var p, ev := s.producer, s.events;
    match step
    case EnterCommand => s.(commands := s.commands + 1)
    case ExitCommand => s.(commands := s.commands - 1)
    case FetchEvent(e) =>
      s.(worker := Fetched(e), events := ev.(pending := ev.pending - {e}, delivered := ev.delivered + {e}))
    case BeginProcess => s.(worker := Processing(s.worker.event))
    case NakFetched =>
      s.(worker := Idle,
         events := if s.worker.event in ev.delivered
                   then ev.(delivered := ev.delivered - {s.worker.event}, pending := ev.pending + {s.worker.event}) else ev)
    case Buffer => s.(events := ev.(buffered := ev.buffered + {s.worker.event}))
    case Quarantine => s.(events := ev.(quarantined := ev.quarantined + {s.worker.event}))
    case AckDone => s.(events := Settle(ev, s.worker.event))
    case Abandon =>
      s.(worker := Idle,
         events := if s.worker.event in ev.delivered
                   then ev.(delivered := ev.delivered - {s.worker.event}, pending := ev.pending + {s.worker.event}) else ev)
    case Redeliver(e) => s.(events := ev.(delivered := ev.delivered - {e}, pending := ev.pending + {e}))
    case BeginPoll => s.(producer := p.(lock := Polling))
    case Publish(e) => s.(events := ev.(published := ev.published + {e}, pending := ev.pending + {e}))
    case BeginWrite => s.(producer := p.(lock := Writing))
    case EndLocked => s.(producer := p.(lock := Free))
    case TakeControl => s.(producer := Taken(p))
    case FinishControl => s.(producer := Finished(p))
    case ProducerDies => s.(producer := Dead(p))
    case BeginHold => s.(held := true, phase := Holding)
    case HoldIdle => Sent(s.(phase := Quiescing), Quiesce)
    case HoldReturns => s.(phase := Quiet)
    case HoldFails => s.(phase := Closed)
    case SendQuiesce => Sent(s, Quiesce)
    case SendStatus => Sent(s, Status)
    case StopProducer =>
      s.(producer := Dead(p), started := false, discovered := true)
    case StartProducer(alive) =>
      s.(started := true,
         producer := p.(alive := alive, session := p.session + 1, active := false, lock := Free, handling := None, answer := None))
    case SendResume => Sent(s.(phase := Resuming), Resume)
    case ResumeAnswered => s.(phase := Confirmed)
    case ResumeReturns => s.(held := false, phase := Open)
    case ResumeFails => s.(phase := Closed)
    case BeginDrain => s.(drain := Draining)
    case DrainSeesEmpty => s.(drain := SawEmpty)
    case DrainReturns => s.(drain := NoDrain)
    case DrainFails => s.(drain := NoDrain)
    case RequestStop => s.(stopping := true, held := true, phase := if s.phase == Open then Closed else s.phase)
  }

  // ---- Invariant ----

  /** Requests are handled in sending order: whatever is answered was sent before whatever is in hand or queued. */
  ghost predicate OrderInv(p: Producer, attempts: nat) {
    && (forall i :: 0 <= i < |p.inbox| ==> p.inbox[i].attempt <= attempts && p.inbox[i].session <= p.session)
    && (forall i, j :: 0 <= i < j < |p.inbox| ==> p.inbox[i].attempt < p.inbox[j].attempt)
    && (p.handling.Some? ==>
          && p.handling.value.attempt <= attempts && p.handling.value.session == p.session
          && forall i :: 0 <= i < |p.inbox| ==> p.handling.value.attempt < p.inbox[i].attempt)
    && (p.answer.Some? ==>
          && p.answer.value.to.attempt <= attempts
          && (p.handling.Some? ==> p.answer.value.to.attempt < p.handling.value.attempt)
          && (p.inbox != [] ==> p.answer.value.to.attempt < p.inbox[0].attempt <= attempts)
          && forall i :: 0 <= i < |p.inbox| ==> p.answer.value.to.attempt < p.inbox[i].attempt)
  }

  /** A quiesce in hand has closed the flag; one that is the latest word keeps the producer at rest. */
  ghost predicate RestInv(p: Producer, attempts: nat) {
    && (!p.alive ==> !p.active && p.lock == Free && p.handling == None && p.answer == None)
    && (p.handling.Some? && p.handling.value.action == Quiesce ==> !p.active)
    && (p.answer.Some? && p.answer.value.to.attempt == attempts && p.answer.value.to.action == Quiesce ==>
          !p.active && p.lock == Free)
    && (p.answer.Some? && p.answer.value.to.attempt == attempts && p.answer.value.to.action == Resume ==>
          p.active && !p.answer.value.paused)
  }

  ghost predicate ProducerOk(p: Producer, attempts: nat) {
    OrderInv(p, attempts) && RestInv(p, attempts)
  }

  /** No request to resume this very process is queued or in hand. */
  ghost predicate NoResume(p: Producer) {
    && (forall i :: 0 <= i < |p.inbox| ==> !(p.inbox[i].action == Resume && p.inbox[i].session == p.session))
    && (p.handling.Some? ==> p.handling.value.action != Resume)
  }

  ghost predicate AtRest(p: Producer) {
    p.alive ==> !p.active && p.lock == Free && NoResume(p)
  }

  ghost predicate PhaseInv(s: State) {
    && (s.stopping ==> s.held)
    && (s.phase == Open <==> !s.held)
    && (s.phase == Quiescing || s.phase == Quiet || s.phase == Resuming || s.phase == Confirmed ==> s.commands == 0)
    && (s.phase == Quiet ==> AtRest(s.producer))
    && (s.discovered && !s.started ==> !s.producer.alive)
    && (s.drain != NoDrain ==> s.held && s.discovered && !s.started && (s.phase == Closed || s.phase == Quiet))
  }

  /** Acknowledged means durable; and once a drain saw an empty stream with the producer stopped, it stays empty. */
  ghost predicate EventsOk(ev: Events, worker: Worker, empty: bool) {
    && ev.published == ev.pending + ev.delivered + ev.done
    && ev.done <= ev.buffered + ev.quarantined
    && (worker.Fetched? || worker.Processing? ==> worker.event in ev.published)
    && (empty ==> ev.pending == {} && ev.delivered == {})
  }

  ghost predicate EventsInv(s: State) {
    EventsOk(s.events, s.worker, s.drain == SawEmpty)
  }

  ghost predicate Inv(s: State) {
    ProducerInv(s) && PhaseInv(s) && EventsInv(s)
  }

  // ---- Every step keeps it ----

  lemma SentKeeps(p: Producer, attempts: nat, action: Action)
    requires ProducerOk(p, attempts)
    ensures ProducerOk(Queued(p, action, attempts + 1), attempts + 1)
    ensures NoResume(p) && action != Resume ==> NoResume(Queued(p, action, attempts + 1))
  {
  }

  lemma TakenKeeps(p: Producer, attempts: nat)
    requires ProducerOk(p, attempts) && p.alive && p.handling == None && p.inbox != []
    ensures ProducerOk(Taken(p), attempts) && (AtRest(p) ==> AtRest(Taken(p)))
  {
  }

  lemma FinishedKeeps(p: Producer, attempts: nat)
    requires ProducerOk(p, attempts) && p.alive && p.handling.Some? && (p.lock == Free || p.handling.value.action == Status)
    ensures ProducerOk(Finished(p), attempts) && (AtRest(p) ==> AtRest(Finished(p)))
  {
  }

  lemma LockKeeps(p: Producer, attempts: nat, lock: Lock)
    requires ProducerOk(p, attempts) && p.alive && (lock == Free || p.active)
    ensures ProducerOk(p.(lock := lock), attempts)
  {
  }

  lemma ReplacedKeeps(p: Producer, attempts: nat, alive: bool)
    requires ProducerOk(p, attempts)
    ensures ProducerOk(Dead(p), attempts)
    ensures var q := p.(alive := alive, session := p.session + 1, active := false, lock := Free, handling := None, answer := None);
            ProducerOk(q, attempts)
  {
  }

  ghost predicate ProducerInv(s: State) {
    ProducerOk(s.producer, s.attempts)
  }

  lemma RequestsKeep(s: State, step: Step)
    requires ProducerInv(s) && Enabled(s, step)
    requires step == HoldIdle || step == SendQuiesce || step == SendStatus || step == SendResume
    ensures ProducerInv(Next(s, step))
  {
    var action := match step { case SendStatus => Status case SendResume => Resume case _ => Quiesce };
    SentKeeps(s.producer, s.attempts, action);
    assert Next(s, step).producer == Queued(s.producer, action, s.attempts + 1) && Next(s, step).attempts == s.attempts + 1;
  }

  lemma ProcessKeeps(s: State, step: Step)
    requires ProducerInv(s) && Enabled(s, step)
    requires step == ProducerDies || step == StopProducer || step.StartProducer?
    ensures ProducerInv(Next(s, step))
  {
    ReplacedKeeps(s.producer, s.attempts, step.StartProducer? && step.alive);
  }

  lemma LoopsKeep(s: State, step: Step)
    requires ProducerInv(s) && Enabled(s, step)
    requires step == BeginPoll || step == BeginWrite || step == EndLocked || step == TakeControl || step == FinishControl
    ensures ProducerInv(Next(s, step))
  {
    match step
    case BeginPoll => LockKeeps(s.producer, s.attempts, Polling);
    case BeginWrite => LockKeeps(s.producer, s.attempts, Writing);
    case EndLocked => LockKeeps(s.producer, s.attempts, Free);
    case TakeControl => TakenKeeps(s.producer, s.attempts);
    case FinishControl => FinishedKeeps(s.producer, s.attempts);
  }

  /** The producer half of the invariant. */
  lemma ProducerKeeps(s: State, step: Step)
    requires ProducerInv(s) && Enabled(s, step)
    ensures ProducerInv(Next(s, step))
  {
    if step == HoldIdle || step == SendQuiesce || step == SendStatus || step == SendResume {
      RequestsKeep(s, step);
    } else if step == ProducerDies || step == StopProducer || step.StartProducer? {
      ProcessKeeps(s, step);
    } else if step == BeginPoll || step == BeginWrite || step == EndLocked || step == TakeControl || step == FinishControl {
      LoopsKeep(s, step);
    } else {
      assert Next(s, step).producer == s.producer && Next(s, step).attempts == s.attempts;
    }
  }

  /** An answered quiesce, being the latest request, leaves nothing queued that could wake the producer. */
  lemma AnsweredIsLast(s: State, action: Action)
    requires OrderInv(s.producer, s.attempts) && Answered(s, action)
    ensures s.producer.inbox == [] && s.producer.handling == None
  {
  }

  predicate ProducerStep(step: Step) {
    step.BeginPoll? || step.BeginWrite? || step.EndLocked? || step.TakeControl? || step.FinishControl? || step.ProducerDies?
  }

  predicate RequestStep(step: Step) {
    step.HoldIdle? || step.SendQuiesce? || step.SendStatus? || step.SendResume?
  }

  predicate BarrierStep(step: Step) {
    step.BeginHold? || step.HoldReturns? || step.HoldFails? || step.StopProducer? || step.StartProducer?
  }

  predicate ReleaseStep(step: Step) {
    step.ResumeAnswered? || step.ResumeReturns? || step.ResumeFails? || step.RequestStop?
    || step.EnterCommand? || step.ExitCommand?
  }

  lemma PhaseOfProducer(s: State, step: Step)
    requires ProducerInv(s) && PhaseInv(s) && Enabled(s, step) && ProducerStep(step)
    ensures PhaseInv(Next(s, step))
  {
    match step
    case TakeControl => TakenKeeps(s.producer, s.attempts);
    case FinishControl => FinishedKeeps(s.producer, s.attempts);
    case _ =>
  }

  lemma PhaseOfRequest(s: State, step: Step)
    requires ProducerInv(s) && PhaseInv(s) && Enabled(s, step) && RequestStep(step)
    ensures PhaseInv(Next(s, step))
  {
    if step.SendStatus? {
      SentKeeps(s.producer, s.attempts, Status);
    }
  }

  lemma PhaseOfBarrier(s: State, step: Step)
    requires ProducerInv(s) && PhaseInv(s) && Enabled(s, step) && BarrierStep(step)
    ensures PhaseInv(Next(s, step))
  {
    if step.HoldReturns? && s.phase == Quiescing {
      AnsweredIsLast(s, Quiesce);
    }
  }

  lemma PhaseOfRelease(s: State, step: Step)
    requires PhaseInv(s) && Enabled(s, step) && ReleaseStep(step)
    ensures PhaseInv(Next(s, step))
  {
  }

  /** The drain, the worker and publications leave the gate, the commands, the phase and the producer alone. */
  lemma PhaseOfOthers(s: State, step: Step)
    requires PhaseInv(s) && Enabled(s, step)
    requires !ProducerStep(step) && !RequestStep(step) && !BarrierStep(step) && !ReleaseStep(step)
    ensures PhaseInv(Next(s, step))
  {
    var t := Next(s, step);
    assert t.held == s.held && t.stopping == s.stopping && t.commands == s.commands && t.phase == s.phase;
    assert t.discovered == s.discovered && t.started == s.started && t.producer == s.producer;
  }

  /** The gate, the commands in flight and the controller's phase stay consistent. */
  lemma PhaseKeeps(s: State, step: Step)
    requires ProducerInv(s) && PhaseInv(s) && Enabled(s, step)
    ensures PhaseInv(Next(s, step))
  {
    if ProducerStep(step) {
      PhaseOfProducer(s, step);
    } else if RequestStep(step) {
      PhaseOfRequest(s, step);
    } else if BarrierStep(step) {
      PhaseOfBarrier(s, step);
    } else if ReleaseStep(step) {
      PhaseOfRelease(s, step);
    } else {
      PhaseOfOthers(s, step);
    }
  }

  predicate WorkerStep(step: Step) {
    step.FetchEvent? || step.BeginProcess? || step.NakFetched? || step.Buffer? || step.Quarantine?
    || step.AckDone? || step.Abandon? || step.Redeliver?
  }

  lemma WorkerKeeps(s: State, step: Step)
    requires EventsInv(s) && Enabled(s, step) && WorkerStep(step)
    ensures EventsInv(Next(s, step))
  {
    var t := Next(s, step);
    assert t.drain == s.drain && t.events.published == s.events.published;
    assert t.events.published == t.events.pending + t.events.delivered + t.events.done;
  }

  /** Only a live producer publishes, and a drain that saw the stream empty runs behind a stopped one. */
  lemma PublishKeeps(s: State, e: nat)
    requires PhaseInv(s) && EventsInv(s) && Enabled(s, Publish(e))
    ensures EventsInv(Next(s, Publish(e)))
  {
    var t := Next(s, Publish(e));
    assert t.drain == s.drain == NoDrain && t.worker == s.worker;
    assert t.events == s.events.(published := s.events.published + {e}, pending := s.events.pending + {e});
  }

  lemma EventsKeep(s: State, step: Step)
    requires PhaseInv(s) && EventsInv(s) && Enabled(s, step)
    ensures EventsInv(Next(s, step))
  {
    if WorkerStep(step) {
      WorkerKeeps(s, step);
    } else if step.Publish? {
      PublishKeeps(s, step.e);
    } else {
      assert Next(s, step).events == s.events && Next(s, step).worker == s.worker;
    }
  }

  lemma StepKeeps(s: State, step: Step)
    requires Inv(s) && Enabled(s, step)
    ensures Inv(Next(s, step))
  {
    ProducerKeeps(s, step);
    PhaseKeeps(s, step);
    EventsKeep(s, step);
  }

  // ---- Whole runs ----

  ghost predicate Runs(s: State, steps: seq<Step>)
    decreases |steps|
  {
    steps == [] || (Enabled(s, steps[0]) && Runs(Next(s, steps[0]), steps[1..]))
  }

  ghost function Exec(s: State, steps: seq<Step>): State
    requires Runs(s, steps)
    decreases |steps|
  {
    if steps == [] then s else Exec(Next(s, steps[0]), steps[1..])
  }

  /** A fresh gateway: gate closed, nothing in flight; an instance of an earlier process may still be running. */
  ghost predicate Initial(s: State) {
    && s.held && !s.stopping && s.commands == 0 && s.phase == Closed && !s.discovered && !s.started && s.attempts == 0
    && s.worker == Idle && s.drain == NoDrain
    && s.producer.inbox == [] && s.producer.handling == None && s.producer.answer == None
    && (!s.producer.alive ==> !s.producer.active && s.producer.lock == Free)
    && s.events.published == s.events.pending + s.events.delivered + s.events.done
    && s.events.done <= s.events.buffered + s.events.quarantined
  }

  lemma {:induction false} RunKeeps(s: State, steps: seq<Step>)
    requires Inv(s) && Runs(s, steps)
    ensures Inv(Exec(s, steps))
    decreases |steps|
  {
    if steps != [] {
      StepKeeps(s, steps[0]);
      RunKeeps(Next(s, steps[0]), steps[1..]);
    }
  }

  /**
   In every interleaving: while a Hold that returned nil has not been followed by a resume
   request, no command is in flight and the producer, quiesced or freshly started, neither
   polls nor writes nor can begin to.
   */
  lemma HeldMeansQuiet(s0: State, steps: seq<Step>, next: Step)
    requires Initial(s0) && Runs(s0, steps)
    requires var s := Exec(s0, steps); s.phase == Quiet && Enabled(s, next)
    ensures var s := Exec(s0, steps);
            && s.held && s.commands == 0 && (s.producer.alive ==> s.producer.lock == Free)
            && next != EnterCommand && next != BeginPoll && next != BeginWrite && !next.Publish?
  {
    RunKeeps(s0, steps);
  }

  /** When an answer confirms a resume, the producer is active and nothing is queued that could stop it. */
  lemma ConfirmedMeansActive(s0: State, steps: seq<Step>)
    requires Initial(s0) && Runs(s0, steps) && Enabled(Exec(s0, steps), ResumeAnswered)
    ensures var p := Exec(s0, steps).producer; p.alive && p.active && p.inbox == [] && p.handling == None
  {
    RunKeeps(s0, steps);
    AnsweredIsLast(Exec(s0, steps), Resume);
  }

  /** When Drain returns nil behind a stopped producer, every event ever published is buffered or quarantined and none is being processed. */
  lemma DrainIsComplete(s0: State, steps: seq<Step>)
    requires Initial(s0) && Runs(s0, steps) && Enabled(Exec(s0, steps), DrainReturns)
    ensures var s := Exec(s0, steps);
            !s.producer.alive && !s.worker.Processing? && s.events.published <= s.events.buffered + s.events.quarantined
  {
    RunKeeps(s0, steps);
  }

  lemma {:induction false} StopIsFinal(s: State, steps: seq<Step>)
    requires Inv(s) && s.stopping && Runs(s, steps)
    ensures Exec(s, steps).stopping && Exec(s, steps).held
    decreases |steps|
  {
    if steps != [] {
      StepKeeps(s, steps[0]);
      StopIsFinal(Next(s, steps[0]), steps[1..]);
    }
  }

  /** After a shutdown request admission never reopens, whatever was in progress. */
  lemma NeverReopensAfterStop(s0: State, before: seq<Step>, after: seq<Step>)
    requires Initial(s0) && Runs(s0, before)
    requires Runs(Next(Exec(s0, before), RequestStop), after)
    ensures Exec(Next(Exec(s0, before), RequestStop), after).held
  {
    RunKeeps(s0, before);
    StepKeeps(Exec(s0, before), RequestStop);
    StopIsFinal(Next(Exec(s0, before), RequestStop), after);
  }
}
