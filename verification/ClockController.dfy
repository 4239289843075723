/**
 The apply transaction for clock provisioning (internal/clocksync/controller.go over
 internal/clocksync/runtime.go): hold, stop, drain, configure, start, verify, resume, with
 rollback to the last good snapshot. Every external call may fail, any step may find its
 deadline expired, and a shutdown request may arrive at any moment.
 */
module ClockController {
  import opened Prelude
  import opened PointList
  import opened PointSync
  import opened AdmissionGate

  datatype Snapshot = Snapshot(revision: string, entries: seq<Entry>)

  /**
   The admission gate and the connector process, with the contracts of the Admission,
   BACnetLifecycle and Runtime interfaces as pre- and postconditions. `outstanding` counts
   published events that are not durably processed yet; only a running producer adds to it.
   */
  class Plant {
    var open: bool
    var stopping: bool
    var running: Option<string>
    var outstanding: nat
    ghost var failures: nat  // how often something outside has failed, timed out or answered wrongly

    ghost function Seen(): GateView
      reads this
    {
      GateView(open, stopping, running.Some?, outstanding)
    }

    /** The gate starts closed; an instance left over from an earlier process may be running. */
    constructor ()
      ensures !open && !stopping
    {
      open, stopping := false, false;
      running, outstanding, failures := *, *, 0;
    }

    /** What may happen on its own: a shutdown request closes the gate for good; a running producer publishes. */
    method Environment()
      modifies this
      ensures old(stopping) ==> stopping
      ensures open <==> old(open) && (stopping ==> old(stopping))
      ensures running == old(running) && (running.None? ==> outstanding == old(outstanding)) && failures == old(failures)
    {
      var requestStop: bool := *;
      if requestStop && !stopping {
        stopping, open := true, false;
      }
      if running.Some? {
        outstanding := *;
      }
    }

    /** The outcome of a call that may fail for reasons of its own. */
    method Outcome() returns (ok: bool)
      modifies this`failures
      ensures Blamed(old(failures), failures, ok)
    {
      ok := *;
      if !ok {
        failures := failures + 1;
      }
    }

    /** A document is staged or refused; one without a revision is always refused. */
    method Stage(s: Snapshot) returns (ok: bool)
      modifies this`failures
      ensures Blamed(old(failures), failures, ok) && (ok ==> s.revision != "")
    {
      ok := Outcome();
      if ok && s.revision == "" {
        ok, failures := false, failures + 1;
      }
    }

    /** Closed from the first moment on, also when waiting for active work fails; a producer that will not quiesce may be stopped. */
    method Hold() returns (ok: bool)
      modifies this
      ensures HoldContract(old(Seen()), Seen())
      ensures !open && (running == old(running) || running.None?) && (old(stopping) ==> stopping)
      ensures old(running).None? && old(outstanding) == 0 ==> outstanding == 0
      ensures Blamed(old(failures), failures, ok)
    {
      open := false;
      Environment();
      var terminated: bool := *;
      if terminated {
        running := None;
      }
      ok := Outcome();
    }

    /** Success confirms that no instance is left; failure confirms nothing. */
    method Stop() returns (ok: bool)
      requires !open
      modifies this
      ensures !open && (ok ==> running.None?) && (running.None? || running == old(running)) && (old(stopping) ==> stopping)
      ensures old(running).None? && old(outstanding) == 0 ==> outstanding == 0
      ensures Blamed(old(failures), failures, ok)
    {
      Environment();
      ok := Outcome();
      var terminated: bool := *;
      if ok || terminated {
        running := None;
      }
    }

    /** Success with the producer stopped means every published event was processed with the mapping still installed. */
    method Drain() returns (ok: bool)
      requires !open && running.None?
      modifies this
      ensures DrainContract(old(Seen()), Seen(), ok)
      ensures !open && running.None? && (ok ==> outstanding == 0) && (old(stopping) ==> stopping)
      ensures outstanding <= old(outstanding) && Blamed(old(failures), failures, ok)
    {
      Environment();
      ok := Outcome();
      var left: nat := *;
      if ok {
        outstanding := 0;
      } else if left < outstanding {
        outstanding := left;
      }
    }

    /** Only ever called held, stopped and drained. */
    method Configure() returns (ok: bool)
      requires !open && running.None? && outstanding == 0
      modifies this
      ensures !open && running.None? && outstanding == 0 && (old(stopping) ==> stopping)
      ensures Blamed(old(failures), failures, ok)
    {
      Environment();
      ok := Outcome();
    }

    /** Even a failed start may leave an instance behind, and what it runs is unknown until it is asked. */
    method Start() returns (ok: bool)
      requires !open && running.None?
      modifies this
      ensures !open && (old(stopping) ==> stopping) && Blamed(old(failures), failures, ok)
    {
      Environment();
      running := *;
      ok := Outcome();
    }

    /** Reports the revision of the running instance, never of a desired file; the wrong one counts as a failure. */
    method Revision(ghost expected: string) returns (r: Option<string>)
      requires !open
      modifies this
      ensures !open && running == old(running) && (r.Some? ==> running == r) && (old(stopping) ==> stopping)
      ensures Blamed(old(failures), failures, r == Some(expected))
    {
      Environment();
      var answered := Outcome();
      r := if answered then running else None;
      if r != Some(expected) {
        failures := failures + 1;
      }
    }

    /** Atomic: opens on success, unless a shutdown was requested; on error the gate stays closed. */
    method Resume() returns (ok: bool)
      requires !open
      modifies this
      ensures ResumeContract(old(Seen()), Seen(), ok)
      ensures running == old(running) && (ok ==> (open <==> !stopping)) && (!ok ==> !open) && (old(stopping) ==> stopping)
      ensures Blamed(old(failures), failures, ok || stopping)
    {
      Environment();
      ok := !stopping;
      if ok {
        ok := Outcome();
      }
      if ok {
        open := true;
        Environment();
      }
    }
  }

  /** The barrier flags, each set by the method that establishes it. A step whose barrier is in place fails only on an outside failure. */
  class ResolverRuntime {
    const plant: Plant
    const resolver: SyncedResolver
    var held: bool
    var stopped: bool
    var drained: bool
    var configuredRevision: string
    var verified: bool
    ghost var configured: Option<Snapshot>
    ghost var shaken: bool  // the instance may have been terminated since it was verified

    /** Each flag is a fact about the world: that is what lets the next step rely on it. */
    ghost predicate Valid()
      reads this, plant, resolver
    {
      && (held ==> !plant.open)
      && (stopped ==> plant.running.None? && !verified)
      && (drained ==> stopped && plant.outstanding == 0)
      && (verified && !shaken ==> plant.running == Some(configuredRevision))
      && (configuredRevision != "" <==> configured.Some?)
      && (configured.Some? ==>
            && configured.value.revision == configuredRevision
            && resolver.reverse == ById(configured.value.entries)
            && resolver.forward == ByLocal(configured.value.entries))
    }

    /** The running instance was verified at the configured revision, and the resolver maps by that snapshot. */
    ghost predicate Coherent(s: Snapshot)
      reads this, plant, resolver
    {
      && configured == Some(s) && configuredRevision == s.revision && verified && plant.running == Some(s.revision)
      && resolver.reverse == ById(s.entries) && resolver.forward == ByLocal(s.entries)
    }

    constructor (plant: Plant, resolver: SyncedResolver)
      requires !plant.open
      ensures this.plant == plant && this.resolver == resolver && Valid() && configured == None
    {
      this.plant, this.resolver := plant, resolver;
      held, stopped, drained, configuredRevision, verified, configured, shaken := false, false, false, "", false, None, false;
    }

    /** Gate held, producer stopped, events drained. */
    ghost predicate Barrier()
      reads this
    {
      held && stopped && drained
    }

    method Hold() returns (ok: bool)
      requires Valid()
      modifies this, plant
      ensures Valid() && !plant.open && (ok ==> held)
      ensures (old(plant.stopping) ==> plant.stopping) && old(plant.failures) <= plant.failures
      ensures Blamed(old(plant.failures), plant.failures, ok)
    {
      ok := plant.Hold();
      shaken := true;
      if ok {
        held := true;
      }
    }

    method Stop() returns (ok: bool)
      requires Valid() && !plant.open
      modifies this, plant
      ensures Valid() && !plant.open && (ok ==> held && stopped)
      ensures (old(plant.stopping) ==> plant.stopping) && old(plant.failures) <= plant.failures
      ensures old(held) ==> Blamed(old(plant.failures), plant.failures, ok)
    {
      if !held {
        return false;
      }
      ok := plant.Stop();
      shaken := true;
      if ok {
        stopped, drained, verified := true, false, false;
      }
    }

    method Drain() returns (ok: bool)
      requires Valid() && !plant.open
      modifies this, plant
      ensures Valid() && !plant.open && (ok ==> held && stopped && drained)
      ensures (old(plant.stopping) ==> plant.stopping) && old(plant.failures) <= plant.failures
      ensures old(held && stopped) ==> Blamed(old(plant.failures), plant.failures, ok)
    {
      if !held || !stopped {
        return false;
      }
      ok := plant.Drain();
      if ok {
        drained := true;
      }
    }

    /** Replaces the mapping only behind the barrier: gate closed, no instance, nothing outstanding. */
    method Configure(s: Snapshot) returns (ok: bool)
      requires Valid() && !plant.open && s.revision != ""
      modifies this, plant, resolver
      ensures Valid() && !plant.open && (ok ==> held && stopped && drained && configured == Some(s))
      ensures (old(plant.stopping) ==> plant.stopping) && old(plant.failures) <= plant.failures
      ensures old(held && stopped && drained) ==> Blamed(old(plant.failures), plant.failures, ok)
    {
      if !held || !stopped || !drained {
        return false;
      }
      ok := plant.Configure();
      if !ok {
        return;
      }
      resolver.Update(s.entries);
      configuredRevision := s.revision;
      verified := false;
      configured := Some(s);
    }

    method Start() returns (ok: bool)
      requires Valid() && !plant.open
      modifies this, plant
      ensures Valid() && !plant.open && configured == old(configured) && (ok ==> held && !stopped)
      ensures (old(plant.stopping) ==> plant.stopping) && old(plant.failures) <= plant.failures
      ensures old(held && stopped && drained) && configured.Some? ==> Blamed(old(plant.failures), plant.failures, ok)
    {
      if !held || !stopped || !drained || configuredRevision == "" {
        return false;
      }
      stopped, drained := false, false;
      ok := plant.Start();
    }

    /** Asks the running instance, not the desired file. */
    method Verify(revision: string) returns (ok: bool)
      requires Valid() && !plant.open
      modifies this, plant
      ensures Valid() && !plant.open && configured == old(configured)
      ensures ok ==> held && !stopped && verified && !shaken && configuredRevision == revision
      ensures (old(plant.stopping) ==> plant.stopping) && old(plant.failures) <= plant.failures
      ensures old(held && !stopped) && configuredRevision == revision ==> Blamed(old(plant.failures), plant.failures, ok)
    {
      verified := false;
      if !held || stopped {
        return false;
      }
      var got := plant.Revision(revision);
      if got.None? || got.value != revision || revision != configuredRevision {
        return false;
      }
      verified, shaken, ok := true, false, true;
    }

    method Resume() returns (ok: bool)
      requires Valid() && !plant.open && !shaken
      modifies this, plant
      ensures Valid() && (ok ==> (plant.open <==> !plant.stopping)) && (!ok ==> !plant.open)
      ensures ok && configured.Some? ==> Coherent(configured.value)
      ensures configured == old(configured) && (old(plant.stopping) ==> plant.stopping) && old(plant.failures) <= plant.failures
      ensures old(held && !stopped && verified) ==> Blamed(old(plant.failures), plant.failures, ok || plant.stopping)
    {
      if !held || stopped || !verified {
        return false;
      }
      ok := plant.Resume();
      if ok {
        held := false;
      }
    }
  }

  datatype Status = Status(phase: string, desiredRevision: string, appliedRevision: string, lastGoodRevision: string)

  class Controller {
    const runtime: ResolverRuntime
    var status: Status
    var desired: Option<Snapshot>
    var good: Option<Snapshot>
    var initialized: bool

    ghost predicate Ready()
      reads this, runtime, runtime.plant, runtime.resolver
    {
      && runtime.Valid()
      && (desired.Some? ==> desired.value.revision != "" && status.desiredRevision == desired.value.revision)
      && (good.Some? ==> good.value.revision != "" && status.lastGoodRevision == good.value.revision)
    }

    /**
     Between Syncs: admission is open exactly when a revision is claimed applied and no
     shutdown was requested, and then the running instance, the configuration and the
     resolver all belong to that one snapshot, which is also the rollback candidate.
     */
    ghost predicate Valid()
      reads this, runtime, runtime.plant, runtime.resolver
    {
      && Ready()
      && (runtime.plant.open <==> status.appliedRevision != "" && !runtime.plant.stopping)
      && (status.appliedRevision != "" ==>
            && good.Some? && good.value.revision == status.appliedRevision
            && runtime.Coherent(good.value))
      && (!initialized ==> status.appliedRevision == "" && desired == None)
    }

    constructor (runtime: ResolverRuntime)
      requires runtime.Valid() && !runtime.plant.open
      ensures this.runtime == runtime && Valid() && !initialized
    {
      this.runtime := runtime;
      status := Status("uninitialized", "", "", "");
      desired, good, initialized := None, None, false;
    }

    method Phase(p: string)
      modifies this`status
      ensures status == old(status).(phase := p)
    {
      status := status.(phase := p);
    }

    /** Entering a step: its phase is published, and it fails untouched if its deadline has already passed. */
    method Enter(phase: string) returns (inTime: bool)
      modifies this`status, runtime.plant`failures
      ensures status == old(status).(phase := phase)
      ensures Blamed(old(runtime.plant.failures), runtime.plant.failures, inTime)
    {
      Phase(phase);
      inTime := runtime.plant.Outcome();
    }

    /** Hold, stop and drain behind the gate. On failure the gate may still be open if not even the hold was attempted. */
    method Quiesce() returns (ok: bool)
      requires Ready()
      modifies this`status, runtime, runtime.plant
      ensures Ready() && status == old(status).(phase := status.phase)
      ensures ok ==> !runtime.plant.open && runtime.Barrier()
      ensures Blamed(old(runtime.plant.failures), runtime.plant.failures, ok)
    {
      ok := Enter("holding");
      if ok {
        ok := runtime.Hold();
      }
      if ok {
        ok := Enter("stopping");
      }
      if ok {
        ok := StopAndDrain();
      }
    }

    method StopAndDrain() returns (ok: bool)
      requires Ready() && !runtime.plant.open && runtime.held
      modifies this`status, runtime, runtime.plant
      ensures Ready() && !runtime.plant.open && status == old(status).(phase := status.phase)
      ensures ok ==> runtime.Barrier()
      ensures Blamed(old(runtime.plant.failures), runtime.plant.failures, ok)
    {
      ok := runtime.Stop();
      if ok {
        ok := Enter("draining");
      }
      if ok {
        ok := runtime.Drain();
      }
    }

    /** Configure, start, verify and resume one snapshot behind a closed gate; only the forward path publishes phases. */
    method Install(s: Snapshot, forward: bool) returns (ok: bool)
      requires Ready() && !runtime.plant.open && s.revision != "" && runtime.Barrier()
      modifies this`status, runtime, runtime.plant, runtime.resolver
      ensures Ready() && status == old(status).(phase := status.phase)
      ensures ok ==> (runtime.plant.open <==> !runtime.plant.stopping) && runtime.Coherent(s)
      ensures (!ok ==> !runtime.plant.open) && (old(runtime.plant.stopping) ==> runtime.plant.stopping)
      ensures Blamed(old(runtime.plant.failures), runtime.plant.failures, ok || runtime.plant.stopping)
    {
      ok := Prepare(s, forward);
      if ok {
        ok := Release(s, forward);
      }
    }

    method Prepare(s: Snapshot, forward: bool) returns (ok: bool)
      requires Ready() && !runtime.plant.open && s.revision != "" && runtime.Barrier()
      modifies this`status, runtime, runtime.plant, runtime.resolver
      ensures Ready() && !runtime.plant.open && status == old(status).(phase := status.phase)
      ensures ok ==> runtime.configured == Some(s) && runtime.held && !runtime.stopped
      ensures old(runtime.plant.stopping) ==> runtime.plant.stopping
      ensures Blamed(old(runtime.plant.failures), runtime.plant.failures, ok)
    {
      ok := EnterIf(forward, "configuring");
      if ok {
        ok := runtime.Configure(s);
      }
      if ok {
        ok := EnterIf(forward, "starting");
      }
      if ok {
        ok := runtime.Start();
      }
    }

    method Release(s: Snapshot, forward: bool) returns (ok: bool)
      requires Ready() && !runtime.plant.open && runtime.configured == Some(s) && runtime.held && !runtime.stopped
      modifies this`status, runtime, runtime.plant
      ensures Ready() && status == old(status).(phase := status.phase)
      ensures ok ==> (runtime.plant.open <==> !runtime.plant.stopping) && runtime.Coherent(s)
      ensures (!ok ==> !runtime.plant.open) && (old(runtime.plant.stopping) ==> runtime.plant.stopping)
      ensures Blamed(old(runtime.plant.failures), runtime.plant.failures, ok || runtime.plant.stopping)
    {
      ok := EnterIf(forward, "verifying");
      if ok {
        ok := runtime.Verify(s.revision);
      }
      if ok {
        ok := EnterIf(forward, "resuming");
      }
      if ok {
        ok := runtime.Resume();
      }
    }

    method EnterIf(forward: bool, phase: string) returns (inTime: bool)
      modifies this`status, runtime.plant`failures
      ensures status == if forward then old(status).(phase := phase) else old(status)
      ensures Blamed(old(runtime.plant.failures), runtime.plant.failures, inTime)
    {
      inTime := true;
      if forward {
        inTime := Enter(phase);
      }
    }

    /** The forward transaction; no applied claim is made while it runs. */
    method ApplySnapshot(s: Snapshot) returns (ok: bool)
      requires Ready() && s.revision != ""
      modifies this`status, runtime, runtime.plant, runtime.resolver
      ensures Ready() && status == old(status).(appliedRevision := "", phase := status.phase)
      ensures ok ==> (runtime.plant.open <==> !runtime.plant.stopping) && runtime.Coherent(s)
      ensures Blamed(old(runtime.plant.failures), runtime.plant.failures, ok || runtime.plant.stopping)
    {
      status := status.(appliedRevision := "");
      ok := Quiesce();
      if ok {
        ok := Install(s, true);
      }
    }

    /** An unverified recovery never releases admission, and leaves an instance running only if stopping it failed too. */
    method Halt()
      requires Ready()
      modifies this`status, runtime, runtime.plant
      ensures Ready() && !runtime.plant.open
      ensures status == old(status).(phase := "halted", appliedRevision := "")
      ensures Blamed(old(runtime.plant.failures), runtime.plant.failures, runtime.plant.running.None?)
      ensures old(runtime.plant.stopping) ==> runtime.plant.stopping
    {
      var held := runtime.Hold();
      var stopped := runtime.Stop();
      status := status.(phase := "halted", appliedRevision := "");
    }

    /** Always stops and drains a partly started candidate with its own mapping before restoring the last good snapshot. */
    method Rollback()
      requires Ready() && status.appliedRevision == ""
      modifies this`status, runtime, runtime.plant, runtime.resolver
      ensures Ready() && status == old(status).(phase := status.phase, appliedRevision := status.appliedRevision)
      ensures status.phase == if status.appliedRevision != "" then "retry_pending" else "halted"
      ensures Blamed(old(runtime.plant.failures), runtime.plant.failures,
                     status.appliedRevision != "" || good.None? || runtime.plant.stopping)
      ensures Blamed(old(runtime.plant.failures), runtime.plant.failures, status.appliedRevision != "" || runtime.plant.running.None?)
      ensures old(runtime.plant.stopping) ==> runtime.plant.stopping
      ensures runtime.plant.open <==> status.appliedRevision != "" && !runtime.plant.stopping
      ensures status.appliedRevision != "" ==>
                good.Some? && status.appliedRevision == good.value.revision && runtime.Coherent(good.value)
    {
      Phase("rolling_back");
      var ok := runtime.Hold();
      if ok {
        ok := runtime.Stop();
      }
      if ok {
        ok := runtime.Drain();
      }
      if !ok {
        Halt();
        return;
      }
      if good.None? {
        Phase("halted");
        return;
      }
      ok := Install(good.value, false);
      if !ok {
        Halt();
        return;
      }
      status := status.(phase := "retry_pending", appliedRevision := good.value.revision);
    }

    /** Restores only a rollback candidate that stages again, and only before the first Sync. */
    method RestoreLastGood(s: Option<Snapshot>) returns (ok: bool)
      requires Valid()
      modifies this`good, this`status, runtime.plant`failures
      ensures Valid()
      ensures ok && s.Some? ==> good == s && status == old(status).(lastGoodRevision := s.value.revision)
      ensures !ok || s.None? ==> good == old(good) && status == old(status)
      ensures ok ==> !initialized
      ensures Blamed(old(runtime.plant.failures), runtime.plant.failures, ok || initialized)
    {
      ok := !initialized;
      if ok && s.Some? {
        ok := runtime.plant.Stage(s.value);
        if ok {
          good := s;
          status := status.(lastGoodRevision := s.value.revision);
        }
      }
    }

    /** The first Sync closes the gate and waits there for a snapshot. */
    method Initialize() returns (ok: bool)
      requires Valid() && !initialized
      modifies this, runtime, runtime.plant
      ensures Valid() && initialized == ok && desired == old(desired) && good == old(good)
      ensures status == old(status).(phase := if ok then "waiting_snapshot" else "halted")
      ensures Blamed(old(runtime.plant.failures), runtime.plant.failures, ok)
    {
      ok := Enter("holding");
      if ok {
        ok := runtime.Hold();
      }
      if !ok {
        Phase("halted");
        return;
      }
      Phase("waiting_snapshot");
      initialized := true;
    }

    /**
     Apply the desired snapshot, or roll back; both leave the claim and the gate in agreement.
     Without a shutdown request one outside failure costs at most the new snapshot: only a
     second one, in the rollback, leaves nothing applied when there is a last good one.
     */
    method Converge(s: Snapshot) returns (ok: bool)
      requires Valid() && initialized && s.revision != "" && desired == Some(s)
      modifies this, runtime, runtime.plant, runtime.resolver
      ensures Valid() && initialized && desired == Some(s)
      ensures ok ==> good == Some(s) && status == Status("active", s.revision, s.revision, s.revision)
      ensures !ok ==> good == old(good) && status.phase == if status.appliedRevision != "" then "retry_pending" else "halted"
      ensures Blamed(old(runtime.plant.failures), runtime.plant.failures, ok || runtime.plant.stopping)
      ensures !ok && status.appliedRevision == "" && (good.Some? || runtime.plant.running.Some?) && !runtime.plant.stopping ==>
                runtime.plant.failures >= old(runtime.plant.failures) + 2
    {
      Phase("staged");
      ok := ApplySnapshot(s);
      if ok {
        good := Some(s);
        status := status.(phase := "active", appliedRevision := s.revision, lastGoodRevision := s.revision);
        return;
      }
      Rollback();
    }

    /**
     Fetch, stage, apply or roll back. A 304 retries a pending apply and never acknowledges a
     failed one. A Sync with a snapshot to apply fails only if something outside failed in it,
     ran out of time, or a shutdown was requested. What it applies is what the source sent in
     it, or the last that was staged before; what it rolls back to is what was applied before.
     */
    method Sync(fetched: Option<Snapshot>) returns (ok: bool)
      requires Valid()
      modifies this, runtime, runtime.plant, runtime.resolver
      ensures Valid()
      ensures desired == old(desired) || (fetched.Some? && desired == fetched)
      ensures ok && fetched.Some? ==> desired == fetched && status.appliedRevision == fetched.value.revision
      ensures good == old(good) || (ok && good == desired)
      ensures ok ==> desired.Some? && status.appliedRevision == desired.value.revision
      ensures Blamed(old(runtime.plant.failures), runtime.plant.failures, ok || runtime.plant.stopping || desired.None?)
    {
      if !initialized {
        ok := Initialize();
        if !ok {
          return;
        }
      }
      ok := Fetch(fetched);
      if !ok || desired.None? {
        return false;
      }
      if status.appliedRevision == desired.value.revision {
        return true;
      }
      ok := Converge(desired.value);
    }

    /** A new snapshot is staged before anything is touched; a 304, which brings none, keeps the desired one. */
    method Fetch(fetched: Option<Snapshot>) returns (ok: bool)
      requires Valid() && initialized
      modifies this`desired, this`status, runtime.plant`failures
      ensures Valid() && initialized && status == old(status).(desiredRevision := status.desiredRevision)
      ensures desired == if ok && fetched.Some? then fetched else old(desired)
      ensures fetched.None? || !ok ==> status == old(status)
      ensures Blamed(old(runtime.plant.failures), runtime.plant.failures, ok)
    {
      ok := runtime.plant.Outcome();
      if ok && fetched.Some? {
        ok := runtime.plant.Stage(fetched.value);
        if ok {
          desired := fetched;
          status := status.(desiredRevision := fetched.value.revision);
        }
      }
    }

    /**
     Any sequence of Syncs, whatever the source sends and whatever fails in them, with a
     shutdown request at any point: what is desired and what is applied was sent by the source
     in one of them, or was there before.
     */
    method Run(polls: seq<Option<Snapshot>>)
      requires Valid()
      modifies this, runtime, runtime.plant, runtime.resolver
      ensures Valid()
      ensures desired == old(desired) || desired in polls
      ensures good in [old(good), old(desired)] + polls
    {
      for i := 0 to |polls|
        invariant Valid()
        invariant desired == old(desired) || desired in polls
        invariant good in [old(good), old(desired)] + polls
      {
        var ok := Sync(polls[i]);
        RequestStop();
      }
    }

    /** A shutdown request between Syncs closes the gate for good; it may also not come. */
    method RequestStop()
      requires Valid()
      modifies runtime.plant
      ensures Valid()
    {
      var requested: bool := *;
      if requested {
        runtime.plant.stopping, runtime.plant.open := true, false;
      }
    }
  }
}
