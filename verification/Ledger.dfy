/**
 The durable run-lease ledger (internal/runcontext/context.go). Times are integers; an
 envelope is its payload size and what the payload decodes to. A failed write leaves the
 file with its old or its new content, and a crash is a failed write whose object is lost.
 */
module RunLedger {
  import opened Prelude

  const SCHEMA := "clock-run-context/2-draft"
  const LEDGER_VERSION: nat := 2
  const MAX_GENERATION: nat := 9007199254740991
  const MAX_PAYLOAD: nat := 65536
  const ZERO_TIME: int := 0

  datatype Scope = Scope(gatewayId: string, clockId: string)

  datatype Context = Context(
    schemaVersion: string, gatewayId: string, clockId: string, revision: string, runId: string,
    generation: nat, status: string, issuedAt: int, validFrom: int, expiresAt: int, utc: bool)

  datatype Envelope = Envelope(size: nat, decoded: Option<Context>)

  datatype Data = Data(
    invalidRuns: set<string>, version: nat, scope: Scope, envelope: Option<Envelope>,
    committedAt: int, appliedAt: Option<int>)

  datatype Verdict = Absent | Unverified(reason: string) | Invalid(reason: string) | Valid(runId: string, generation: nat)

  /** A lease of this domain: identified, of a known status, numbered safely, and with an ordered lifetime in UTC. */
  ghost predicate InContract(scope: Scope, c: Context) {
    && c.schemaVersion == SCHEMA && c.gatewayId == scope.gatewayId && c.clockId == scope.clockId
    && c.runId != "" && c.revision != "" && 1 <= c.generation <= MAX_GENERATION
    && (c.status == "active" || c.status == "revoked")
    && c.issuedAt != ZERO_TIME && c.issuedAt <= c.validFrom < c.expiresAt && c.utc
  }

  /** The lease of an envelope that decodes within the size limit and keeps the contract. */
  function Verify(scope: Scope, e: Envelope): (c: Option<Context>)
    ensures c.Some? <==> e.size <= MAX_PAYLOAD && e.decoded.Some? && InContract(scope, e.decoded.value)
    ensures c.Some? ==> c == e.decoded
  {
    if e.size > MAX_PAYLOAD || e.decoded.None? then None
    else
      var c := e.decoded.value;
      if c.schemaVersion != SCHEMA || c.gatewayId != scope.gatewayId || c.clockId != scope.clockId || c.runId == "" || c.revision == ""
         || c.generation < 1 || c.generation > MAX_GENERATION || (c.status != "active" && c.status != "revoked")
         || c.issuedAt == ZERO_TIME || c.issuedAt > c.validFrom || c.validFrom >= c.expiresAt || !c.utc
      then None else Some(c)
  }

  /** The generation a stored state has committed to; 0 for a new domain. */
  function Generation(d: Data): nat {
    if d.envelope.Some? && d.envelope.value.decoded.Some? then d.envelope.value.decoded.value.generation else 0
  }

  /** What Open accepts: right version and scope, a contract-abiding envelope, and receipts inside its lifetime. */
  ghost predicate Opens(d: Data, scope: Scope) {
    && d.version == LEDGER_VERSION && d.scope == scope
    && match d.envelope {
         case None => d.committedAt == ZERO_TIME && d.appliedAt == None
         case Some(e) =>
           && Verify(scope, e).Some?
           && var c := Verify(scope, e).value;
              && c.issuedAt <= d.committedAt < c.expiresAt
              && (d.appliedAt.Some? ==> d.committedAt <= d.appliedAt.value < c.expiresAt)
       }
  }

  /** History only grows: no generation rollback, no forgotten invalidation. */
  ghost predicate Grows(before: Data, after: Data) {
    Generation(before) <= Generation(after) && before.invalidRuns <= after.invalidRuns
  }

  function Judge(d: Data, c: Context, revision: string, start: int, end: int): Verdict {
    if end < start then Invalid("invalid_acquisition_interval")
    else if c.revision != revision then Invalid("revision_mismatch")
    else if c.status == "revoked" then Invalid("revoked")
    else if start < c.validFrom then Invalid("not_yet_valid")
    else if end >= c.expiresAt then Invalid("expired")
    else if d.appliedAt.None? then Unverified("context_not_applied")
    else if start < d.appliedAt.value then Invalid("context_not_active_at_start")
    else if c.runId in d.invalidRuns then Invalid("reset_detected")
    else Verdict.Valid(c.runId, c.generation)
  }

  /** An active, un-invalidated lease of this revision whose applied lifetime contains the whole interval. */
  ghost predicate LeaseCovers(d: Data, c: Context, revision: string, start: int, end: int) {
    && start <= end && c.revision == revision && c.status != "revoked" && c.runId !in d.invalidRuns
    && d.appliedAt.Some? && c.validFrom <= start && d.appliedAt.value <= start && end < c.expiresAt
  }

  lemma ValidMeansLeaseCovers(d: Data, c: Context, revision: string, start: int, end: int)
    ensures Judge(d, c, revision, start, end).Valid? <==> LeaseCovers(d, c, revision, start, end)
    ensures Judge(d, c, revision, start, end).Valid? ==>
            Judge(d, c, revision, start, end) == Verdict.Valid(c.runId, c.generation)
  {
  }

  /** Only a lease that is not applied yet leaves an interval unverified, and every reason given is true. */
  lemma VerdictTells(d: Data, c: Context, revision: string, start: int, end: int)
    ensures var v := Judge(d, c, revision, start, end);
            && (v.Unverified? <==> d.appliedAt.None? && LeaseCovers(d.(appliedAt := Some(start), invalidRuns := {}), c, revision, start, end))
            && (v.Invalid? ==> Tells(v.reason, d, c, revision, start, end)) && v != Absent
  {
  }

  ghost predicate Tells(reason: string, d: Data, c: Context, revision: string, start: int, end: int) {
    || (reason == "invalid_acquisition_interval" && start > end)
    || (reason == "revision_mismatch" && revision != c.revision)
    || (reason == "revoked" && c.status == "revoked")
    || (reason == "not_yet_valid" && c.validFrom > start)
    || (reason == "expired" && c.expiresAt <= end)
    || (reason == "context_not_active_at_start" && d.appliedAt.Some? && d.appliedAt.value > start)
    || (reason == "reset_detected" && c.runId in d.invalidRuns)
  }

  /** Why a lease is turned away: malformed, outside its lifetime, a first one not of generation one, older than, or in conflict with, the one held. */
  ghost predicate Refused(d: Data, scope: Scope, e: Envelope, at: int) {
    var verified := Verify(scope, e);
    || verified.None?
    || !(verified.value.issuedAt <= at < verified.value.expiresAt)
    || (d.envelope.None? && verified.value.generation != 1)
    || (d.envelope.Some? && verified.value.generation < Generation(d))
    || (d.envelope.Some? && verified.value.generation == Generation(d) && verified != d.envelope.value.decoded)
  }

  /** The state that holds an accepted lease: repeated ones change nothing, a revocation also invalidates its run. */
  ghost function Committed(d: Data, scope: Scope, e: Envelope, at: int): Data
    requires !Refused(d, scope, e, at)
  {
    var c := Verify(scope, e).value;
    if d.envelope.Some? && c.generation == Generation(d) then d
    else
      d.(envelope := Some(e), committedAt := at, appliedAt := None,
         invalidRuns := if c.status == "revoked" then d.invalidRuns + {c.runId} else d.invalidRuns)
  }

  /** A revoked lease that is held has its run on the invalid list. */
  ghost predicate RevokedListed(d: Data) {
    d.envelope.Some? && d.envelope.value.decoded.Some? && d.envelope.value.decoded.value.status == "revoked" ==>
      d.envelope.value.decoded.value.runId in d.invalidRuns
  }

  /** Committing a revocation puts its run on the invalid list, or finds it there. */
  lemma CommitRevokes(d: Data, scope: Scope, e: Envelope, at: int)
    requires !Refused(d, scope, e, at) && RevokedListed(d)
    ensures RevokedListed(Committed(d, scope, e, at))
    ensures Verify(scope, e).value.status == "revoked" ==> Verify(scope, e).value.runId in Committed(d, scope, e, at).invalidRuns
  {
  }

  /** One ledger file. */
  class File {
    var content: Data

    constructor (scope: Scope)
      requires scope.gatewayId != "" && scope.clockId != ""
      ensures content == Data({}, LEDGER_VERSION, scope, None, ZERO_TIME, None) && Opens(content, scope)
    {
      content := Data({}, LEDGER_VERSION, scope, None, ZERO_TIME, None);
    }
  }

  class Ledger {
    const file: File
    const scope: Scope
    var failed: bool
    var data: Data
    var context: Option<Context>

    /** The file is always reopenable; a healthy ledger mirrors it. */
    ghost predicate Ok()
      reads this, file
    {
      && Opens(file.content, scope)
      && (!failed ==>
            && data == file.content
            && context == (if data.envelope.None? then None else Verify(scope, data.envelope.value)))
    }

    /** Reopening a file that Open accepts always succeeds, with nothing lost. */
    constructor (file: File, scope: Scope)
      requires Opens(file.content, scope)
      ensures this.file == file && this.scope == scope && Ok() && !failed
      ensures data == file.content
    {
      this.file, this.scope, this.failed := file, scope, false;
      data := file.content;
      context := if file.content.envelope.None? then None else Verify(scope, file.content.envelope.value);
    }

    method Persist(next: Data) returns (ok: bool)
      requires Ok() && !failed && Opens(next, scope) && Grows(data, next)
      modifies this`failed, this`data, file
      ensures Opens(file.content, scope) && Grows(old(file.content), file.content)
      ensures ok ==> !failed && data == next == file.content
      ensures !ok ==> failed && data == old(data) && (file.content == old(file.content) || file.content == next)
    {
      ok := *;
      var renamed: bool := *;
      if ok || renamed {
        file.content := next;
      }
      if ok {
        data := next;
      } else {
        failed := true;
      }
    }

    /** Accepts a lease only inside its lifetime, starting at generation one and never going back; repeats are idempotent. */
    method Commit(e: Envelope, at: int) returns (ok: bool)
      requires Ok()
      modifies this`failed, this`data, this`context, file
      ensures Ok() && Grows(old(file.content), file.content)
      ensures old(failed) || Refused(old(file.content), scope, e, at) ==> !ok && failed == old(failed) && file.content == old(file.content)
      ensures !old(failed) && !Refused(old(file.content), scope, e, at) ==>
                && ok == !failed
                && (ok ==> file.content == Committed(old(file.content), scope, e, at))
                && (!ok ==> file.content in {old(file.content), Committed(old(file.content), scope, e, at)})
    {
      if failed {
        return false;
      }
      var verified := Verify(scope, e);
      if verified.None? {
        return false;
      }
      var c := verified.value;
      if at < c.issuedAt || at >= c.expiresAt {
        return false;
      }
      if context.None? && c.generation != 1 {
        return false;
      }
      if context.Some? {
        if c.generation < context.value.generation {
          return false;
        }
        if c.generation == context.value.generation {
          return c == context.value;
        }
      }
      var next := data.(envelope := Some(e), committedAt := at, appliedAt := None);
      if c.status == "revoked" {
        next := next.(invalidRuns := data.invalidRuns + {c.runId});
      }
      ok := Persist(next);
      if ok {
        context := Some(c);
      }
    }

    method Apply(at: int) returns (ok: bool)
      requires Ok()
      modifies this`failed, this`data, file
      ensures Ok() && Grows(old(file.content), file.content)
      ensures ok ==> !failed && context.Some? && data.committedAt <= at < context.value.expiresAt
      ensures ok ==> file.content == old(file.content).(appliedAt := if old(file.content).appliedAt.Some? then old(file.content).appliedAt else Some(at))
      ensures !ok && !failed ==> context.None? || at < data.committedAt || at >= context.value.expiresAt
      ensures !ok ==> file.content in {old(file.content), old(file.content).(appliedAt := Some(at))}
    {
      if failed {
        return false;
      }
      if context.None? || at < data.committedAt || at >= context.value.expiresAt {
        return false;
      }
      if data.appliedAt.Some? {
        return true;
      }
      ok := Persist(data.(appliedAt := Some(at)));
    }

    method InvalidateRun(runId: string) returns (ok: bool)
      requires Ok()
      modifies this`failed, this`data, file
      ensures Ok() && Grows(old(file.content), file.content)
      ensures ok ==> !failed && context.Some? && runId == context.value.runId
      ensures !ok && failed == old(failed) ==> file.content == old(file.content)
      ensures !ok ==> file.content in {old(file.content), old(file.content).(invalidRuns := old(file.content).invalidRuns + {runId})}
      ensures (!ok && !failed ==> context.None? || runId != context.value.runId) && (old(failed) ==> !ok)
      ensures ok ==> file.content == old(file.content).(invalidRuns := old(file.content).invalidRuns + {runId})
    {
      if failed || context.None? || runId != context.value.runId {
        return false;
      }
      ok := Persist(data.(invalidRuns := data.invalidRuns + {runId}));
    }

    /** Also takes evidence about an older run of this domain, so a newer run cannot clear it; refused only for a future generation. */
    method InvalidateContext(e: Envelope) returns (ok: bool)
      requires Ok()
      modifies this`failed, this`data, file
      ensures Ok() && Grows(old(file.content), file.content)
      ensures ok ==> !failed && Verify(scope, e).Some? && Verify(scope, e).value.generation <= Generation(old(file.content))
      ensures ok ==> file.content == old(file.content).(invalidRuns := old(file.content).invalidRuns + {Verify(scope, e).value.runId})
      ensures (&& !ok && !old(failed) && context.Some? && Verify(scope, e).Some?
               && Verify(scope, e).value.generation <= Generation(old(file.content))) ==> failed
      ensures !ok ==> || file.content == old(file.content)
                      || (&& Verify(scope, e).Some?
                          && file.content == old(file.content).(invalidRuns := old(file.content).invalidRuns + {Verify(scope, e).value.runId}))
    {
      if failed || context.None? {
        return false;
      }
      var verified := Verify(scope, e);
      if verified.None? {
        return false;
      }
      if verified.value.generation > context.value.generation {
        return false;
      }
      ok := Persist(data.(invalidRuns := data.invalidRuns + {verified.value.runId}));
    }

    /** A session archive is the current state with its own activation time; Open accepts it too. */
    method Archive(at: int) returns (archived: Option<Data>)
      requires Ok()
      ensures archived.Some? ==>
                && !failed && Opens(archived.value, scope) && archived.value.envelope.Some?
                && archived.value == file.content.(appliedAt := Some(at))
                && Generation(archived.value) == Generation(file.content)
    {
      if failed || context.None? || data.appliedAt.None? || at < data.committedAt || at >= context.value.expiresAt {
        return None;
      }
      var written: bool := *;
      return if written then Some(data.(appliedAt := Some(at))) else None;
    }

    method Evaluate(revision: string, start: int, end: int) returns (v: Verdict)
      requires Ok()
      ensures failed ==> v == Unverified("generation_history_unavailable")
      ensures !failed && data.envelope.None? ==> v == Absent
      ensures !failed && data.envelope.Some? ==> v == Judge(data, Verify(scope, data.envelope.value).value, revision, start, end)
      ensures v.Valid? <==> !failed && data.envelope.Some? && LeaseCovers(data, Verify(scope, data.envelope.value).value, revision, start, end)
    {
      if failed {
        return Unverified("generation_history_unavailable");
      }
      if context.None? {
        return Absent;
      }
      v := Judge(data, context.value, revision, start, end);
      ValidMeansLeaseCovers(data, context.value, revision, start, end);
    }
  }

  /** Open: everything a file must be is checked, and what it is becomes the ledger. */
  method OpenLedger(file: File, scope: Scope) returns (l: Ledger?)
    ensures l != null <==> Opens(file.content, scope)
    ensures l != null ==> fresh(l) && l.file == file && l.scope == scope && l.Ok() && !l.failed
  {
    var d := file.content;
    if d.version != LEDGER_VERSION || d.scope != scope {
      return null;
    }
    if d.envelope.None? {
      if d.committedAt != ZERO_TIME || d.appliedAt.Some? {
        return null;
      }
    } else {
      var verified := Verify(scope, d.envelope.value);
      if verified.None? || d.committedAt < verified.value.issuedAt || d.committedAt >= verified.value.expiresAt {
        return null;
      }
      if d.appliedAt.Some? && (d.appliedAt.value < d.committedAt || d.appliedAt.value >= verified.value.expiresAt) {
        return null;
      }
    }
    l := new Ledger(file, scope);
  }

  /** Any mix of operations, failures, crashes and reopenings keeps the file reopenable, its history growing, and the run of a revoked lease it holds invalid. */
  method AnyHistory(file: File, scope: Scope, operations: nat)
    requires Opens(file.content, scope)
    modifies file
    ensures Opens(file.content, scope) && Grows(old(file.content), file.content)
    ensures old(RevokedListed(file.content)) ==> RevokedListed(file.content)
  {
    var ledger := new Ledger(file, scope);
    for i := 0 to operations
      invariant fresh(ledger) && ledger.file == file && ledger.scope == scope && ledger.Ok()
      invariant Grows(old(file.content), file.content)
      invariant old(RevokedListed(file.content)) ==> RevokedListed(file.content)
    {
      var choice: nat := *;
      var e: Envelope, at: int, runId: string := *, *, *;
      var done: bool;
      if choice == 0 {
        ghost var d := file.content;
        if !Refused(d, scope, e, at) && RevokedListed(d) {
          CommitRevokes(d, scope, e, at);
        }
        done := ledger.Commit(e, at);
      } else if choice == 1 {
        done := ledger.Apply(at);
      } else if choice == 2 {
        done := ledger.InvalidateContext(e);
      } else if choice == 3 {
        done := ledger.InvalidateRun(runId);
      } else {
        ledger := new Ledger(file, scope);
      }
    }
  }
}
