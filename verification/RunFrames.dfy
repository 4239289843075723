/**
 Labelling frames with a run lease (internal/clocksync/run_context.go) and processing
 events durably (internal/clocksync/gateway.go, process): reset evidence is recorded before
 anything is labelled, every classification is kept as a receipt, and a frame is buffered
 only for a verified archived session. Files and the ledger survive restarts of the worker.
 */
module RunFrames {
  import opened Prelude
  import opened RunLedger
  import opened Sessions
  import ClockStage

  /** What identifies an acquisition: its session, its poll interval and its raw event. */
  datatype EventKey = EventKey(session: string, start: Stamp, end: Stamp, event: Event)

  /** A frame with its run label, if its clock has a run context. */
  datatype Labelled = Labelled(frame: Frame, run: Option<RunLabel>)

  datatype RunLabel = RunLabel(verdict: Verdict, committedAt: int, appliedAt: Option<int>)

  datatype Outcome = Buffered(frame: Labelled) | Quarantined | Retry

  ghost predicate ValidFor(l: Labelled, runId: string) {
    l.run.Some? && l.run.value.verdict.Valid? && l.run.value.verdict.runId == runId
  }

  /** Poll evidence must be complete, ordered, contain the observation and not lie in the future. */
  ghost predicate PollOk(k: EventKey, now: int) {
    && k.start.at.Some? && k.end.at.Some? && k.event.timestamp.at.Some?
    && k.start.at.value <= k.event.timestamp.at.value <= k.end.at.value <= now
  }

  function ContextOf(d: Data): Context
    requires d.envelope.Some? && d.envelope.value.decoded.Some?
  {
    d.envelope.value.decoded.value
  }

  function CurrentRun(d: Data): Option<string> {
    if d.envelope.Some? && d.envelope.value.decoded.Some? then Some(ContextOf(d).runId) else None
  }

  /** The live ledger overrules the session's archive: a reset run is invalid, a replaced one unverified. */
  ghost function LabelFor(archive: Data, live: Data, revision: string, start: int, end: int): Verdict
    requires archive.envelope.Some? && archive.envelope.value.decoded.Some?
  {
    var c := ContextOf(archive);
    if c.runId in live.invalidRuns then Invalid("reset_detected")
    else if CurrentRun(live) != Some(c.runId) then Unverified("generation_history_unavailable")
    else Judge(archive, c, revision, start, end)
  }

  /** A label is valid exactly when the archived lease covers the interval and the live ledger neither reset nor replaced its run. */
  lemma ValidLabel(archive: Data, live: Data, revision: string, start: int, end: int)
    requires archive.envelope.Some? && archive.envelope.value.decoded.Some?
    ensures var c, v := ContextOf(archive), LabelFor(archive, live, revision, start, end);
            && (v.Valid? <==> LeaseCovers(archive, c, revision, start, end) && c.runId !in live.invalidRuns && CurrentRun(live) == Some(c.runId))
            && (v.Valid? ==> v == Verdict.Valid(c.runId, c.generation))
  {
    ValidMeansLeaseCovers(archive, ContextOf(archive), revision, start, end);
  }

  /** An event and the frame it was bound to. */
  type Bound = (EventKey, Frame)

  /** Every binding has the point at the event's address in its own verified session's snapshot, and the event's own sample. */
  ghost predicate OwnedOk(owned: set<Bound>, records: map<string, Record>) {
    forall b :: b in owned ==> MayOwn(b, records)
  }

  ghost predicate MayOwn(b: Bound, records: map<string, Record>) {
    && b.0.session in records && records[b.0.session].verified
    && Carries(b.1.pointId, b.0.event, records[b.0.session]) && SameSample(b.1, b.0.event)
  }

  /**
   Every receipt keeps its event's binding, and none labels an event valid for a run that
   was on record as invalid when the event was first classified.
   */
  ghost predicate ReceiptsOk(receipts: map<EventKey, Labelled>, invalidThen: map<EventKey, set<string>>, owned: set<Bound>) {
    && (forall k :: k in receipts ==> (k, receipts[k].frame) in owned)
    && (forall k :: k in receipts ==> k in invalidThen && forall r :: r in invalidThen[k] ==> !ValidFor(receipts[k], r))
  }

  ghost predicate BufferedOk(buffered: seq<(EventKey, Labelled)>, owned: set<Bound>) {
    forall i :: 0 <= i < |buffered| ==> (buffered[i].0, buffered[i].1.frame) in owned
  }

  ghost predicate AllArchived(records: map<string, Record>, scope: ClockStage.Scope) {
    forall id :: id in records ==> Archived(records[id], scope)
  }

  /** The frame of an event by its own session's archive; none if the session is unknown, unverified or of another revision. */
  function BoundTo(k: EventKey, revision: string, records: map<string, Record>, scope: ClockStage.Scope): Option<Frame> {
    if k.session in records && records[k.session].verified && revision == records[k.session].snapshot.revision
    then BoundFrame(k.event, records[k.session], scope) else None
  }

  /** The run lease speaks for this frame. */
  ghost predicate Governed(record: Record, attributes: Attributes) {
    record.runClockId != "" && Attr(attributes, "sim_clock_id") == record.runClockId
  }

  /** Every classified event is one its session's run lease speaks for. */
  ghost predicate GovernedOk(receipts: map<EventKey, Labelled>, records: map<string, Record>) {
    forall k :: k in receipts ==> k.session in records && Governed(records[k.session], k.event.attributes)
  }

  lemma GovernedGrow(receipts: map<EventKey, Labelled>, before: map<string, Record>, after: map<string, Record>)
    requires Kept(before, after) && GovernedOk(receipts, before)
    ensures GovernedOk(receipts, after)
  {
  }

  lemma OneMoreGoverned(before: map<EventKey, Labelled>, after: map<EventKey, Labelled>, k: EventKey, records: map<string, Record>)
    requires GovernedOk(before, records) && Extends(before, after, k)
    requires k in after && k !in before ==> k.session in records && Governed(records[k.session], k.event.attributes)
    ensures GovernedOk(after, records)
  {
  }

  /** A first classification: the frame with the verdict of its session's archive and the ledger of that moment. */
  ghost predicate FirstLabel(l: Labelled, k: EventKey, frame: Frame, archives: map<string, Data>, live: Data, revision: string) {
    && k.session in archives && CurrentRun(archives[k.session]).Some? && k.start.at.Some? && k.end.at.Some?
    && var archive := archives[k.session];
       l == Labelled(frame, Some(RunLabel(
         LabelFor(archive, live, revision, k.start.at.value, k.end.at.value), archive.committedAt, archive.appliedAt)))
  }

  lemma OneMoreBound(owned: set<Bound>, b: Bound, records: map<string, Record>, scope: ClockStage.Scope)
    requires StoreOk(records, owned, scope)
    requires MayOwn(b, records)
    ensures StoreOk(records, owned + {b}, scope)
  {
  }

  ghost predicate StoreOk(records: map<string, Record>, owned: set<Bound>, scope: ClockStage.Scope) {
    AllArchived(records, scope) && OwnedOk(owned, records)
  }

  /** Later configurations, verifications and rollbacks change nothing about frames already bound. */
  lemma RecordsGrow(owned: set<Bound>, before: map<string, Record>, after: map<string, Record>)
    requires Kept(before, after) && OwnedOk(owned, before)
    ensures OwnedOk(owned, after)
  {
    forall b | b in owned
      ensures MayOwn(b, after)
    {
      assert MayOwn(b, before);
    }
  }

  ghost predicate ArchivesOk(archives: map<string, Data>, live: Data, scope: Scope) {
    forall id :: id in archives ==>
      && Opens(archives[id], scope) && archives[id].envelope.Some? && Generation(archives[id]) <= Generation(live)
  }

  /** After a revocation is committed, no event classified from then on is ever labelled valid for its run. */
  lemma RevocationIsFinal(d: Data, scope: Scope, e: Envelope, at: int, r0: map<EventKey, Labelled>, r1: map<EventKey, Labelled>, d1: Data)
    requires !Refused(d, scope, e, at) && RevokedListed(d) && Verify(scope, e).value.status == "revoked"
    requires Later(r0, Committed(d, scope, e, at), r1, d1)
    ensures NoneValidLater(r0, r1, {Verify(scope, e).value.runId})
  {
    CommitRevokes(d, scope, e, at);
  }

  /** Receipts are written once: at most k is new, and no old one changes. */
  ghost predicate Extends(before: map<EventKey, Labelled>, after: map<EventKey, Labelled>, k: EventKey) {
    && (forall j :: j in before ==> j in after && after[j] == before[j])
    && (forall j :: j in after ==> j in before || j == k)
  }

  ghost predicate Stable(before: map<EventKey, Labelled>, after: map<EventKey, Labelled>) {
    forall k :: k in before ==> k in after && after[k] == before[k]
  }

  /** Receipts written after `before` are never valid for any run in `invalid`. */
  ghost predicate NoneValidLater(before: map<EventKey, Labelled>, after: map<EventKey, Labelled>, invalid: set<string>) {
    forall k, r :: k in after && k !in before && r in invalid ==> !ValidFor(after[k], r)
  }

  /** A later moment: ledger history has grown, receipts are unchanged, and new ones respect the runs invalid before. */
  ghost predicate Later(r0: map<EventKey, Labelled>, d0: Data, r1: map<EventKey, Labelled>, d1: Data) {
    Grows(d0, d1) && Stable(r0, r1) && NoneValidLater(r0, r1, d0.invalidRuns)
  }

  lemma LaterSame(r: map<EventKey, Labelled>, d0: Data, d1: Data)
    requires Grows(d0, d1)
    ensures Later(r, d0, r, d1)
  {
  }

  lemma LaterTrans(r0: map<EventKey, Labelled>, d0: Data, r1: map<EventKey, Labelled>, d1: Data, r2: map<EventKey, Labelled>, d2: Data)
    requires Later(r0, d0, r1, d1) && Later(r1, d1, r2, d2)
    ensures Later(r0, d0, r2, d2)
  {
    forall k, r | k in r2 && k !in r0 && r in d0.invalidRuns
      ensures !ValidFor(r2[k], r)
    {
      if k in r1 {
        assert !ValidFor(r1[k], r);
      }
    }
  }

  function Learned(records: map<string, Record>, id: string, verified: bool, runClockId: string): map<string, Record>
    requires id in records
  {
    records[id := records[id].(verified := verified, runClockId := runClockId)]
  }

  /** The snapshots stay as they are, so what was archived and bound stays so. */
  lemma LearnKept(records: map<string, Record>, owned: set<Bound>, id: string, verified: bool, runClockId: string, scope: ClockStage.Scope)
    requires id in records && StoreOk(records, owned, scope) && (records[id].verified ==> verified)
    requires records[id].runClockId == "" || records[id].runClockId == runClockId
    ensures var after := Learned(records, id, verified, runClockId); Kept(records, after) && StoreOk(after, owned, scope)
  {
    RecordsGrow(owned, records, Learned(records, id, verified, runClockId));
  }

  /** The event reports that its clock was reset. */
  ghost predicate IsReset(e: Event) {
    Attr(e.attributes, "sim_time_quality") == "reset"
  }

  /** A frame tells of the clock and of a reset what its event tells. */
  ghost predicate SameEvidence(f: Frame, e: Event) {
    && Attr(f.attributes, "sim_clock_id") == Attr(e.attributes, "sim_clock_id")
    && Attr(f.attributes, "sim_time_quality") == Attr(e.attributes, "sim_time_quality")
  }

  lemma EvidenceIsKept(e: Event, r: Record, scope: ClockStage.Scope)
    requires BoundFrame(e, r, scope).Some?
    ensures SameEvidence(BoundFrame(e, r, scope).value, e)
  {
    BoundFrameIsTheSample(e, r, scope);
  }

  /** The run that was archived for an event's session. */
  function ArchivedRun(archives: map<string, Data>, session: string): Option<string> {
    if session in archives then CurrentRun(archives[session]) else None
  }

  /** Reset evidence that was classified has its session's run on the durable invalid list. */
  ghost predicate ResetsOk(receipts: map<EventKey, Labelled>, archives: map<string, Data>, invalid: set<string>) {
    forall k :: k in receipts && IsReset(k.event) ==>
                  ArchivedRun(archives, k.session).Some? && ArchivedRun(archives, k.session).value in invalid
  }

  /** No archive is replaced. */
  ghost predicate ArchivesGrow(before: map<string, Data>, after: map<string, Data>) {
    forall id :: id in before ==> id in after && after[id] == before[id]
  }

  lemma ResetsGrow(receipts: map<EventKey, Labelled>, a0: map<string, Data>, a1: map<string, Data>, d0: Data, d1: Data)
    requires ResetsOk(receipts, a0, d0.invalidRuns) && ArchivesGrow(a0, a1) && Grows(d0, d1)
    ensures ResetsOk(receipts, a1, d1.invalidRuns)
  {
  }

  lemma OneMoreReset(before: map<EventKey, Labelled>, after: map<EventKey, Labelled>, k: EventKey,
                     archives: map<string, Data>, d0: Data, d1: Data)
    requires ResetsOk(before, archives, d0.invalidRuns) && Extends(before, after, k) && Grows(d0, d1)
    requires k in after && k !in before && IsReset(k.event) ==>
               ArchivedRun(archives, k.session).Some? && ArchivedRun(archives, k.session).value in d1.invalidRuns
    ensures ResetsOk(after, archives, d1.invalidRuns)
  {
  }

  /**
   From a moment with these receipts and archives on: for each event classified as a reset by
   then, no event classified later is valid for its run, as a receipt or in the buffer.
   */
  ghost predicate ResetsHold(r0: map<EventKey, Labelled>, a0: map<string, Data>,
                             r1: map<EventKey, Labelled>, buffered: seq<(EventKey, Labelled)>) {
    forall k :: k in r0 && IsReset(k.event) ==>
      && ArchivedRun(a0, k.session).Some?
      && NoneValidFor(r0, r1, buffered, ArchivedRun(a0, k.session).value)
  }

  ghost predicate NoneValidFor(r0: map<EventKey, Labelled>, r1: map<EventKey, Labelled>, buffered: seq<(EventKey, Labelled)>, run: string) {
    && (forall j :: j in r1 && j !in r0 ==> !ValidFor(r1[j], run))
    && (forall i :: 0 <= i < |buffered| && buffered[i].0 !in r0 ==> !ValidFor(buffered[i].1, run))
  }

  lemma ResetsAreFinal(r0: map<EventKey, Labelled>, a0: map<string, Data>, d0: Data, r1: map<EventKey, Labelled>, d1: Data,
                       buffered: seq<(EventKey, Labelled)>)
    requires ResetsOk(r0, a0, d0.invalidRuns) && Later(r0, d0, r1, d1) && NoneBufferedValid(buffered, r0, d0.invalidRuns)
    ensures ResetsHold(r0, a0, r1, buffered)
  {
  }

  /** What holds of receipts and buffered frames at any moment after one with receipts r0, archives a0 and ledger d0. */
  ghost predicate LabelsHold(r0: map<EventKey, Labelled>, a0: map<string, Data>, d0: Data,
                             r1: map<EventKey, Labelled>, buffered: seq<(EventKey, Labelled)>) {
    ResetsHold(r0, a0, r1, buffered) && NoneBufferedValid(buffered, r0, d0.invalidRuns) && CopiesAgree(buffered)
  }

  lemma LabelsFollow(r0: map<EventKey, Labelled>, a0: map<string, Data>, d0: Data, r1: map<EventKey, Labelled>, d1: Data,
                     buffered: seq<(EventKey, Labelled)>)
    requires ResetsOk(r0, a0, d0.invalidRuns) && Later(r0, d0, r1, d1) && ReceiptedOk(buffered, r1)
    ensures LabelsHold(r0, a0, d0, r1, buffered)
  {
    BufferedFollowReceipts(buffered, r0, d0, r1, d1);
    ResetsAreFinal(r0, a0, d0, r1, d1, buffered);
  }

  /** A buffered frame with a run label is its event's receipt. */
  ghost predicate ReceiptedOk(buffered: seq<(EventKey, Labelled)>, receipts: map<EventKey, Labelled>) {
    forall i :: 0 <= i < |buffered| && buffered[i].1.run.Some? ==>
                  buffered[i].0 in receipts && receipts[buffered[i].0] == buffered[i].1
  }

  lemma ReceiptedGrow(buffered: seq<(EventKey, Labelled)>, before: map<EventKey, Labelled>, after: map<EventKey, Labelled>)
    requires ReceiptedOk(buffered, before) && Stable(before, after)
    ensures ReceiptedOk(buffered, after)
  {
  }

  /** The buffer only grows, and whatever it gains for an event with a receipt is that receipt's frame. */
  ghost predicate Continues(before: seq<(EventKey, Labelled)>, receipts: map<EventKey, Labelled>, after: seq<(EventKey, Labelled)>) {
    && before <= after
    && forall i :: |before| <= i < |after| && after[i].0 in receipts ==> after[i].1 == receipts[after[i].0]
  }

  lemma ContinuesTrans(b0: seq<(EventKey, Labelled)>, r0: map<EventKey, Labelled>, b1: seq<(EventKey, Labelled)>,
                       r1: map<EventKey, Labelled>, b2: seq<(EventKey, Labelled)>)
    requires Continues(b0, r0, b1) && Continues(b1, r1, b2) && Stable(r0, r1)
    ensures Continues(b0, r0, b2)
  {
    assert forall i :: 0 <= i < |b1| ==> b2[i] == b1[i];
  }

  /** No buffered frame of an event without a receipt in `before` is valid for a run in `invalid`. */
  ghost predicate NoneBufferedValid(buffered: seq<(EventKey, Labelled)>, before: map<EventKey, Labelled>, invalid: set<string>) {
    forall i, r :: 0 <= i < |buffered| && buffered[i].0 !in before && r in invalid ==> !ValidFor(buffered[i].1, r)
  }

  /** Any two buffered copies of one event that carry a run label are the same frame. */
  ghost predicate CopiesAgree(buffered: seq<(EventKey, Labelled)>) {
    forall i, j :: (&& 0 <= i < j < |buffered| && buffered[i].0 == buffered[j].0
                    && buffered[i].1.run.Some? && buffered[j].1.run.Some?) ==> buffered[i].1 == buffered[j].1
  }

  lemma BufferedFollowReceipts(buffered: seq<(EventKey, Labelled)>, r0: map<EventKey, Labelled>, d0: Data,
                               r1: map<EventKey, Labelled>, d1: Data)
    requires ReceiptedOk(buffered, r1) && Later(r0, d0, r1, d1)
    ensures NoneBufferedValid(buffered, r0, d0.invalidRuns) && CopiesAgree(buffered)
  {
  }

  /** What is buffered for an event: its receipt if the run lease speaks for it, else its bound frame without a label. */
  ghost function Expected(k: EventKey, frame: Frame, records: map<string, Record>, receipts: map<EventKey, Labelled>): Labelled {
    if k.session in records && Governed(records[k.session], frame.attributes) && k in receipts
    then receipts[k] else Labelled(frame, None)
  }

  /** Whatever was appended to the buffer is the expected frame, acknowledged or not; a quarantined event had bad poll evidence. */
  ghost predicate Delivered(outcome: Outcome, k: EventKey, expected: Labelled, now: int,
                            before: seq<(EventKey, Labelled)>, after: seq<(EventKey, Labelled)>) {
    match outcome
    case Buffered(l) => l == expected && after == before + [(k, l)]
    case Quarantined => after == before && !PollOk(k, now)
    case Retry => after == before || after == before + [(k, expected)]
  }

  /** A new receipt is a first classification of this moment, of a frame the run lease speaks for. */
  ghost predicate NewReceipt(k: EventKey, frame: Frame, records: map<string, Record>, before: map<EventKey, Labelled>,
                             after: map<EventKey, Labelled>, archives: map<string, Data>, live: Data) {
    k in after && k !in before ==>
      && k.session in records && Governed(records[k.session], frame.attributes)
      && FirstLabel(after[k], k, frame, archives, live, records[k.session].snapshot.revision)
  }

  /** What one delivery did, by the frame its session binds the event to, if any. */
  datatype Step = Step(before: seq<(EventKey, Labelled)>, after: seq<(EventKey, Labelled)>,
                       receipts: map<EventKey, Labelled>, receipts': map<EventKey, Labelled>, archives: map<string, Data>, live: Data)

  /** An event that binds to nothing buffers and classifies nothing; a bound one is delivered, and classified at most once. */
  ghost predicate Handled(outcome: Outcome, k: EventKey, bound: Option<Frame>, records: map<string, Record>, now: int, s: Step) {
    match bound
    case None => !outcome.Buffered? && s.after == s.before && s.receipts' == s.receipts
    case Some(frame) =>
      && Delivered(outcome, k, Expected(k, frame, records, s.receipts'), now, s.before, s.after)
      && NewReceipt(k, frame, records, s.receipts, s.receipts', s.archives, s.live)
  }

  /** The archived sessions. Snapshots are immutable; verification and the run clock are only ever added. */
  class SessionStore {
    const scope: ClockStage.Scope
    var records: map<string, Record>
    ghost var owned: set<Bound>

    ghost predicate Valid()
      reads this`records, this`owned
    {
      StoreOk(records, owned, scope)
    }

    constructor (scope: ClockStage.Scope)
      ensures Valid() && this.scope == scope && records == map[] && owned == {}
    {
      this.scope, records, owned := scope, map[], {};
    }

    /** A new session under a fresh random id. */
    method Create(id: string, snapshot: ClockStage.Snapshot, digest: string)
      requires Valid() && id !in records && ClockStage.Acceptable(snapshot, scope, digest)
      modifies this
      ensures Valid() && owned == old(owned) && Kept(old(records), records)
      ensures records == old(records)[id := Record(snapshot, digest, false, "")]
    {
      ghost var before := records;
      records := records[id := Record(snapshot, digest, false, "")];
      RecordsGrow(owned, before, records);
    }

    /** Records what was learned about a session without touching the snapshot it was configured with. */
    method Learn(id: string, verified: bool, runClockId: string)
      requires Valid() && id in records && (records[id].verified ==> verified)
      requires records[id].runClockId == "" || records[id].runClockId == runClockId
      modifies this
      ensures Valid() && owned == old(owned) && Kept(old(records), records)
      ensures records.Keys == old(records).Keys && forall j :: j in records && j != id ==> records[j] == old(records)[j]
      ensures records[id] == Record(old(records)[id].snapshot, old(records)[id].digest, verified, runClockId)
    {
      LearnKept(records, owned, id, verified, runClockId, scope);
      records := Learned(records, id, verified, runClockId);
    }

    /** Binds an event to its own session: unknown, unverified or mismatched sessions bind nothing. */
    method Bind(k: EventKey, revision: string) returns (f: Option<Frame>)
      requires Valid()
      modifies this`owned
      ensures Valid() && old(owned) <= owned && (f.Some? ==> (k, f.value) in owned)
      ensures f == BoundTo(k, revision, records, scope)
      ensures f.Some? ==> k.session in records && SameEvidence(f.value, k.event)
    {
      f := FrameOf(k, revision);
      if f.Some? {
        Own((k, f.value));
      }
    }

    ghost method Own(b: Bound)
      requires Valid() && MayOwn(b, records)
      modifies this`owned
      ensures Valid() && owned == old(owned) + {b}
    {
      OneMoreBound(owned, b, records, scope);
      owned := owned + {b};
    }

    method FrameOf(k: EventKey, revision: string) returns (f: Option<Frame>)
      requires AllArchived(records, scope)
      ensures f == BoundTo(k, revision, records, scope)
      ensures f.Some? ==> MayOwn((k, f.value), records) && SameEvidence(f.value, k.event)
    {
      f := None;
      if k.session in records && records[k.session].verified && revision == records[k.session].snapshot.revision {
        f := BoundFrame(k.event, records[k.session], scope);
        if f.Some? {
          BoundFrameCarriesItsPoint(k.event, records[k.session], scope);
          BoundFrameIsTheSample(k.event, records[k.session], scope);
          EvidenceIsKept(k.event, records[k.session], scope);
        }
      }
    }
  }

  /** The run lease in force, the per-session archives and the classification receipts. */
  class RunBinding {
    const runScope: Scope
    const file: File
    var ledger: Ledger?
    var archives: map<string, Data>
    var receipts: map<EventKey, Labelled>
    ghost var invalidThen: map<EventKey, set<string>>  // runs on record as invalid when the event was first classified
    ghost var bound: set<Bound>

    ghost predicate LedgerOk()
      reads this`ledger, this`archives, file, ledger
    {
      && Opens(file.content, runScope) && ArchivesOk(archives, file.content, runScope)
      && (ledger != null ==> ledger.file == file && ledger.scope == runScope && ledger.Ok())
    }

    ghost predicate ReceiptsInv()
      reads this`receipts, this`invalidThen, this`bound
    {
      ReceiptsOk(receipts, invalidThen, bound)
    }

    constructor (runScope: Scope, file: File)
      requires Opens(file.content, runScope)
      ensures LedgerOk() && ReceiptsInv() && this.file == file && this.runScope == runScope && ledger == null && bound == {}
    {
      this.runScope, this.file := runScope, file;
      ledger, archives, receipts, invalidThen, bound := null, map[], map[], map[], {};
    }

    /** A gateway restart loses only the ledger object. */
    method Restart()
      requires LedgerOk()
      modifies this`ledger
      ensures LedgerOk() && ledger == null
    {
      ledger := null;
    }

    /** Opens the existing ledger and commits the operator's lease; a refused lease leaves run labelling off. */
    method Enable(e: Envelope, now: int) returns (ok: bool)
      requires LedgerOk() && ledger == null
      modifies this`ledger, file
      ensures LedgerOk() && Grows(old(file.content), file.content) && (ok <==> ledger != null) && (ledger != null ==> fresh(ledger))
      ensures ok ==> !Refused(old(file.content), runScope, e, now) && file.content == Committed(old(file.content), runScope, e, now)
    {
      ok := false;
      var l := OpenLedger(file, runScope);
      if l != null {
        ok := l.Commit(e, now);
        if ok {
          ledger := l;
        }
      }
    }

    /** Before the producer resumes, the lease is applied and archived for the session; an existing archive is never replaced. */
    method Activate(id: string, now: int) returns (ok: bool)
      requires LedgerOk() && ledger != null
      modifies this`archives, ledger, file
      ensures LedgerOk() && Grows(old(file.content), file.content)
      ensures archives == if ok then old(archives)[id := file.content.(appliedAt := Some(now))] else old(archives)
      ensures ok ==> id !in old(archives) && file.content.appliedAt.Some?
    {
      ok := ledger.Apply(now);
      if !ok {
        return;
      }
      var archived := ledger.Archive(now);
      if archived.None? || id in archives {
        return false;
      }
      archives := archives[id := archived.value];
    }

    /** Reset evidence invalidates the archived run on the durable ledger before anything else happens. */
    method RecordReset(archive: Data) returns (ok: bool)
      requires LedgerOk() && ledger != null && archive.envelope.Some? && Opens(archive, runScope)
      modifies ledger, file
      ensures LedgerOk() && Grows(old(file.content), file.content)
      ensures ok ==> CurrentRun(archive).Some? && CurrentRun(archive).value in file.content.invalidRuns
    {
      ok := ledger.InvalidateContext(archive.envelope.value);
    }

    /** The verdict of this moment; none while the ledger needs recovery. */
    method VerdictNow(archive: Data, revision: string, start: int, end: int) returns (v: Option<Verdict>)
      requires LedgerOk() && ledger != null && archive.envelope.Some? && Opens(archive, runScope)
      ensures v.Some? ==> v.value == LabelFor(archive, file.content, revision, start, end)
      ensures v.Some? && v.value.Valid? ==> v.value.runId !in file.content.invalidRuns
    {
      if ledger.failed || ledger.context.None? {
        return None;
      }
      var c := archive.envelope.value.decoded.value;
      var result := Judge(archive, c, revision, start, end);
      if c.runId in ledger.data.invalidRuns {
        result := Invalid("reset_detected");
      } else if ledger.context.value.runId != c.runId {
        result := Unverified("generation_history_unavailable");
      }
      v := Some(result);
      ValidLabel(archive, ledger.data, revision, start, end);
    }

    ghost predicate JudgedNow(l: RunLabel, session: string, revision: string, start: int, end: int)
      reads this`archives, file
    {
      && session in archives && CurrentRun(archives[session]).Some?
      && l == RunLabel(LabelFor(archives[session], file.content, revision, start, end), archives[session].committedAt, archives[session].appliedAt)
    }

    /** Judging an event by its session's archive and the live ledger; reset evidence counts against its own run first. */
    method Judgement(k: EventKey, revision: string, reset: bool, start: int, end: int) returns (verdictLabel: Option<RunLabel>)
      requires LedgerOk() && ledger != null
      modifies ledger, file
      ensures LedgerOk() && Grows(old(file.content), file.content)
      ensures verdictLabel.Some? && verdictLabel.value.verdict.Valid? ==> verdictLabel.value.verdict.runId !in file.content.invalidRuns
      ensures verdictLabel.Some? ==> JudgedNow(verdictLabel.value, k.session, revision, start, end)
      ensures verdictLabel.Some? && reset ==> CurrentRun(archives[k.session]).value in file.content.invalidRuns
    {
      var readable: bool := *;
      if k.session !in archives || !readable {
        return None;
      }
      var archive := archives[k.session];
      if reset {
        var recorded := RecordReset(archive);
        if !recorded {
          return None;
        }
      }
      var verdict := VerdictNow(archive, revision, start, end);
      if verdict.None? {
        return None;
      }
      verdictLabel := Some(RunLabel(verdict.value, archive.committedAt, archive.appliedAt));
    }

    /** The receipt file: written, or not, or written although an error was reported. */
    method Keep(k: EventKey, labelled: Labelled) returns (l: Option<Labelled>)
      requires ReceiptsInv() && k !in receipts
      requires forall r :: r in file.content.invalidRuns ==> !ValidFor(labelled, r)
      modifies this`receipts, this`invalidThen, this`bound
      ensures ReceiptsInv() && Extends(old(receipts), receipts, k) && bound <= old(bound) + {(k, labelled.frame)}
      ensures l.Some? ==> k in receipts && l.value == labelled
      ensures k in receipts ==> receipts[k] == labelled && invalidThen[k] == file.content.invalidRuns
    {
      var ok, tookEffect: bool := *, *;
      if ok || tookEffect {
        receipts := receipts[k := labelled];
        invalidThen := invalidThen[k := file.content.invalidRuns];
        bound := bound + {(k, labelled.frame)};
      }
      l := if ok then Some(labelled) else None;
    }

    /**
     First classification of an event, committed as a receipt before it is used. Whatever
     happens, it is not labelled valid for a run already on record as invalid.
     */
    method Classify(k: EventKey, revision: string, frame: Frame) returns (l: Option<Labelled>)
      requires SameEvidence(frame, k.event) && LedgerOk() && ReceiptsInv() && ledger != null && k !in receipts && k.start.at.Some? && k.end.at.Some?
      modifies this`receipts, this`invalidThen, this`bound, ledger, file
      ensures LedgerOk() && ReceiptsInv() && Grows(old(file.content), file.content)
      ensures Extends(old(receipts), receipts, k) && bound <= old(bound) + {(k, frame)}
      ensures k in receipts ==> invalidThen[k] == file.content.invalidRuns
      ensures k in receipts ==> FirstLabel(receipts[k], k, frame, archives, file.content, revision)
      ensures k in receipts && IsReset(k.event) ==>
                ArchivedRun(archives, k.session).Some? && ArchivedRun(archives, k.session).value in file.content.invalidRuns
      ensures l.Some? ==> k in receipts && receipts[k] == l.value
    {
      var reset := Attr(frame.attributes, "sim_time_quality") == "reset";
      var verdictLabel := Judgement(k, revision, reset, k.start.at.value, k.end.at.value);
      l := None;
      if verdictLabel.Some? {
        l := Keep(k, Labelled(frame, verdictLabel));
      }
    }

    /** Missing or unreadable poll times, an inverted or future interval, or an observation outside it. */
    method BadPoll(k: EventKey, now: int) returns (bad: bool)
      ensures bad <==> !PollOk(k, now)
    {
      if k.start.at.None? || k.end.at.None? || k.event.timestamp.at.None? {
        return true;
      }
      var start, end, observed := k.start.at.value, k.end.at.value, k.event.timestamp.at.value;
      bad := end < start || observed < start || observed > end || end > now;
    }

    /** The run label of a bound frame: none needed, an existing receipt, a first classification, or bad poll evidence. */
    method BindRun(k: EventKey, record: Record, frame: Frame, now: int) returns (l: Option<Labelled>, badPoll: bool)
      requires SameEvidence(frame, k.event) && LedgerOk() && ReceiptsInv()
      modifies this`receipts, this`invalidThen, this`bound, ledger, file
      ensures LedgerOk() && ReceiptsInv() && Later(old(receipts), old(file.content), receipts, file.content)
      ensures bound <= old(bound) + {(k, frame)} && Extends(old(receipts), receipts, k)
      ensures k in receipts && k !in old(receipts) ==>
                Governed(record, frame.attributes) && FirstLabel(receipts[k], k, frame, archives, file.content, record.snapshot.revision)
      ensures k in receipts && k !in old(receipts) && IsReset(k.event) ==>
                ArchivedRun(archives, k.session).Some? && ArchivedRun(archives, k.session).value in file.content.invalidRuns
      ensures !Governed(record, frame.attributes) ==> l == Some(Labelled(frame, None))
      ensures l.Some? && Governed(record, frame.attributes) ==> PollOk(k, now) && k in receipts && l.value == receipts[k]
      ensures badPoll ==> l.None? && !PollOk(k, now)
    {
      l, badPoll := None, false;
      if record.runClockId == "" || Attr(frame.attributes, "sim_clock_id") != record.runClockId {
        l := Some(Labelled(frame, None));
      } else if ledger != null && record.runClockId == runScope.clockId {
        badPoll := BadPoll(k, now);
        if !badPoll && k in receipts {
          l := Some(receipts[k]);
        } else if !badPoll {
          l := Classify(k, record.snapshot.revision, frame);
        }
      }
    }
  }

  class Worker {
    const store: SessionStore
    const runs: RunBinding
    var buffered: seq<(EventKey, Labelled)>
    var quarantined: set<EventKey>

    /** Receipts and buffered frames hold established bindings only. */
    ghost predicate FramesOk()
      reads this`buffered, store`owned, store`records, runs, runs.file, runs.ledger
    {
      && runs.LedgerOk() && runs.ReceiptsInv()
      && runs.bound <= store.owned && BufferedOk(buffered, store.owned)
      && GovernedOk(runs.receipts, store.records) && ReceiptedOk(buffered, runs.receipts)
      && ResetsOk(runs.receipts, runs.archives, runs.file.content.invalidRuns)
    }

    /** Every receipt and every buffered frame carries the point of its own verified session. */
    ghost predicate Valid()
      reads this`buffered, store, runs, runs.file, runs.ledger
    {
      store.Valid() && FramesOk()
    }

    constructor (store: SessionStore, runs: RunBinding)
      requires store.Valid() && runs.LedgerOk() && runs.ReceiptsInv() && runs.bound == {} && runs.receipts == map[]
      ensures Valid() && this.store == store && this.runs == runs && buffered == []
    {
      this.store, this.runs := store, runs;
      buffered, quarantined := [], {};
    }

    /** Label, then buffer: a failed buffer write or acknowledgement means another delivery, with the same receipt. */
    method Deliver(k: EventKey, frame: Frame, now: int) returns (outcome: Outcome)
      requires FramesOk() && (k, frame) in store.owned && k.session in store.records
      requires SameEvidence(frame, k.event)
      modifies this`buffered, this`quarantined, runs`receipts, runs`invalidThen, runs`bound, runs.ledger, runs.file
      ensures FramesOk() && Later(old(runs.receipts), old(runs.file.content), runs.receipts, runs.file.content)
      ensures outcome.Quarantined? ==> k in quarantined
      ensures Delivered(outcome, k, Expected(k, frame, store.records, runs.receipts), now, old(buffered), buffered)
      ensures NewReceipt(k, frame, store.records, old(runs.receipts), runs.receipts, runs.archives, runs.file.content)
      ensures Continues(old(buffered), old(runs.receipts), buffered)
    {
      var l, badPoll := Label(k, frame, now);
      outcome := Finish(k, l, badPoll, now, Expected(k, frame, store.records, runs.receipts), old(runs.receipts));
    }

    /** Quarantine bad evidence, write a frame to be buffered, and otherwise leave the event for redelivery. */
    method Finish(k: EventKey, l: Option<Labelled>, badPoll: bool,
                  ghost now: int, ghost expected: Labelled, ghost earlier: map<EventKey, Labelled>) returns (outcome: Outcome)
      requires BufferedOk(buffered, store.owned) && ReceiptedOk(buffered, runs.receipts)
      requires l.Some? ==> l.value == expected && (k, expected.frame) in store.owned
      requires l.Some? && expected.run.Some? ==> k in runs.receipts && runs.receipts[k] == expected
      requires l.Some? && k in earlier ==> expected == earlier[k]
      requires badPoll ==> !PollOk(k, now)
      modifies this`buffered, this`quarantined
      ensures BufferedOk(buffered, store.owned) && ReceiptedOk(buffered, runs.receipts)
      ensures Delivered(outcome, k, expected, now, old(buffered), buffered) && (outcome.Quarantined? ==> k in quarantined)
      ensures Continues(old(buffered), earlier, buffered)
    {
      outcome := Retry;
      if badPoll {
        outcome := Quarantine(k);
      } else if l.Some? {
        outcome := Write(k, l.value);
      }
    }

    /** The frame to buffer, if any: its event's receipt when it has one, and otherwise no labelled frame without one. */
    method Label(k: EventKey, frame: Frame, now: int) returns (l: Option<Labelled>, badPoll: bool)
      requires FramesOk() && (k, frame) in store.owned && k.session in store.records
      requires SameEvidence(frame, k.event)
      modifies runs`receipts, runs`invalidThen, runs`bound, runs.ledger, runs.file
      ensures FramesOk() && Later(old(runs.receipts), old(runs.file.content), runs.receipts, runs.file.content)
      ensures l.Some? ==> (k, l.value.frame) in store.owned && (k in old(runs.receipts) ==> l.value == old(runs.receipts)[k])
      ensures l.Some? && l.value.run.Some? ==> k in runs.receipts && runs.receipts[k] == l.value
      ensures l.Some? ==> l.value == Expected(k, frame, store.records, runs.receipts)
      ensures badPoll ==> l.None? && !PollOk(k, now)
      ensures NewReceipt(k, frame, store.records, old(runs.receipts), runs.receipts, runs.archives, runs.file.content)
    {
      l, badPoll := runs.BindRun(k, store.records[k.session], frame, now);
      OneMoreGoverned(old(runs.receipts), runs.receipts, k, store.records);
      OneMoreReset(old(runs.receipts), runs.receipts, k, runs.archives, old(runs.file.content), runs.file.content);
      ReceiptedGrow(buffered, old(runs.receipts), runs.receipts);
    }

    method Write(k: EventKey, l: Labelled) returns (outcome: Outcome)
      requires BufferedOk(buffered, store.owned) && (k, l.frame) in store.owned
      requires ReceiptedOk(buffered, runs.receipts) && (l.run.Some? ==> k in runs.receipts && runs.receipts[k] == l)
      modifies this`buffered
      ensures BufferedOk(buffered, store.owned) && ReceiptedOk(buffered, runs.receipts) && (outcome == Buffered(l) || outcome == Retry)
      ensures outcome.Buffered? ==> buffered == old(buffered) + [(k, l)]
      ensures buffered == old(buffered) || buffered == old(buffered) + [(k, l)]
    {
      var written, acked: bool := *, *;
      if written {
        buffered := buffered + [(k, l)];
      }
      outcome := if written && acked then Buffered(l) else Retry;
    }

    method Attempt(k: EventKey, revision: string, now: int) returns (outcome: Outcome)
      requires Valid()
      modifies this`buffered, this`quarantined, store`owned, runs`receipts, runs`invalidThen, runs`bound, runs.ledger, runs.file
      ensures Valid() && Later(old(runs.receipts), old(runs.file.content), runs.receipts, runs.file.content)
      ensures Handled(outcome, k, BoundTo(k, revision, store.records, store.scope), store.records, now,
                      Step(old(buffered), buffered, old(runs.receipts), runs.receipts, runs.archives, runs.file.content))
      ensures Continues(old(buffered), old(runs.receipts), buffered)
      ensures outcome.Quarantined? ==> k in quarantined
    {
      var frame := store.Bind(k, revision);
      outcome := Handle(k, frame, now);
    }

    method Handle(k: EventKey, bound: Option<Frame>, now: int) returns (outcome: Outcome)
      requires FramesOk()
      requires bound.Some? ==> (k, bound.value) in store.owned && k.session in store.records && SameEvidence(bound.value, k.event)
      modifies this`buffered, this`quarantined, runs`receipts, runs`invalidThen, runs`bound, runs.ledger, runs.file
      ensures FramesOk() && Later(old(runs.receipts), old(runs.file.content), runs.receipts, runs.file.content)
      ensures Handled(outcome, k, bound, store.records, now,
                      Step(old(buffered), buffered, old(runs.receipts), runs.receipts, runs.archives, runs.file.content))
      ensures Continues(old(buffered), old(runs.receipts), buffered)
      ensures outcome.Quarantined? ==> k in quarantined
    {
      if bound.Some? {
        outcome := Deliver(k, bound.value, now);
      } else {
        LaterSame(runs.receipts, runs.file.content, runs.file.content);
        outcome := Quarantine(k);
      }
    }

    /** One delivery of one event: buffered for its own session, quarantined, or left for redelivery. */
    method Process(k: EventKey, revision: string, now: int) returns (outcome: Outcome)
      requires Valid()
      modifies this`buffered, this`quarantined, store`owned, runs`receipts, runs`invalidThen, runs`bound, runs.ledger, runs.file
      ensures Valid() && Later(old(runs.receipts), old(runs.file.content), runs.receipts, runs.file.content)
      ensures Handled(outcome, k, BoundTo(k, revision, store.records, store.scope), store.records, now,
                      Step(old(buffered), buffered, old(runs.receipts), runs.receipts, runs.archives, runs.file.content))
      ensures Continues(old(buffered), old(runs.receipts), buffered)
      ensures LabelsHold(old(runs.receipts), old(runs.archives), old(runs.file.content), runs.receipts, buffered)
      ensures outcome.Quarantined? ==> k in quarantined
    {
      outcome := Attempt(k, revision, now);
      LabelsFollow(old(runs.receipts), old(runs.archives), old(runs.file.content), runs.receipts, runs.file.content, buffered);
    }

    /** A quarantine record that cannot be written leaves the event for redelivery. */
    method Quarantine(k: EventKey) returns (outcome: Outcome)
      modifies this`quarantined
      ensures if outcome.Quarantined? then quarantined == old(quarantined) + {k} else outcome.Retry? && quarantined == old(quarantined)
    {
      var persisted: bool := *;
      if persisted {
        quarantined := quarantined + {k};
      }
      outcome := if persisted then Quarantined else Retry;
    }
  }

  /**
   Any life of the gateway: sessions created, verified and activated, leases enabled, restarts,
   and deliveries in any order, acknowledged or not. Receipts never change, history only grows,
   and once a run is on record as invalid, or an event has been classified as a reset of it, no
   event first classified afterwards is ever labelled valid for it, nor any frame of such an
   event buffered so. Every further copy buffered for a classified event is the identical frame.
   */
  method AnyLife(w: Worker, steps: nat)
    requires w.Valid()
    modifies w, w.store, w.runs, w.runs.file, w.runs.ledger
    ensures w.Valid() && Later(old(w.runs.receipts), old(w.runs.file.content), w.runs.receipts, w.runs.file.content)
    ensures Continues(old(w.buffered), old(w.runs.receipts), w.buffered)
    ensures LabelsHold(old(w.runs.receipts), old(w.runs.archives), old(w.runs.file.content), w.runs.receipts, w.buffered)
  {
    ghost var r0, d0, b0 := w.runs.receipts, w.runs.file.content, w.buffered;
    for i := 0 to steps
      invariant w.Valid() && Later(r0, d0, w.runs.receipts, w.runs.file.content) && Continues(b0, r0, w.buffered)
      invariant w.runs.ledger == old(w.runs.ledger) || w.runs.ledger == null || fresh(w.runs.ledger)
    {
      ghost var r1, d1, b1 := w.runs.receipts, w.runs.file.content, w.buffered;
      Live(w);
      LaterTrans(r0, d0, r1, d1, w.runs.receipts, w.runs.file.content);
      ContinuesTrans(b0, r0, b1, r1, w.buffered);
    }
    LabelsFollow(r0, old(w.runs.archives), d0, w.runs.receipts, w.runs.file.content, w.buffered);
  }

  /** One event in the gateway's life. */
  method Live(w: Worker)
    requires w.Valid()
    modifies w, w.store, w.runs, w.runs.file, w.runs.ledger
    ensures w.Valid() && Later(old(w.runs.receipts), old(w.runs.file.content), w.runs.receipts, w.runs.file.content)
    ensures w.runs.ledger == old(w.runs.ledger) || w.runs.ledger == null || fresh(w.runs.ledger)
    ensures Continues(old(w.buffered), old(w.runs.receipts), w.buffered)
  {
    var deliver: bool := *;
    if deliver {
      var k: EventKey, revision: string, now: int := *, *, *;
      var outcome := w.Process(k, revision, now);
    } else {
      Administer(w);
    }
  }

  /** One administrative step: a session or lease operation, or a restart. */
  method Administer(w: Worker)
    requires w.Valid()
    modifies w.store, w.runs, w.runs.file, w.runs.ledger
    ensures w.Valid() && Later(old(w.runs.receipts), old(w.runs.file.content), w.runs.receipts, w.runs.file.content)
    ensures w.runs.ledger == old(w.runs.ledger) || w.runs.ledger == null || fresh(w.runs.ledger)
  {
    var lease: bool := *;
    if lease {
      AdministerLease(w);
    } else {
      ghost var records := w.store.records;
      ManageSession(w.store, w.runs.runScope.clockId);
      GovernedGrow(w.runs.receipts, records, w.store.records);
    }
  }

  method AdministerLease(w: Worker)
    requires w.FramesOk()
    modifies w.runs`ledger, w.runs`archives, w.runs.file, w.runs.ledger
    ensures w.FramesOk() && Later(old(w.runs.receipts), old(w.runs.file.content), w.runs.receipts, w.runs.file.content)
    ensures w.runs.ledger == old(w.runs.ledger) || w.runs.ledger == null || fresh(w.runs.ledger)
  {
    ghost var d, archives := w.runs.file.content, w.runs.archives;
    ManageLease(w.runs);
    ResetsGrow(w.runs.receipts, archives, w.runs.archives, d, w.runs.file.content);
    LaterSame(w.runs.receipts, d, w.runs.file.content);
  }

  /** A restart, the operator's lease, or its activation for a session. */
  method ManageLease(runs: RunBinding)
    requires runs.LedgerOk()
    modifies runs`ledger, runs`archives, runs.file, runs.ledger
    ensures runs.LedgerOk() && Grows(old(runs.file.content), runs.file.content) && ArchivesGrow(old(runs.archives), runs.archives)
    ensures runs.ledger == old(runs.ledger) || runs.ledger == null || fresh(runs.ledger)
  {
    var restart: bool := *;
    var now: int := *;
    if restart {
      runs.Restart();
    } else if runs.ledger == null {
      var e: Envelope := *;
      var ok := runs.Enable(e, now);
    } else {
      var id: string := *;
      var ok := runs.Activate(id, now);
    }
  }

  /** A new session from a staged snapshot, its verification, or its run clock. */
  method ManageSession(store: SessionStore, runClockId: string)
    requires store.Valid()
    modifies store
    ensures store.Valid() && store.owned == old(store.owned) && Kept(old(store.records), store.records)
  {
    var create: bool := *;
    var id, digest: string := *, *;
    var snapshot: ClockStage.Snapshot := *;
    if create && id !in store.records {
      var staged := ClockStage.StageClockSnapshot(snapshot, store.scope, digest);
      if staged.Ok? {
        store.Create(id, snapshot, digest);
      }
    } else if id in store.records {
      var verified, activated: bool := *, *;
      var r := store.records[id];
      store.Learn(id, verified || r.verified, if activated && r.runClockId == "" then runClockId else r.runClockId);
    }
  }
}
