/**
 Binding an event to the archived session that produced it (internal/clocksync/gateway.go,
 boundFrame, and internal/clocksync/sessions.go): which point a buffered frame carries.
 */
module Sessions {
  import opened Prelude
  import opened PointList
  import PointSync
  import ClockStage

  type Attributes = map<string, string>

  /** A timestamp as sent and as parsed, if it parses. */
  datatype Stamp = Stamp(raw: string, at: Option<int>)

  datatype Event = Event(
    protocol: string, connectorId: string, localId: string, deviceRef: string, timestamp: Stamp,
    unit: string, quality: string, value: Option<string>, attributes: Attributes)

  /** One archived session: the validated snapshot it was configured with, and what has been proved about it since. */
  datatype Record = Record(snapshot: ClockStage.Snapshot, digest: string, verified: bool, runClockId: string)

  datatype Frame = Frame(pointId: string, timestamp: string, value: string, attributes: Attributes)

  ghost predicate Archived(r: Record, scope: ClockStage.Scope) {
    ClockStage.Acceptable(r.snapshot, scope, r.digest)
  }

  function Entries(r: Record, scope: ClockStage.Scope): seq<Entry> {
    ClockStage.Entries(r.snapshot.points, scope)
  }

  function Attr(a: Attributes, key: string): string {
    if key in a then a[key] else ""
  }

  predicate SimKey(key: string) {
    |key| >= 4 && key[..4] == "sim_"
  }

  /** The event names an ordinary point of the session's own snapshot, on the right device. */
  predicate NamesPoint(e: Event, entries: seq<Entry>) {
    exists i ::
      && 0 <= i < |entries| && entries[i].releaseOf == "" && entries[i].localId == e.localId
      && entries[i].deviceRef == e.deviceRef
      && forall j :: 0 <= j < i ==> !(entries[j].releaseOf == "" && entries[j].localId == e.localId)
  }

  /** Does a clock of the snapshot govern this native address? */
  predicate Governs(c: ClockStage.NativeClock, localId: string) {
    localId in c.pointLocalIds
  }

  predicate ClockEvidence(e: Event, clocks: seq<ClockStage.NativeClock>, revision: string) {
    && (forall i :: 0 <= i < |clocks| && Governs(clocks[i], e.localId) ==>
                      && Attr(e.attributes, "sim_clock_id") == clocks[i].clockId
                      && Attr(e.attributes, "sim_config_revision") == revision
                      && Attr(e.attributes, "sim_run_status") == "absent")
    && ((exists i :: 0 <= i < |clocks| && Governs(clocks[i], e.localId)) || forall k :: k in e.attributes ==> !SimKey(k))
  }

  predicate WellFormed(e: Event, scope: ClockStage.Scope) {
    && e.protocol == "bacnet" && e.connectorId == scope.connectorId && e.timestamp.raw != "" && e.timestamp.at.Some?
    && "sim_run_id" !in e.attributes && "sim_step_id" !in e.attributes && "sim_context_generation" !in e.attributes
    && Attr(e.attributes, "sim_run_status") in {"", "absent"}
  }

  /** Normalisation by a resolver built from the snapshot's own entries. */
  function Normalized(e: Event, entries: seq<Entry>): Option<Frame> {
    var forward := PointSync.ByLocal(entries);
    var key := e.connectorId + ['\0'] + e.localId;
    if key !in forward || e.value.None? then None
    else
      var units := if e.unit != "" then e.attributes["unit" := e.unit] else e.attributes;
      var all := if e.quality != "" && e.quality != "Good" then units["quality" := e.quality] else units;
      Some(Frame(forward[key], e.timestamp.raw, e.value.value, all))
  }

  function BoundFrame(e: Event, r: Record, scope: ClockStage.Scope): Option<Frame> {
    if !WellFormed(e, scope) || !NamesPoint(e, Entries(r, scope))
       || !ClockEvidence(e, ClockStage.StagedClocks(r.snapshot), r.snapshot.revision)
    then None
    else Normalized(e, Entries(r, scope))
  }

  // ---- In the terms of the session's own snapshot ----

  /** An ordinary point whose native object has this address. */
  ghost predicate PointAt(p: ClockStage.Point, localId: string) {
    p.releaseOf == "" && p.native.Some? && localId == p.native.value.objectType + "," + p.native.value.instanceNo
  }

  /** The point is the one the session's snapshot has at the event's native address, on the event's device. */
  ghost predicate Carries(pointId: string, e: Event, r: Record) {
    var points := r.snapshot.points;
    exists i ::
      && 0 <= i < |points| && PointAt(points[i], e.localId) && points[i].pointId == pointId
      && points[i].native.value.deviceId == e.deviceRef
      && forall j :: 0 <= j < |points| && PointAt(points[j], e.localId) ==> j == i
  }

  /** A clock of the snapshot governs the point at this address. */
  ghost predicate Clocks(clockId: string, localId: string, s: ClockStage.Snapshot) {
    exists k :: 0 <= k < |s.points| && PointAt(s.points[k], localId) && ClockStage.Governed(s.points[k], s.clockBindings, clockId)
  }

  ghost predicate HasPoint(e: Event, s: ClockStage.Snapshot) {
    exists i :: 0 <= i < |s.points| && PointAt(s.points[i], e.localId) && s.points[i].native.value.deviceId == e.deviceRef
  }

  /** Every clock that governs the point is named by the event, with this configuration and no run yet; without one there is no simulation attribute at all. */
  ghost predicate NamesClock(e: Event, s: ClockStage.Snapshot) {
    && (forall i :: 0 <= i < |s.clockSources| && Clocks(s.clockSources[i].clockId, e.localId, s) ==>
                      && Attr(e.attributes, "sim_clock_id") == s.clockSources[i].clockId
                      && Attr(e.attributes, "sim_config_revision") == s.revision
                      && Attr(e.attributes, "sim_run_status") == "absent")
    && (|| (exists i :: 0 <= i < |s.clockSources| && Clocks(s.clockSources[i].clockId, e.localId, s))
        || forall k :: k in e.attributes ==> !("sim_" <= k))
  }

  /** A BACnet sample of the connector in scope with a readable time and a value, which claims no run. */
  ghost predicate Sample(e: Event, scope: ClockStage.Scope) {
    && e.protocol == "bacnet" && e.connectorId == scope.connectorId && e.timestamp.raw != "" && e.timestamp.at.Some? && e.value.Some?
    && e.attributes.Keys !! {"sim_run_id", "sim_step_id", "sim_context_generation"}
    && (Attr(e.attributes, "sim_run_status") == "" || Attr(e.attributes, "sim_run_status") == "absent")
  }

  lemma EntryAt(r: Record, scope: ClockStage.Scope, i: nat)
    requires Archived(r, scope) && i < |r.snapshot.points|
    ensures ClockStage.EntryDenotes(Entries(r, scope)[i], r.snapshot.points[i], scope)
  {
    ClockStage.StagedDenotes(r.snapshot, scope, r.digest);
  }

  /** The entries at an address are those of the ordinary points there. */
  lemma EntryIsPoint(r: Record, scope: ClockStage.Scope, i: nat, localId: string)
    requires Archived(r, scope) && i < |r.snapshot.points|
    ensures Entries(r, scope)[i].releaseOf == "" && Entries(r, scope)[i].localId == localId <==> PointAt(r.snapshot.points[i], localId)
    ensures PointAt(r.snapshot.points[i], localId) ==> Entries(r, scope)[i].deviceRef == r.snapshot.points[i].native.value.deviceId
    ensures Entries(r, scope)[i].pointId == r.snapshot.points[i].pointId
  {
    EntryAt(r, scope, i);
  }

  /** In an accepted snapshot a native address belongs to one point only. */
  lemma AddressIsUnique(r: Record, scope: ClockStage.Scope, i: nat, j: nat, localId: string)
    requires Archived(r, scope) && i < |r.snapshot.points| && j < |r.snapshot.points|
    requires PointAt(r.snapshot.points[i], localId) && PointAt(r.snapshot.points[j], localId)
    ensures i == j
  {
  }

  lemma KeyDetermines(e: Entry, connectorId: string, localId: string)
    requires e.connectorId == connectorId && PointSync.Key(e) == connectorId + ['\0'] + localId
    ensures e.localId == localId
  {
    assert PointSync.Key(e)[|connectorId| + 1..] == e.localId;
    assert (connectorId + ['\0'] + localId)[|connectorId| + 1..] == localId;
  }

  /** The entry by which an event's address resolved. */
  lemma ResolvedBy(e: Event, entries: seq<Entry>) returns (i: nat)
    requires Normalized(e, entries).Some? && forall j :: 0 <= j < |entries| ==> entries[j].connectorId == e.connectorId
    ensures i < |entries| && entries[i].releaseOf == "" && entries[i].localId == e.localId
    ensures entries[i].pointId == Normalized(e, entries).value.pointId
  {
    var key := e.connectorId + ['\0'] + e.localId;
    PointSync.LocalHolder(entries, key);
    i :| 0 <= i < |entries| && entries[i].releaseOf == "" && PointSync.Key(entries[i]) == key
         && entries[i].pointId == PointSync.ByLocal(entries)[key];
    KeyDetermines(entries[i], e.connectorId, e.localId);
  }

  lemma NamesPointIff(e: Event, r: Record, scope: ClockStage.Scope)
    requires Archived(r, scope)
    ensures NamesPoint(e, Entries(r, scope)) <==> HasPoint(e, r.snapshot)
  {
    var entries, points := Entries(r, scope), r.snapshot.points;
    if NamesPoint(e, entries) {
      var i :| 0 <= i < |entries| && entries[i].releaseOf == "" && entries[i].localId == e.localId && entries[i].deviceRef == e.deviceRef;
      EntryIsPoint(r, scope, i, e.localId);
    }
    if i :| 0 <= i < |points| && PointAt(points[i], e.localId) && points[i].native.value.deviceId == e.deviceRef {
      EntryIsPoint(r, scope, i, e.localId);
      forall j | 0 <= j < i
        ensures !(entries[j].releaseOf == "" && entries[j].localId == e.localId)
      {
        EntryIsPoint(r, scope, j, e.localId);
        if PointAt(points[j], e.localId) {
          AddressIsUnique(r, scope, i, j, e.localId);
        }
      }
    }
  }

  /** The addresses staged for a clock are those of the points it governs. */
  lemma GovernsIff(r: Record, scope: ClockStage.Scope, i: nat, localId: string)
    requires Archived(r, scope) && i < |r.snapshot.clockSources|
    ensures Governs(ClockStage.StagedClocks(r.snapshot)[i], localId) <==> Clocks(r.snapshot.clockSources[i].clockId, localId, r.snapshot)
  {
    var s, c := r.snapshot, r.snapshot.clockSources[i].clockId;
    var m := ClockStage.BindingMap(s.clockBindings);
    ClockStage.BoundFrom(s.points, m, c, localId);
    forall k | 0 <= k < |s.points|
      ensures ClockStage.BoundTo(s.points[k], m, c) && ClockStage.PointLocal(s.points[k]) == localId
              <==> PointAt(s.points[k], localId) && ClockStage.Governed(s.points[k], s.clockBindings, c)
    {
      ClockStage.BoundIff(s.points[k], s.clockBindings, c);
    }
  }

  lemma ClockEvidenceIff(e: Event, r: Record, scope: ClockStage.Scope)
    requires Archived(r, scope)
    ensures ClockEvidence(e, ClockStage.StagedClocks(r.snapshot), r.snapshot.revision) <==> NamesClock(e, r.snapshot)
  {
    forall i | 0 <= i < |r.snapshot.clockSources|
      ensures Governs(ClockStage.StagedClocks(r.snapshot)[i], e.localId) <==> Clocks(r.snapshot.clockSources[i].clockId, e.localId, r.snapshot)
    {
      GovernsIff(r, scope, i, e.localId);
    }
    assert forall k: string :: SimKey(k) <==> "sim_" <= k;
  }

  /** An event binds exactly when it is a sample of a point of the session's own snapshot and names that point's clock. */
  lemma BoundFrameIff(e: Event, r: Record, scope: ClockStage.Scope)
    requires Archived(r, scope)
    ensures BoundFrame(e, r, scope).Some? <==> Sample(e, scope) && HasPoint(e, r.snapshot) && NamesClock(e, r.snapshot)
  {
    NamesPointIff(e, r, scope);
    ClockEvidenceIff(e, r, scope);
    WellFormedIff(e, scope);
    if HasPoint(e, r.snapshot) && WellFormed(e, scope) {
      Resolves(e, r, scope);
    }
  }

  lemma WellFormedIff(e: Event, scope: ClockStage.Scope)
    ensures WellFormed(e, scope) && e.value.Some? <==> Sample(e, scope)
    ensures WellFormed(e, scope) ==> e.connectorId == scope.connectorId
  {
  }

  lemma Resolves(e: Event, r: Record, scope: ClockStage.Scope)
    requires Archived(r, scope) && HasPoint(e, r.snapshot) && e.connectorId == scope.connectorId
    ensures Normalized(e, Entries(r, scope)).Some? <==> e.value.Some?
  {
    var i :| 0 <= i < |r.snapshot.points| && PointAt(r.snapshot.points[i], e.localId);
    EntryIsPoint(r, scope, i, e.localId);
    PointSync.LocalPresent(Entries(r, scope), i);
    assert Entries(r, scope)[i].connectorId == scope.connectorId;
  }

  /** Every frame bound to an archived session carries the unique point its own snapshot has at the event's address. */
  lemma BoundFrameCarriesItsPoint(e: Event, r: Record, scope: ClockStage.Scope)
    requires Archived(r, scope) && BoundFrame(e, r, scope).Some?
    ensures Carries(BoundFrame(e, r, scope).value.pointId, e, r)
  {
    var points := r.snapshot.points;
    var i := ResolvedBy(e, Entries(r, scope));
    EntryIsPoint(r, scope, i, e.localId);
    NamesPointIff(e, r, scope);
    var k :| 0 <= k < |points| && PointAt(points[k], e.localId) && points[k].native.value.deviceId == e.deviceRef;
    AddressIsUnique(r, scope, i, k, e.localId);
    forall j | 0 <= j < |points| && PointAt(points[j], e.localId)
      ensures j == i
    {
      AddressIsUnique(r, scope, i, j, e.localId);
    }
  }

  /** The frame is the event's: its time, its value and every attribute of it; only the unit and a quality other than good are added. */
  ghost predicate SameSample(f: Frame, e: Event) {
    && f.timestamp == e.timestamp.raw && Some(f.value) == e.value
    && (forall k :: k != "unit" && k != "quality" ==> Attr(f.attributes, k) == Attr(e.attributes, k) && (k in f.attributes <==> k in e.attributes))
    && Attr(f.attributes, "unit") == (if e.unit != "" then e.unit else Attr(e.attributes, "unit"))
    && Attr(f.attributes, "quality") == (if e.quality in {"", "Good"} then Attr(e.attributes, "quality") else e.quality)
  }

  lemma BoundFrameIsTheSample(e: Event, r: Record, scope: ClockStage.Scope)
    requires BoundFrame(e, r, scope).Some?
    ensures SameSample(BoundFrame(e, r, scope).value, e)
  {
  }

  /** What is proved about a session grows; what it was configured with never changes. */
  ghost predicate Kept(before: map<string, Record>, after: map<string, Record>) {
    forall id :: id in before ==>
      && id in after && after[id].snapshot == before[id].snapshot && after[id].digest == before[id].digest
      && (before[id].verified ==> after[id].verified)
      && (before[id].runClockId != "" ==> after[id].runClockId == before[id].runClockId)
  }
}
