/**
 Decimal numerals, as strconv.Itoa and the connector's [0-9]+ use them.
 */
module Decimal {

  predicate IsDigit(c: char) {
    '0' <= c <= '9'
  }

  function Digit(n: nat): char
    requires n < 10
  {
    '0' + n as char
  }

  function Itoa(n: nat): string {
    if n < 10 then [Digit(n)] else Itoa(n / 10) + [Digit(n % 10)]
  }

  predicate IsNumeral(s: string) {
    s != [] && forall i :: 0 <= i < |s| ==> IsDigit(s[i])
  }

  function DigitValue(c: char): nat
    requires IsDigit(c)
  {
    c as int - '0' as int
  }

  function Value(s: string): nat
    requires forall i :: 0 <= i < |s| ==> IsDigit(s[i])
  {
    if s == [] then 0 else Value(s[..|s| - 1]) * 10 + DigitValue(s[|s| - 1])
  }

  /** Printing and reading back is the identity, so distinct numbers print differently. */
  lemma {:induction false} ItoaRoundTrip(n: nat)
    ensures IsNumeral(Itoa(n)) && Value(Itoa(n)) == n
  {
    if n < 10 {
      assert [Digit(n)][..0] == [];
    } else {
      ItoaRoundTrip(n / 10);
      var s := Itoa(n);
      assert s[..|s| - 1] == Itoa(n / 10);
    }
  }

  /** The code's test of an instance number: it parses, fits, and prints back as itself. */
  predicate IsInstance(s: string, max: nat) {
    IsNumeral(s) && Value(s) <= max && Itoa(Value(s)) == s
  }

  /** Which holds exactly of the printed numbers in range. */
  lemma IsInstanceIff(s: string, max: nat)
    ensures IsInstance(s, max) <==> exists n: nat :: n <= max && s == Itoa(n)
  {
    if n: nat :| n <= max && s == Itoa(n) {
      ItoaRoundTrip(n);
    }
  }
}

/**
 Staging a clock provisioning snapshot (internal/provisioning/clock.go), on the decoded
 structure: which snapshots are accepted, and the native bundle and mapping they produce.
 The SHA-256 of the canonical body is a parameter.
 */
module ClockStage {
  import opened Prelude
  import opened PointList
  import opened Decimal

  const MAX_DEVICE: int := 4194302
  const MAX_INSTANCE: nat := 4194303
  const SCHEMA := "clock-provisioning/1-draft"

  datatype Scope = Scope(gatewayId: string, connectorId: string, deviceId: int)

  datatype ClockNative = ClockNative(
    protocol: string, gatewayId: string, connectorId: string, deviceInstance: Option<int>,
    objectType: string, objectInstance: Option<int>, property: string, unit: string)

  datatype ClockSource = ClockSource(
    clockId: string, clockDomain: string, unit: string, readOnly: bool, acquisitionMode: string, native: ClockNative)

  datatype Binding = Binding(equipmentId: string, clockId: string)

  datatype PointNative = PointNative(protocol: string, deviceId: string, objectType: string, instanceNo: string)

  datatype Device = Device(dtId: string, id: string)

  datatype Point = Point(
    pointId: string, localId: string, protocol: string, releaseOf: string, native: Option<PointNative>,
    unit: string, writable: Option<bool>, controlSchema: string, device: Option<Device>)

  datatype Snapshot = Snapshot(
    schemaVersion: string, gatewayId: string, revision: string,
    points: seq<Point>, clockSources: seq<ClockSource>, clockBindings: seq<Binding>)

  datatype NativePoint = NativePoint(localId: string, deviceRef: string, unit: string, writable: bool)

  datatype NativeClock = NativeClock(clockId: string, localId: string, property: string, pointLocalIds: seq<string>)

  datatype Config = Config(
    revision: string, connectorId: string, deviceId: int, points: seq<NativePoint>, clocks: seq<NativeClock>)

  // ---- What a snapshot denotes ----

  /** A read-only polled simulation clock, natively addressed on the device in scope. */
  ghost predicate ClockOk(c: ClockSource, scope: Scope) {
    var n := c.native;
    && c.clockId != "" && c.clockDomain == "simulation" && c.unit == "s" && c.readOnly && c.acquisitionMode == "poll"
    && n.protocol == "bacnet" && n.gatewayId == scope.gatewayId && n.connectorId == scope.connectorId
    && n.deviceInstance == Some(scope.deviceId)
    && n.objectInstance.Some? && 0 <= n.objectInstance.value <= MAX_INSTANCE
    && (n.objectType == "analogValue" || n.objectType == "analogInput")
    && n.property == "presentValue" && n.unit == "seconds"
  }

  function ClockLocal(c: ClockSource): string {
    c.native.objectType + "," +
    (if c.native.objectInstance.Some? && c.native.objectInstance.value >= 0 then Itoa(c.native.objectInstance.value) else "")
  }

  predicate IsRelease(p: Point) {
    p.releaseOf != ""
  }

  /** Native address of an ordinary point: object type and instance. */
  function PointLocal(p: Point): string {
    match p.native
    case Some(n) => n.objectType + "," + n.instanceNo
    case None => p.localId
  }

  predicate IsWritable(p: Point) {
    p.writable == Some(true)
  }

  /** The normalizer mapping of a point, release points included. */
  function EntryOf(p: Point, scope: Scope): Entry {
    var ref := if p.native.Some? then p.native.value.deviceId else "";
    var deviceRef := if ref == "" && p.device.Some? then p.device.value.id else ref;
    Entry(p.releaseOf, scope.connectorId, "bacnet", PointLocal(p), p.pointId, p.unit, IsWritable(p), deviceRef, p.controlSchema)
  }

  function Entries(points: seq<Point>, scope: Scope): (es: seq<Entry>)
    ensures |es| == |points|
  {
    seq(|points|, i requires 0 <= i < |points| => EntryOf(points[i], scope))
  }

  function NativeOf(p: Point, scope: Scope): NativePoint {
    var e := EntryOf(p, scope);
    NativePoint(e.localId, e.deviceRef, e.unit, e.writable)
  }

  /** Only ordinary points reach the connector; release points have no native object. */
  function NativePoints(points: seq<Point>, scope: Scope): seq<NativePoint> {
    if points == [] then []
    else
      var front, p := NativePoints(points[..|points| - 1], scope), points[|points| - 1];
      if IsRelease(p) then front else front + [NativeOf(p, scope)]
  }

  function BindingMap(bindings: seq<Binding>): map<string, string> {
    if bindings == [] then map[]
    else
      var b := bindings[|bindings| - 1];
      BindingMap(bindings[..|bindings| - 1])[b.equipmentId := b.clockId]
  }

  /** The binding list as a lookup: an equipment has the clock of its one binding. */
  lemma {:induction false} BindingMapIff(bindings: seq<Binding>, equipment: string, clockId: string)
    requires forall i, j :: 0 <= i < j < |bindings| ==> bindings[i].equipmentId != bindings[j].equipmentId
    ensures equipment in BindingMap(bindings) && BindingMap(bindings)[equipment] == clockId <==> Binding(equipment, clockId) in bindings
  {
    if bindings != [] {
      var front := bindings[..|bindings| - 1];
      BindingMapIff(front, equipment, clockId);
      assert forall b :: b in bindings <==> b in front || b == bindings[|bindings| - 1];
      assert forall b :: b in front ==> b.equipmentId != bindings[|bindings| - 1].equipmentId;
    }
  }

  predicate BoundTo(p: Point, bindings: map<string, string>, clockId: string) {
    !IsRelease(p) && p.device.Some? && p.device.value.dtId in bindings && bindings[p.device.value.dtId] == clockId
  }

  /** Native addresses of the points whose equipment a clock governs. */
  function BoundIds(points: seq<Point>, bindings: map<string, string>, clockId: string): seq<string> {
    if points == [] then []
    else
      var front, p := BoundIds(points[..|points| - 1], bindings, clockId), points[|points| - 1];
      if BoundTo(p, bindings, clockId) then front + [PointLocal(p)] else front
  }

  function StagedClocks(s: Snapshot): (clocks: seq<NativeClock>)
    ensures |clocks| == |s.clockSources|
  {
    seq(|s.clockSources|, i requires 0 <= i < |s.clockSources| =>
      var c := s.clockSources[i];
      NativeClock(c.clockId, ClockLocal(c), c.native.property, BoundIds(s.points, BindingMap(s.clockBindings), c.clockId)))
  }

  function StagedConfig(s: Snapshot, scope: Scope): Config {
    Config(s.revision, scope.connectorId, scope.deviceId, NativePoints(s.points, scope), StagedClocks(s))
  }

  // ---- Which snapshots are accepted ----

  predicate IsHexDigest(digest: string) {
    |digest| == 64 && forall i :: 0 <= i < 64 ==> IsDigit(digest[i]) || 'a' <= digest[i] <= 'f'
  }

  function RevisionOf(digest: string): string {
    "\"sha256:" + digest + "\""
  }

  /** The supported schema, a sane scope that is the snapshot's own, its content digest as revision, and canonical order. */
  ghost predicate HeaderOk(s: Snapshot, scope: Scope, digest: string) {
    && s.schemaVersion == SCHEMA && scope.gatewayId != "" && s.gatewayId == scope.gatewayId
    && scope.connectorId != "" && 0 <= scope.deviceId <= MAX_DEVICE && s.revision == RevisionOf(digest)
    && (forall i, j :: 0 <= i < j < |s.points| ==> LexLeq(s.points[i].pointId, s.points[j].pointId))
    && (forall i, j :: 0 <= i < j < |s.clockSources| ==> LexLeq(s.clockSources[i].clockId, s.clockSources[j].clockId))
    && (forall i, j :: 0 <= i < j < |s.clockBindings| ==> LexLeq(s.clockBindings[i].equipmentId, s.clockBindings[j].equipmentId))
  }

  ghost predicate ClocksOkTo(sources: seq<ClockSource>, n: nat, scope: Scope)
    requires n <= |sources|
  {
    && (forall i :: 0 <= i < n ==> ClockOk(sources[i], scope))
    && (forall i, j :: 0 <= i < j < n ==> sources[i].clockId != sources[j].clockId)
    && (forall i, j :: 0 <= i < j < n ==> ClockLocal(sources[i]) != ClockLocal(sources[j]))
  }

  ghost predicate ClocksOk(sources: seq<ClockSource>, scope: Scope) {
    ClocksOkTo(sources, |sources|, scope)
  }

  ghost predicate BindingsOk(bindings: seq<Binding>, clocks: set<string>) {
    && (forall i :: 0 <= i < |bindings| ==> bindings[i].clockId in clocks && bindings[i].equipmentId != "")
    && (forall i, j :: 0 <= i < j < |bindings| ==> bindings[i].equipmentId != bindings[j].equipmentId)
  }

  /** The shape one point must have on its own. */
  ghost predicate PointOk(p: Point, scope: Scope, clocked: bool, clockObjects: set<string>) {
    if IsRelease(p) then
      p.pointId != "" && p.native == None && p.localId == "" && p.protocol == "bacnet" && IsWritable(p)
    else
      && p.pointId != "" && p.native.Some? && p.native.value.protocol == "bacnet" && p.protocol == "bacnet"
      && scope.deviceId >= 0 && p.native.value.deviceId == Itoa(scope.deviceId) && p.native.value.objectType != ""
      && IsInstance(p.native.value.instanceNo, MAX_INSTANCE)
      && PointLocal(p) !in clockObjects && (p.localId == "" || p.localId == PointLocal(p))
      && (clocked ==> p.device.Some? && p.device.value.dtId != "" && p.device.value.id != "")
  }

  ghost predicate PointsOkTo(points: seq<Point>, n: nat, scope: Scope, clocked: bool, clockObjects: set<string>)
    requires n <= |points|
  {
    && (forall i :: 0 <= i < n ==> PointOk(points[i], scope, clocked, clockObjects))
    && (forall i, j :: 0 <= i < j < n ==> points[i].pointId != points[j].pointId)
    && (forall i, j :: 0 <= i < j < n && !IsRelease(points[i]) && !IsRelease(points[j]) ==>
                         PointLocal(points[i]) != PointLocal(points[j]))
  }

  ghost predicate PointsOk(points: seq<Point>, scope: Scope, clocked: bool, clockObjects: set<string>) {
    PointsOkTo(points, |points|, scope, clocked, clockObjects)
  }

  ghost function PointIds(points: seq<Point>): set<string> {
    set i | 0 <= i < |points| :: points[i].pointId
  }

  ghost function NativeIds(points: seq<Point>): set<string> {
    set i | 0 <= i < |points| && !IsRelease(points[i]) :: PointLocal(points[i])
  }

  ghost function WritableTargets(points: seq<Point>): set<string> {
    set i | 0 <= i < |points| && !IsRelease(points[i]) && IsWritable(points[i]) :: points[i].pointId
  }

  /** Each release point releases a writable ordinary point of this snapshot, and no two release the same one. */
  ghost predicate ReleasesOk(points: seq<Point>) {
    && (forall i :: 0 <= i < |points| && IsRelease(points[i]) ==> points[i].releaseOf in WritableTargets(points))
    && (forall i, j :: 0 <= i < j < |points| && IsRelease(points[i]) && IsRelease(points[j]) ==>
                         points[i].releaseOf != points[j].releaseOf)
  }

  ghost function Equipment(points: seq<Point>): set<string> {
    set i | 0 <= i < |points| && !IsRelease(points[i]) && points[i].device.Some? :: points[i].device.value.dtId
  }

  ghost function ClockIds(sources: seq<ClockSource>): set<string> {
    set i | 0 <= i < |sources| :: sources[i].clockId
  }

  ghost function ClockObjects(sources: seq<ClockSource>): set<string> {
    set i | 0 <= i < |sources| :: ClockLocal(sources[i])
  }

  /** A binding of the snapshot puts an ordinary point's equipment under this clock. */
  ghost predicate Governed(p: Point, bindings: seq<Binding>, clockId: string) {
    p.releaseOf == "" && p.device.Some? && Binding(p.device.value.dtId, clockId) in bindings
  }

  ghost predicate GovernsSome(points: seq<Point>, bindings: seq<Binding>, clockId: string) {
    exists k :: 0 <= k < |points| && Governed(points[k], bindings, clockId)
  }

  /** Every clock governs at least one point. */
  ghost predicate AllBound(s: Snapshot) {
    forall i :: 0 <= i < |s.clockSources| ==> GovernsSome(s.points, s.clockBindings, s.clockSources[i].clockId)
  }

  ghost predicate Acceptable(s: Snapshot, scope: Scope, digest: string) {
    && HeaderOk(s, scope, digest)
    && ClocksOk(s.clockSources, scope)
    && BindingsOk(s.clockBindings, ClockIds(s.clockSources))
    && PointsOk(s.points, scope, s.clockSources != [], ClockObjects(s.clockSources))
    && ReleasesOk(s.points)
    && (forall i :: 0 <= i < |s.clockBindings| ==> s.clockBindings[i].equipmentId in Equipment(s.points))
    && AllBound(s)
  }

  // ---- The staging loops ----

  lemma ClockSetsSnoc(sources: seq<ClockSource>, i: nat)
    requires i < |sources|
    ensures ClockIds(sources[..i + 1]) == ClockIds(sources[..i]) + {sources[i].clockId}
    ensures ClockObjects(sources[..i + 1]) == ClockObjects(sources[..i]) + {ClockLocal(sources[i])}
  {
    var a, b := sources[..i], sources[..i + 1];
    assert forall j :: 0 <= j < i ==> b[j] == a[j];
    assert b[i] == sources[i];
  }

  lemma NewClock(sources: seq<ClockSource>, i: nat)
    requires i < |sources|
    ensures sources[i].clockId !in ClockIds(sources[..i]) <==>
            forall j :: 0 <= j < i ==> sources[j].clockId != sources[i].clockId
  {
    var a := sources[..i];
    assert forall j :: 0 <= j < i ==> a[j] == sources[j] && a[j].clockId in ClockIds(a);
  }

  lemma NewClockObject(sources: seq<ClockSource>, i: nat, localId: string)
    requires i <= |sources|
    ensures localId !in ClockObjects(sources[..i]) <==> forall j :: 0 <= j < i ==> ClockLocal(sources[j]) != localId
  {
    var a := sources[..i];
    assert forall j :: 0 <= j < i ==> a[j] == sources[j] && ClockLocal(a[j]) in ClockObjects(a);
  }

  ghost predicate FitsNext(sources: seq<ClockSource>, i: nat, scope: Scope)
    requires i < |sources|
  {
    && ClockOk(sources[i], scope)
    && sources[i].clockId !in ClockIds(sources[..i]) && ClockLocal(sources[i]) !in ClockObjects(sources[..i])
  }

  /** One turn of the clock loop: the prefix stays acceptable exactly when this clock is well formed and new. */
  lemma ClocksStep(sources: seq<ClockSource>, i: nat, scope: Scope)
    requires i < |sources| && ClocksOkTo(sources, i, scope)
    ensures ClocksOkTo(sources, i + 1, scope) <==> FitsNext(sources, i, scope)
    ensures !FitsNext(sources, i, scope) ==> !ClocksOk(sources, scope)
  {
    NewClock(sources, i);
    NewClockObject(sources, i, ClockLocal(sources[i]));
  }

  method CheckClockSource(c: ClockSource, scope: Scope) returns (ok: bool)
    ensures ok <==> ClockOk(c, scope)
  {
    var n := c.native;
    if c.clockId == "" || c.clockDomain != "simulation" || c.unit != "s" || !c.readOnly || c.acquisitionMode != "poll" {
      return false;
    }
    if n.protocol != "bacnet" || n.gatewayId != scope.gatewayId || n.connectorId != scope.connectorId {
      return false;
    }
    if n.deviceInstance.None? || n.deviceInstance.value != scope.deviceId {
      return false;
    }
    if n.objectInstance.None? || n.objectInstance.value < 0 || n.objectInstance.value > MAX_INSTANCE {
      return false;
    }
    ok := (n.objectType == "analogValue" || n.objectType == "analogInput") && n.property == "presentValue" && n.unit == "seconds";
  }

  method StageClocks(sources: seq<ClockSource>, scope: Scope) returns (ok: bool, clocks: set<string>, objects: set<string>)
    ensures ok <==> ClocksOk(sources, scope)
    ensures ok ==> clocks == ClockIds(sources) && objects == ClockObjects(sources)
  {
    clocks, objects := {}, {};
    for i := 0 to |sources|
      invariant ClocksOkTo(sources, i, scope)
      invariant clocks == ClockIds(sources[..i]) && objects == ClockObjects(sources[..i])
    {
      ClocksStep(sources, i, scope);
      ClockSetsSnoc(sources, i);
      var c := sources[i];
      var localId := ClockLocal(c);
      var clockOk := CheckClockSource(c, scope);
      if !clockOk || c.clockId in clocks || localId in objects {
        return false, clocks, objects;
      }
      clocks, objects := clocks + {c.clockId}, objects + {localId};
    }
    assert sources[..|sources|] == sources;
    ok := true;
  }

  method StageBindings(bindings: seq<Binding>, clocks: set<string>) returns (ok: bool, m: map<string, string>)
    ensures ok <==> BindingsOk(bindings, clocks)
    ensures ok ==> m == BindingMap(bindings)
  {
    m := map[];
    for i := 0 to |bindings|
      invariant BindingsOk(bindings[..i], clocks) && m == BindingMap(bindings[..i])
      invariant forall e :: e in m <==> exists j :: 0 <= j < i && bindings[j].equipmentId == e
    {
      var b := bindings[i];
      if b.clockId !in clocks || b.equipmentId == "" || b.equipmentId in m {
        return false, m;
      }
      assert bindings[..i + 1][..i] == bindings[..i];
      m := m[b.equipmentId := b.clockId];
    }
    assert bindings[..|bindings|] == bindings;
    ok := true;
  }

  lemma PointSetsSnoc(points: seq<Point>, i: nat)
    requires i < |points|
    ensures PointIds(points[..i + 1]) == PointIds(points[..i]) + {points[i].pointId}
    ensures NativeIds(points[..i + 1]) == NativeIds(points[..i]) + (if IsRelease(points[i]) then {} else {PointLocal(points[i])})
  {
    var a, b := points[..i], points[..i + 1];
    assert forall j :: 0 <= j < i ==> b[j] == a[j];
    assert b[i] == points[i];
  }

  lemma TargetSetsSnoc(points: seq<Point>, i: nat)
    requires i < |points|
    ensures WritableTargets(points[..i + 1]) ==
            WritableTargets(points[..i]) + (if !IsRelease(points[i]) && IsWritable(points[i]) then {points[i].pointId} else {})
    ensures Equipment(points[..i + 1]) ==
            Equipment(points[..i]) + (if !IsRelease(points[i]) && points[i].device.Some? then {points[i].device.value.dtId} else {})
  {
    var a, b := points[..i], points[..i + 1];
    assert forall j :: 0 <= j < i ==> b[j] == a[j];
    assert b[i] == points[i];
  }

  lemma NewPoint(points: seq<Point>, i: nat)
    requires i < |points|
    ensures points[i].pointId !in PointIds(points[..i]) <==>
            forall j :: 0 <= j < i ==> points[j].pointId != points[i].pointId
    ensures PointLocal(points[i]) !in NativeIds(points[..i]) <==>
            forall j :: 0 <= j < i && !IsRelease(points[j]) ==> PointLocal(points[j]) != PointLocal(points[i])
  {
    var a := points[..i];
    assert forall j :: 0 <= j < i ==> a[j] == points[j] && a[j].pointId in PointIds(a);
    assert forall j :: 0 <= j < i && !IsRelease(a[j]) ==> PointLocal(a[j]) in NativeIds(a);
  }

  /** One turn of the point loop: acceptable exactly when this point is well formed, its id new, and its address unambiguous. */
  lemma PointsStep(points: seq<Point>, i: nat, scope: Scope, clocked: bool, objects: set<string>)
    requires i < |points| && PointsOkTo(points, i, scope, clocked, objects)
    ensures PointsOkTo(points, i + 1, scope, clocked, objects) <==>
            && PointOk(points[i], scope, clocked, objects) && points[i].pointId !in PointIds(points[..i])
            && (IsRelease(points[i]) || PointLocal(points[i]) !in NativeIds(points[..i]))
  {
    NewPoint(points, i);
  }

  method CheckPoint(p: Point, scope: Scope, clocked: bool, objects: set<string>) returns (ok: bool)
    ensures ok <==> PointOk(p, scope, clocked, objects)
  {
    if p.releaseOf != "" {
      return p.pointId != "" && p.native.None? && p.localId == "" && p.protocol == "bacnet" && p.writable == Some(true);
    }
    if p.pointId == "" || p.native.None? || p.native.value.protocol != "bacnet" || p.protocol != "bacnet" {
      return false;
    }
    var n := p.native.value;
    if scope.deviceId < 0 || n.deviceId != Itoa(scope.deviceId) || n.objectType == "" || !IsInstance(n.instanceNo, MAX_INSTANCE) {
      return false;
    }
    var localId := PointLocal(p);
    if localId in objects || (p.localId != "" && p.localId != localId) {
      return false;
    }
    ok := !clocked || (p.device.Some? && p.device.value.dtId != "" && p.device.value.id != "");
  }

  /** The validation half of the point loop. */
  method CheckPoints(points: seq<Point>, scope: Scope, clocked: bool, objects: set<string>) returns (ok: bool)
    ensures ok <==> PointsOk(points, scope, clocked, objects)
  {
    var ids, nativeIds: set<string> := {}, {};
    for i := 0 to |points|
      invariant PointsOkTo(points, i, scope, clocked, objects)
      invariant ids == PointIds(points[..i]) && nativeIds == NativeIds(points[..i])
    {
      PointsStep(points, i, scope, clocked, objects);
      PointSetsSnoc(points, i);
      var p := points[i];
      var pointOk := CheckPoint(p, scope, clocked, objects);
      if !pointOk || p.pointId in ids || (!IsRelease(p) && PointLocal(p) in nativeIds) {
        return false;
      }
      ids := ids + {p.pointId};
      if !IsRelease(p) {
        nativeIds := nativeIds + {PointLocal(p)};
      }
    }
    ok := true;
  }

  /** The building half: native points, mapping entries, bound addresses per clock, release targets and equipment seen. */
  method BuildPoints(points: seq<Point>, scope: Scope, bindings: map<string, string>, clocks: set<string>)
    returns (native: seq<NativePoint>, entries: seq<Entry>, bound: map<string, seq<string>>)
    requires forall e :: e in bindings ==> bindings[e] in clocks
    ensures native == NativePoints(points, scope) && entries == Entries(points, scope)
    ensures bound.Keys == clocks && forall c :: c in clocks ==> bound[c] == BoundIds(points, bindings, c)
  {
    native, entries := [], [];
    bound := map c | c in clocks :: [];
    for i := 0 to |points|
      invariant native == NativePoints(points[..i], scope) && entries == Entries(points[..i], scope)
      invariant bound.Keys == clocks && forall c :: c in clocks ==> bound[c] == BoundIds(points[..i], bindings, c)
    {
      assert points[..i + 1][..i] == points[..i];
      var p := points[i];
      entries := entries + [EntryOf(p, scope)];
      if !IsRelease(p) {
        native := native + [NativeOf(p, scope)];
        if p.device.Some? && p.device.value.dtId in bindings {
          var c := bindings[p.device.value.dtId];
          bound := bound[c := bound[c] + [PointLocal(p)]];
        }
      }
    }
    assert points[..|points|] == points;
  }

  method CollectTargets(points: seq<Point>) returns (targets: set<string>, equipment: set<string>)
    ensures targets == WritableTargets(points) && equipment == Equipment(points)
  {
    targets, equipment := {}, {};
    for i := 0 to |points|
      invariant targets == WritableTargets(points[..i]) && equipment == Equipment(points[..i])
    {
      TargetSetsSnoc(points, i);
      var p := points[i];
      if !IsRelease(p) {
        if IsWritable(p) {
          targets := targets + {p.pointId};
        }
        if p.device.Some? {
          equipment := equipment + {p.device.value.dtId};
        }
      }
    }
    assert points[..|points|] == points;
  }

  method CheckReleases(points: seq<Point>, targets: set<string>) returns (ok: bool)
    requires targets == WritableTargets(points)
    ensures ok <==> ReleasesOk(points)
  {
    var released: set<string> := {};
    for i := 0 to |points|
      invariant forall j :: 0 <= j < i && IsRelease(points[j]) ==> points[j].releaseOf in targets && points[j].releaseOf in released
      invariant forall r :: r in released ==> exists j :: 0 <= j < i && IsRelease(points[j]) && points[j].releaseOf == r
      invariant forall j, k :: 0 <= j < k < i && IsRelease(points[j]) && IsRelease(points[k]) ==> points[j].releaseOf != points[k].releaseOf
    {
      var r := points[i];
      if IsRelease(r) {
        if r.releaseOf !in targets || r.releaseOf in released {
          return false;
        }
        released := released + {r.releaseOf};
      }
    }
    ok := true;
  }

  lemma {:induction false} BoundFrom(points: seq<Point>, bindings: map<string, string>, c: string, x: string)
    ensures x in BoundIds(points, bindings, c) <==>
            exists k :: 0 <= k < |points| && BoundTo(points[k], bindings, c) && PointLocal(points[k]) == x
  {
    if points != [] {
      var front := points[..|points| - 1];
      BoundFrom(front, bindings, c, x);
      assert forall k :: 0 <= k < |front| ==> front[k] == points[k];
    }
  }

  lemma BoundIff(p: Point, bindings: seq<Binding>, c: string)
    requires forall i, j :: 0 <= i < j < |bindings| ==> bindings[i].equipmentId != bindings[j].equipmentId
    ensures BoundTo(p, BindingMap(bindings), c) <==> Governed(p, bindings, c)
  {
    if p.device.Some? {
      BindingMapIff(bindings, p.device.value.dtId, c);
    }
  }

  /** A clock has a bound address exactly when it governs a point. */
  lemma BoundSome(points: seq<Point>, bindings: seq<Binding>, c: string)
    requires forall i, j :: 0 <= i < j < |bindings| ==> bindings[i].equipmentId != bindings[j].equipmentId
    ensures BoundIds(points, BindingMap(bindings), c) != [] <==> GovernsSome(points, bindings, c)
  {
    var m := BindingMap(bindings);
    if BoundIds(points, m, c) != [] {
      BoundFrom(points, m, c, BoundIds(points, m, c)[0]);
      var k :| 0 <= k < |points| && BoundTo(points[k], m, c);
      BoundIff(points[k], bindings, c);
    }
    if k :| 0 <= k < |points| && Governed(points[k], bindings, c) {
      BoundIff(points[k], bindings, c);
      BoundFrom(points, m, c, PointLocal(points[k]));
    }
  }

  /** The native clocks with the addresses bound to each, refusing a clock that governs nothing. */
  method BuildClocks(s: Snapshot, bound: map<string, seq<string>>) returns (ok: bool, clocks: seq<NativeClock>)
    requires bound.Keys == ClockIds(s.clockSources)
    requires forall c :: c in bound ==> bound[c] == BoundIds(s.points, BindingMap(s.clockBindings), c)
    requires forall i, j :: 0 <= i < j < |s.clockBindings| ==> s.clockBindings[i].equipmentId != s.clockBindings[j].equipmentId
    ensures ok <==> AllBound(s)
    ensures ok ==> clocks == StagedClocks(s)
  {
    clocks := [];
    for i := 0 to |s.clockSources|
      invariant |clocks| == i && clocks == StagedClocks(s)[..i]
      invariant forall j :: 0 <= j < i ==> GovernsSome(s.points, s.clockBindings, s.clockSources[j].clockId)
    {
      var c := s.clockSources[i];
      assert c.clockId in ClockIds(s.clockSources);
      BoundSome(s.points, s.clockBindings, c.clockId);
      if bound[c.clockId] == [] {
        return false, clocks;
      }
      clocks := clocks + [NativeClock(c.clockId, ClockLocal(c), c.native.property, bound[c.clockId])];
    }
    ok := true;
  }

  method SortedIds(ids: seq<string>) returns (ok: bool)
    ensures ok <==> forall i, j :: 0 <= i < j < |ids| ==> LexLeq(ids[i], ids[j])
  {
    for i := 0 to |ids|
      invariant forall j, k :: 0 <= j < k < i ==> LexLeq(ids[j], ids[k])
    {
      if i > 0 {
        if !LexLeq(ids[i - 1], ids[i]) {
          return false;
        }
        forall j | 0 <= j < i
          ensures LexLeq(ids[j], ids[i])
        {
          if j < i - 1 {
            LexTrans(ids[j], ids[i - 1], ids[i]);
          }
        }
      }
    }
    ok := true;
  }

  method CheckHeader(s: Snapshot, scope: Scope, digest: string) returns (ok: bool)
    ensures ok <==> HeaderOk(s, scope, digest)
  {
    if s.schemaVersion != SCHEMA || scope.gatewayId == "" || s.gatewayId != scope.gatewayId {
      return false;
    }
    if scope.connectorId == "" || scope.deviceId < 0 || scope.deviceId > MAX_DEVICE || s.revision != "\"sha256:" + digest + "\"" {
      return false;
    }
    var pointIds := seq(|s.points|, i requires 0 <= i < |s.points| => s.points[i].pointId);
    assert forall i :: 0 <= i < |s.points| ==> pointIds[i] == s.points[i].pointId;
    var clockIds := seq(|s.clockSources|, i requires 0 <= i < |s.clockSources| => s.clockSources[i].clockId);
    assert forall i :: 0 <= i < |s.clockSources| ==> clockIds[i] == s.clockSources[i].clockId;
    var equipment := seq(|s.clockBindings|, i requires 0 <= i < |s.clockBindings| => s.clockBindings[i].equipmentId);
    assert forall i :: 0 <= i < |s.clockBindings| ==> equipment[i] == s.clockBindings[i].equipmentId;
    var points := SortedIds(pointIds);
    var sources := SortedIds(clockIds);
    var bindings := SortedIds(equipment);
    ok := points && sources && bindings;
  }

  /** Accepts exactly the acceptable snapshots, and then yields exactly the bundle and mapping they denote. */
  method StageClockSnapshot(s: Snapshot, scope: Scope, digest: string) returns (r: Result<(Config, seq<Entry>)>)
    ensures r.Ok? <==> Acceptable(s, scope, digest)
    ensures r.Ok? ==> r.value == (StagedConfig(s, scope), Entries(s.points, scope)) && Denotes(r.value.0, r.value.1, s, scope)
  {
    var headerOk := CheckHeader(s, scope, digest);
    if !headerOk {
      return Err("unsupported schema, scope, revision or order");
    }
    var clocksOk, clocks, objects := StageClocks(s.clockSources, scope);
    if !clocksOk {
      return Err("clock definitions");
    }
    var bindingsOk, bindings := StageBindings(s.clockBindings, clocks);
    if !bindingsOk {
      return Err("clock bindings");
    }
    var pointsOk := CheckPoints(s.points, scope, s.clockSources != [], objects);
    if !pointsOk {
      return Err("points");
    }
    r := StageBody(s, scope, bindings, clocks);
    if r.Ok? {
      StagedDenotes(s, scope, digest);
    }
  }

  /** The bundle and the mapping of well-formed points, clocks and bindings that fit together. */
  method StageBody(s: Snapshot, scope: Scope, bindings: map<string, string>, clocks: set<string>)
    returns (r: Result<(Config, seq<Entry>)>)
    requires clocks == ClockIds(s.clockSources) && BindingsOk(s.clockBindings, clocks) && bindings == BindingMap(s.clockBindings)
    ensures r.Ok? <==>
            && ReleasesOk(s.points) && AllBound(s)
            && forall i :: 0 <= i < |s.clockBindings| ==> s.clockBindings[i].equipmentId in Equipment(s.points)
    ensures r.Ok? ==> r.value == (StagedConfig(s, scope), Entries(s.points, scope))
  {
    BindingTargets(s.clockBindings, clocks);
    var native, entries, bound := BuildPoints(s.points, scope, bindings, clocks);
    var targets, equipment := CollectTargets(s.points);
    var releasesOk := CheckReleases(s.points, targets);
    if !releasesOk || !(bindings.Keys <= equipment) {
      return Err("releases or equipment");
    }
    var allBound, built := BuildClocks(s, bound);
    if !allBound {
      return Err("unbound clock");
    }
    return Ok((Config(s.revision, scope.connectorId, scope.deviceId, native, built), entries));
  }

  lemma {:induction false} BindingTargets(bindings: seq<Binding>, clocks: set<string>)
    requires BindingsOk(bindings, clocks)
    ensures forall e :: e in BindingMap(bindings) ==> BindingMap(bindings)[e] in clocks
    ensures forall e :: e in BindingMap(bindings) <==> exists i :: 0 <= i < |bindings| && bindings[i].equipmentId == e
  {
    if bindings != [] {
      var front := bindings[..|bindings| - 1];
      BindingTargets(front, clocks);
      assert forall i :: 0 <= i < |front| ==> front[i] == bindings[i];
    }
  }

  // ---- What a staged bundle and mapping mean, in the snapshot's own terms ----

  /** The entry of a point: its own identity, unit, writability and release target, and an ordinary point's native address and device. */
  ghost predicate EntryDenotes(e: Entry, p: Point, scope: Scope) {
    && e.pointId == p.pointId && e.releaseOf == p.releaseOf && e.unit == p.unit && e.controlSchema == p.controlSchema
    && (e.writable <==> p.writable == Some(true)) && e.connectorId == scope.connectorId && e.protocol == "bacnet"
    && (if p.releaseOf != "" then e.localId == "" else AtAddress(p, e.localId, e.deviceRef))
  }

  /** The native address and the device of a point. */
  ghost predicate AtAddress(p: Point, localId: string, deviceRef: string) {
    && p.native.Some? && localId == p.native.value.objectType + "," + p.native.value.instanceNo
    && deviceRef == p.native.value.deviceId
  }

  ghost predicate NativeDenotes(n: NativePoint, p: Point) {
    AtAddress(p, n.localId, n.deviceRef) && n.unit == p.unit && (n.writable <==> p.writable == Some(true))
  }

  /** The positions of the ordinary points, and of the points a clock governs. */
  ghost function Ordinary(points: seq<Point>): set<nat> {
    set k | 0 <= k < |points| && points[k].releaseOf == ""
  }

  ghost function GovernedAt(points: seq<Point>, bindings: seq<Binding>, clockId: string): set<nat> {
    set k | 0 <= k < |points| && Governed(points[k], bindings, clockId)
  }

  ghost predicate PointsDenoted(native: seq<NativePoint>, points: seq<Point>) {
    exists from :: Listed(from, Ordinary(points)) && PicksNative(from, native, points)
  }

  ghost predicate PicksNative(from: seq<nat>, native: seq<NativePoint>, points: seq<Point>) {
    |from| == |native| && forall i :: 0 <= i < |native| ==> from[i] < |points| && NativeDenotes(native[i], points[from[i]])
  }

  ghost predicate BoundDenoted(ids: seq<string>, points: seq<Point>, bindings: seq<Binding>, clockId: string) {
    exists from :: Listed(from, GovernedAt(points, bindings, clockId)) && PicksAddress(from, ids, points)
  }

  ghost predicate PicksAddress(from: seq<nat>, ids: seq<string>, points: seq<Point>) {
    && |from| == |ids|
    && forall i :: 0 <= i < |ids| ==> from[i] < |points| && points[from[i]].native.Some? && AtAddress(points[from[i]], ids[i], points[from[i]].native.value.deviceId)
  }

  ghost predicate ClockDenotes(c: NativeClock, src: ClockSource, s: Snapshot) {
    && c.clockId == src.clockId && c.property == src.native.property
    && src.native.objectInstance.Some? && src.native.objectInstance.value >= 0
    && c.localId == src.native.objectType + "," + Itoa(src.native.objectInstance.value)
    && BoundDenoted(c.pointLocalIds, s.points, s.clockBindings, src.clockId)
  }

  ghost predicate Denotes(config: Config, entries: seq<Entry>, s: Snapshot, scope: Scope) {
    && config.revision == s.revision && config.connectorId == scope.connectorId && config.deviceId == scope.deviceId
    && PointsDenoted(config.points, s.points)
    && |config.clocks| == |s.clockSources|
    && (forall i :: 0 <= i < |config.clocks| ==> ClockDenotes(config.clocks[i], s.clockSources[i], s))
    && |entries| == |s.points|
    && (forall i :: 0 <= i < |entries| ==> EntryDenotes(entries[i], s.points[i], scope))
  }

  /** Ordinary points have a native object on a named device. */
  ghost predicate Addressed(points: seq<Point>) {
    forall i :: 0 <= i < |points| && points[i].releaseOf == "" ==> points[i].native.Some? && points[i].native.value.deviceId != ""
  }

  lemma AcceptedAreAddressed(s: Snapshot, scope: Scope, digest: string)
    requires Acceptable(s, scope, digest)
    ensures Addressed(s.points)
  {
    ItoaRoundTrip(scope.deviceId);
  }

  lemma OrdinarySnoc(from: seq<nat>, points: seq<Point>, p: Point)
    requires Listed(from, Ordinary(points))
    ensures Listed(if p.releaseOf == "" then from + [|points|] else from, Ordinary(points + [p]))
  {
    ListedSnoc(from, Ordinary(points), |points|);
    assert Ordinary(points + [p]) == Ordinary(points) + (if p.releaseOf == "" then {|points|} else {});
  }

  lemma GovernedSnoc(from: seq<nat>, points: seq<Point>, p: Point, bindings: seq<Binding>, c: string)
    requires Listed(from, GovernedAt(points, bindings, c))
    ensures Listed(if Governed(p, bindings, c) then from + [|points|] else from, GovernedAt(points + [p], bindings, c))
  {
    ListedSnoc(from, GovernedAt(points, bindings, c), |points|);
    assert GovernedAt(points + [p], bindings, c) == GovernedAt(points, bindings, c) + (if Governed(p, bindings, c) then {|points|} else {});
  }

  lemma NativeSnoc(from: seq<nat>, native: seq<NativePoint>, points: seq<Point>, p: Point, n: NativePoint)
    requires PicksNative(from, native, points)
    ensures PicksNative(from, native, points + [p])
    ensures NativeDenotes(n, p) ==> PicksNative(from + [|points|], native + [n], points + [p])
  {
  }

  lemma AddressSnoc(from: seq<nat>, ids: seq<string>, points: seq<Point>, p: Point, id: string)
    requires PicksAddress(from, ids, points)
    ensures PicksAddress(from, ids, points + [p])
    ensures p.native.Some? && AtAddress(p, id, p.native.value.deviceId) ==> PicksAddress(from + [|points|], ids + [id], points + [p])
  {
  }

  ghost predicate NativeFromAt(from: seq<nat>, points: seq<Point>, scope: Scope) {
    Listed(from, Ordinary(points)) && PicksNative(from, NativePoints(points, scope), points)
  }

  lemma NativeStep(from: seq<nat>, front: seq<Point>, p: Point, scope: Scope)
    requires NativeFromAt(from, front, scope) && Addressed([p])
    ensures NativeFromAt(if p.releaseOf == "" then from + [|front|] else from, front + [p], scope)
  {
    assert (front + [p])[..|front|] == front && [p][0] == p;
    OrdinarySnoc(from, front, p);
    NativeSnoc(from, NativePoints(front, scope), front, p, NativeOf(p, scope));
  }

  lemma {:induction false} NativeDenoted(points: seq<Point>, scope: Scope) returns (from: seq<nat>)
    requires Addressed(points)
    ensures NativeFromAt(from, points, scope)
  {
    from := [];
    if points != [] {
      var front, p := points[..|points| - 1], points[|points| - 1];
      assert points == front + [p];
      from := NativeDenoted(front, scope);
      NativeStep(from, front, p, scope);
      from := if p.releaseOf == "" then from + [|front|] else from;
    }
  }

  ghost predicate BoundFromAt(from: seq<nat>, points: seq<Point>, bindings: seq<Binding>, c: string) {
    Listed(from, GovernedAt(points, bindings, c)) && PicksAddress(from, BoundIds(points, BindingMap(bindings), c), points)
  }

  lemma BoundStep(from: seq<nat>, front: seq<Point>, p: Point, bindings: seq<Binding>, c: string)
    requires BoundFromAt(from, front, bindings, c) && Addressed([p])
    requires forall i, j :: 0 <= i < j < |bindings| ==> bindings[i].equipmentId != bindings[j].equipmentId
    ensures BoundFromAt(if Governed(p, bindings, c) then from + [|front|] else from, front + [p], bindings, c)
  {
    assert (front + [p])[..|front|] == front && [p][0] == p;
    GovernedSnoc(from, front, p, bindings, c);
    AddressSnoc(from, BoundIds(front, BindingMap(bindings), c), front, p, PointLocal(p));
    BoundIff(p, bindings, c);
  }

  lemma {:induction false} BoundIdsDenoted(points: seq<Point>, bindings: seq<Binding>, c: string) returns (from: seq<nat>)
    requires Addressed(points)
    requires forall i, j :: 0 <= i < j < |bindings| ==> bindings[i].equipmentId != bindings[j].equipmentId
    ensures BoundFromAt(from, points, bindings, c)
  {
    from := [];
    if points != [] {
      var front, p := points[..|points| - 1], points[|points| - 1];
      assert points == front + [p];
      from := BoundIdsDenoted(front, bindings, c);
      BoundStep(from, front, p, bindings, c);
      from := if Governed(p, bindings, c) then from + [|front|] else from;
    }
  }

  lemma ClockStagedDenotes(s: Snapshot, scope: Scope, i: nat)
    requires i < |s.clockSources| && Addressed(s.points) && ClockOk(s.clockSources[i], scope)
    requires forall i, j :: 0 <= i < j < |s.clockBindings| ==> s.clockBindings[i].equipmentId != s.clockBindings[j].equipmentId
    ensures ClockDenotes(StagedClocks(s)[i], s.clockSources[i], s)
  {
    var from := BoundIdsDenoted(s.points, s.clockBindings, s.clockSources[i].clockId);
  }

  lemma EntryStagedDenotes(p: Point, scope: Scope, clocked: bool, objects: set<string>)
    requires PointOk(p, scope, clocked, objects)
    ensures EntryDenotes(EntryOf(p, scope), p, scope)
  {
    if p.releaseOf == "" {
      ItoaRoundTrip(scope.deviceId);
    }
  }

  /** Whatever is staged from an acceptable snapshot has the snapshot's own points, clocks and bindings in it, and nothing else. */
  lemma StagedDenotes(s: Snapshot, scope: Scope, digest: string)
    requires Acceptable(s, scope, digest)
    ensures Denotes(StagedConfig(s, scope), Entries(s.points, scope), s, scope)
  {
    AcceptedAreAddressed(s, scope, digest);
    var from := NativeDenoted(s.points, scope);
    assert PointsDenoted(NativePoints(s.points, scope), s.points);
    forall i | 0 <= i < |s.clockSources|
      ensures ClockDenotes(StagedClocks(s)[i], s.clockSources[i], s)
    {
      ClockStagedDenotes(s, scope, i);
    }
    forall i | 0 <= i < |s.points|
      ensures EntryDenotes(Entries(s.points, scope)[i], s.points[i], scope)
    {
      EntryStagedDenotes(s.points[i], scope, s.clockSources != [], ClockObjects(s.clockSources));
    }
  }
}
