/**
 The connector's loader of a native clock bundle (connector/bacnet/bacnet_connector/config.py,
 Config.apply_clock_bundle) and the contract between the two sides: every bundle the
 gateway stages loads.
 */
module ClockBundle {
  import opened Decimal
  import opened ClockStage

  /** "sha256:<64 lower-case hex digits>" in double quotes. */
  predicate RevisionShape(revision: string) {
    |revision| == 73 && revision[..8] == "\"sha256:" && IsHexDigest(revision[8..72]) && revision[72] == '"'
  }

  /** Which is how a gateway spells the revision of some content. */
  lemma RevisionShapeIff(revision: string)
    ensures RevisionShape(revision) <==> exists digest :: IsHexDigest(digest) && revision == "\"sha256:" + digest + "\""
  {
    assert |revision| == 73 ==> revision == revision[..8] + revision[8..72] + [revision[72]];
  }

  /** (analogValue|analogInput),[0-9]+ with an instance in range. */
  predicate ClockRefShape(localId: string) {
    && |localId| > 12 && (localId[..12] == "analogValue," || localId[..12] == "analogInput,")
    && IsNumeral(localId[12..]) && Value(localId[12..]) <= MAX_INSTANCE
  }

  ghost predicate IsClockRef(localId: string, objectType: string, digits: string) {
    && localId == objectType + "," + digits && (objectType == "analogValue" || objectType == "analogInput")
    && IsNumeral(digits) && Value(digits) <= MAX_INSTANCE
  }

  lemma ClockRefShapeIff(localId: string)
    ensures ClockRefShape(localId) <==> exists objectType, digits :: IsClockRef(localId, objectType, digits)
  {
    if ClockRefShape(localId) {
      assert localId == localId[..11] + "," + localId[12..] by {
        assert localId[..12][11] == ',';
        assert localId[..12][..11] == localId[..11];
      }
      assert IsClockRef(localId, localId[..11], localId[12..]);
    }
    if objectType, digits :| IsClockRef(localId, objectType, digits) {
      assert localId[..12] == objectType + "," && localId[12..] == digits;
    }
  }

  ghost predicate Distinct(ids: seq<string>) {
    forall i, j :: 0 <= i < j < |ids| ==> ids[i] != ids[j]
  }

  function LocalIds(points: seq<NativePoint>): (ids: seq<string>)
    ensures |ids| == |points|
    ensures forall i :: 0 <= i < |points| ==> ids[i] == points[i].localId
  {
    seq(|points|, i requires 0 <= i < |points| => points[i].localId)
  }

  ghost function Elements(ids: seq<string>): set<string> {
    set x | x in ids
  }

  /** One clock on its own: identified, natively addressed outside the points, governing distinct known points. */
  ghost predicate ClockLoads(c: NativeClock, pointIds: set<string>) {
    && c.clockId != "" && ClockRefShape(c.localId) && c.property == "presentValue" && c.localId !in pointIds
    && c.pointLocalIds != [] && Distinct(c.pointLocalIds) && Elements(c.pointLocalIds) <= pointIds
  }

  ghost predicate ClocksApart(a: NativeClock, b: NativeClock) {
    a.clockId != b.clockId && a.localId != b.localId && Elements(a.pointLocalIds) !! Elements(b.pointLocalIds)
  }

  ghost predicate ClocksLoadTo(clocks: seq<NativeClock>, n: nat, pointIds: set<string>)
    requires n <= |clocks|
  {
    && (forall i :: 0 <= i < n ==> ClockLoads(clocks[i], pointIds))
    && (forall i, j :: 0 <= i < j < n ==> ClocksApart(clocks[i], clocks[j]))
  }

  /** Everything the loader checks. */
  ghost predicate Loads(b: Config, connectorId: string, deviceId: int, covEnabled: bool) {
    && b.connectorId == connectorId && b.deviceId == deviceId && RevisionShape(b.revision)
    && (forall i :: 0 <= i < |b.points| ==> b.points[i].localId != "")
    && Distinct(LocalIds(b.points))
    && ClocksLoadTo(b.clocks, |b.clocks|, Elements(LocalIds(b.points)))
    && !(b.clocks != [] && covEnabled)
  }

  // ---- The loader ----

  ghost function Assigned(clocks: seq<NativeClock>): set<string> {
    if clocks == [] then {} else Assigned(clocks[..|clocks| - 1]) + Elements(clocks[|clocks| - 1].pointLocalIds)
  }

  lemma {:induction false} AssignedMembers(clocks: seq<NativeClock>, x: string)
    ensures x in Assigned(clocks) <==> exists i :: 0 <= i < |clocks| && x in Elements(clocks[i].pointLocalIds)
  {
    if clocks != [] {
      var front := clocks[..|clocks| - 1];
      AssignedMembers(front, x);
      if i :| 0 <= i < |front| && x in Elements(front[i].pointLocalIds) {
        assert x in Elements(clocks[i].pointLocalIds);
      }
    }
  }

  method DistinctIds(ids: seq<string>) returns (ok: bool, seen: set<string>)
    ensures ok <==> Distinct(ids)
    ensures ok ==> seen == Elements(ids)
  {
    seen := {};
    for i := 0 to |ids|
      invariant Distinct(ids[..i]) && seen == Elements(ids[..i])
    {
      assert ids[..i + 1] == ids[..i] + [ids[i]];
      if ids[i] in seen {
        var j :| 0 <= j < i && ids[..i][j] == ids[i];
        assert ids[j] == ids[i];
        return false, seen;
      }
      seen := seen + {ids[i]};
    }
    assert ids[..|ids|] == ids;
    ok := true;
  }

  method CheckClock(c: NativeClock, pointIds: set<string>) returns (ok: bool, refs: set<string>)
    ensures ok <==> ClockLoads(c, pointIds)
    ensures ok ==> refs == Elements(c.pointLocalIds)
  {
    var distinct;
    distinct, refs := DistinctIds(c.pointLocalIds);
    ok := && c.clockId != "" && ClockRefShape(c.localId) && c.property == "presentValue" && c.localId !in pointIds
          && c.pointLocalIds != [] && distinct && refs <= pointIds;
  }

  ghost function LoadedIds(clocks: seq<NativeClock>): set<string> {
    set i | 0 <= i < |clocks| :: clocks[i].clockId
  }

  ghost function LoadedObjects(clocks: seq<NativeClock>): set<string> {
    set i | 0 <= i < |clocks| :: clocks[i].localId
  }

  /** A clock is apart from all earlier ones exactly when the three running sets do not know it. */
  lemma ApartFromPrefix(clocks: seq<NativeClock>, i: nat)
    requires i < |clocks|
    ensures (forall j :: 0 <= j < i ==> ClocksApart(clocks[j], clocks[i])) <==>
            && clocks[i].clockId !in LoadedIds(clocks[..i]) && clocks[i].localId !in LoadedObjects(clocks[..i])
            && Assigned(clocks[..i]) !! Elements(clocks[i].pointLocalIds)
  {
    var a, c := clocks[..i], clocks[i];
    assert forall j :: 0 <= j < i ==> a[j] == clocks[j];
    if forall j :: 0 <= j < i ==> ClocksApart(clocks[j], c) {
      assert forall j :: 0 <= j < i ==> a[j].clockId != c.clockId && a[j].localId != c.localId;
      forall x | x in Elements(c.pointLocalIds)
        ensures x !in Assigned(a)
      {
        AssignedMembers(a, x);
      }
    } else {
      var j :| 0 <= j < i && !ClocksApart(clocks[j], c);
      assert a[j].clockId in LoadedIds(a) && a[j].localId in LoadedObjects(a);
      if x :| x in Elements(clocks[j].pointLocalIds) && x in Elements(c.pointLocalIds) {
        AssignedMembers(a, x);
        assert x in Elements(a[j].pointLocalIds);
      }
    }
  }

  lemma LoadedSnoc(clocks: seq<NativeClock>, i: nat)
    requires i < |clocks|
    ensures LoadedIds(clocks[..i + 1]) == LoadedIds(clocks[..i]) + {clocks[i].clockId}
    ensures LoadedObjects(clocks[..i + 1]) == LoadedObjects(clocks[..i]) + {clocks[i].localId}
    ensures Assigned(clocks[..i + 1]) == Assigned(clocks[..i]) + Elements(clocks[i].pointLocalIds)
  {
    var a, b := clocks[..i], clocks[..i + 1];
    assert b[..i] == a;
    assert forall j :: 0 <= j < i ==> b[j] == a[j];
    assert b[i] == clocks[i];
  }

  method CheckClocks(clocks: seq<NativeClock>, pointIds: set<string>) returns (ok: bool)
    ensures ok <==> ClocksLoadTo(clocks, |clocks|, pointIds)
  {
    var ids, objects, taken: set<string> := {}, {}, {};
    for i := 0 to |clocks|
      invariant ClocksLoadTo(clocks, i, pointIds)
      invariant ids == LoadedIds(clocks[..i]) && objects == LoadedObjects(clocks[..i]) && taken == Assigned(clocks[..i])
    {
      ApartFromPrefix(clocks, i);
      LoadedSnoc(clocks, i);
      var c := clocks[i];
      var loads, refs := CheckClock(c, pointIds);
      if !loads || c.clockId in ids || c.localId in objects || !(taken !! refs) {
        return false;
      }
      ids, objects, taken := ids + {c.clockId}, objects + {c.localId}, taken + refs;
    }
    ok := true;
  }

  class ConnectorConfig {
    const connectorId: string
    const deviceId: int
    const covEnabled: bool
    var points: seq<NativePoint>
    var clocks: seq<NativeClock>
    var clockRevision: string

    /** Parses everything before replacing anything. */
    method ApplyClockBundle(b: Config) returns (ok: bool)
      modifies this
      ensures ok <==> Loads(b, connectorId, deviceId, covEnabled)
      ensures ok ==> points == b.points && clocks == b.clocks && clockRevision == b.revision
      ensures !ok ==> unchanged(this)
    {
      if b.connectorId != connectorId || b.deviceId != deviceId || !RevisionShape(b.revision) {
        return false;
      }
      if exists i :: 0 <= i < |b.points| && b.points[i].localId == "" {
        return false;
      }
      var distinct, pointIds := DistinctIds(LocalIds(b.points));
      if !distinct {
        return false;
      }
      var clocksOk := CheckClocks(b.clocks, pointIds);
      if !clocksOk || (b.clocks != [] && covEnabled) {
        return false;
      }
      points, clocks, clockRevision := b.points, b.clocks, b.revision;
      ok := true;
    }
  }

  // ---- Every staged bundle loads ----

  lemma {:induction false} NativeFrom(points: seq<Point>, scope: Scope, x: string)
    ensures x in LocalIds(NativePoints(points, scope)) <==>
            exists k :: 0 <= k < |points| && !IsRelease(points[k]) && PointLocal(points[k]) == x
  {
    if points != [] {
      var front, p := points[..|points| - 1], points[|points| - 1];
      NativeFrom(front, scope, x);
      assert forall k :: 0 <= k < |front| ==> front[k] == points[k];
      if !IsRelease(p) {
        assert LocalIds(NativePoints(points, scope)) == LocalIds(NativePoints(front, scope)) + [PointLocal(p)];
      }
    }
  }

  ghost predicate AddressesDistinct(points: seq<Point>) {
    forall i, j :: 0 <= i < j < |points| && !IsRelease(points[i]) && !IsRelease(points[j]) ==>
                     PointLocal(points[i]) != PointLocal(points[j])
  }

  lemma {:induction false} NativeDistinct(points: seq<Point>, scope: Scope)
    requires AddressesDistinct(points)
    ensures Distinct(LocalIds(NativePoints(points, scope)))
  {
    if points != [] {
      var front, p := points[..|points| - 1], points[|points| - 1];
      NativeDistinct(front, scope);
      NativeFrom(front, scope, PointLocal(p));
      if !IsRelease(p) {
        assert LocalIds(NativePoints(points, scope)) == LocalIds(NativePoints(front, scope)) + [PointLocal(p)];
      }
    }
  }

  lemma {:induction false} BoundDistinct(points: seq<Point>, bindings: map<string, string>, c: string)
    requires AddressesDistinct(points)
    ensures Distinct(BoundIds(points, bindings, c))
  {
    if points != [] {
      var front, p := points[..|points| - 1], points[|points| - 1];
      BoundDistinct(front, bindings, c);
      BoundFrom(front, bindings, c, PointLocal(p));
    }
  }

  /** A point's address is bound to one clock only. */
  lemma BoundApart(points: seq<Point>, bindings: map<string, string>, c: string, d: string)
    requires AddressesDistinct(points) && c != d
    ensures Elements(BoundIds(points, bindings, c)) !! Elements(BoundIds(points, bindings, d))
  {
    forall x | x in BoundIds(points, bindings, c)
      ensures x !in BoundIds(points, bindings, d)
    {
      BoundFrom(points, bindings, c, x);
      BoundFrom(points, bindings, d, x);
    }
  }

  lemma BoundKnown(points: seq<Point>, scope: Scope, bindings: map<string, string>, c: string)
    ensures Elements(BoundIds(points, bindings, c)) <= Elements(LocalIds(NativePoints(points, scope)))
  {
    forall x | x in BoundIds(points, bindings, c)
      ensures x in LocalIds(NativePoints(points, scope))
    {
      BoundFrom(points, bindings, c, x);
      NativeFrom(points, scope, x);
    }
  }

  lemma ClockRefLoads(c: ClockSource, scope: Scope)
    requires ClockOk(c, scope)
    ensures ClockRefShape(ClockLocal(c))
  {
    ItoaRoundTrip(c.native.objectInstance.value);
    var l, digits := ClockLocal(c), Itoa(c.native.objectInstance.value);
    assert l[..12] == c.native.objectType + "," && l[12..] == digits;
  }

  lemma StagedClockLoads(s: Snapshot, scope: Scope, digest: string, i: nat)
    requires Acceptable(s, scope, digest) && i < |s.clockSources|
    ensures ClockLoads(StagedClocks(s)[i], Elements(LocalIds(NativePoints(s.points, scope))))
  {
    var c, bindings := s.clockSources[i], BindingMap(s.clockBindings);
    ClockRefLoads(c, scope);
    BoundDistinct(s.points, bindings, c.clockId);
    BoundKnown(s.points, scope, bindings, c.clockId);
    BoundSome(s.points, s.clockBindings, c.clockId);
    NativeFrom(s.points, scope, ClockLocal(c));
    assert ClockLocal(c) in ClockObjects(s.clockSources);
    assert forall k :: 0 <= k < |s.points| && !IsRelease(s.points[k]) ==> PointLocal(s.points[k]) != ClockLocal(c);
  }

  lemma StagedClocksLoad(s: Snapshot, scope: Scope, digest: string)
    requires Acceptable(s, scope, digest)
    ensures ClocksLoadTo(StagedClocks(s), |s.clockSources|, Elements(LocalIds(NativePoints(s.points, scope))))
  {
    var clocks := StagedClocks(s);
    forall i | 0 <= i < |clocks|
      ensures ClockLoads(clocks[i], Elements(LocalIds(NativePoints(s.points, scope))))
    {
      StagedClockLoads(s, scope, digest, i);
    }
    forall i, j | 0 <= i < j < |clocks|
      ensures ClocksApart(clocks[i], clocks[j])
    {
      BoundApart(s.points, BindingMap(s.clockBindings), s.clockSources[i].clockId, s.clockSources[j].clockId);
    }
  }

  /** The bundle staged from any acceptable snapshot passes every check of the loader, for the same scope in poll-only mode. */
  lemma StagedBundleLoads(s: Snapshot, scope: Scope, digest: string)
    requires IsHexDigest(digest) && Acceptable(s, scope, digest)
    ensures Loads(StagedConfig(s, scope), scope.connectorId, scope.deviceId, false)
  {
    var b := StagedConfig(s, scope);
    RevisionShapeIff(b.revision);
    NativeDistinct(s.points, scope);
    forall i | 0 <= i < |b.points|
      ensures b.points[i].localId != ""
    {
      NativeFrom(s.points, scope, b.points[i].localId);
    }
    StagedClocksLoad(s, scope, digest);
  }
}
