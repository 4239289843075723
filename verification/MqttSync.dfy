/**
 Deriving a connector's subscriptions from the Point List, diffing them against its
 reported state and naming the set by a content revision (internal/mqttsync).
 A content hash is modelled by the sorted sequence it hashes.
 */
module MqttSync {
  import opened Prelude
  import opened PointList
  import opened Subscriptions

  // ---- Derive ----

  /** The connector's own subscribable entries: an MQTT topic, and no control-only release point. */
  ghost predicate Synced(e: Entry, connectorId: string) {
    e.protocol == "mqtt" && e.connectorId == connectorId && e.localId != "" && e.releaseOf == ""
  }

  /** The local id is the topic, for commands too if the point is writable; one QoS for all subscriptions and one for all commands. */
  ghost predicate Describes(s: SubscriptionSpec, e: Entry, subQoS: nat, cmdQoS: nat) {
    && s.topic == e.localId && s.qos == subQoS && s.writable == e.writable
    && s.deviceRef == e.deviceRef && s.unit == e.unit && s.payloadTemplate == ""
    && (if e.writable then s.commandTopic == e.localId && s.commandQos == cmdQoS else s.commandTopic == "" && s.commandQos == 0)
  }

  /** Which specs a list of entries implies: exactly the specs of its synced entries, in order. */
  ghost predicate DerivedFrom(specs: seq<SubscriptionSpec>, entries: seq<Entry>, connectorId: string, subQoS: nat, cmdQoS: nat) {
    exists from :: Picks(from, specs, entries, connectorId, subQoS, cmdQoS)
  }

  ghost predicate Picks(from: seq<nat>, specs: seq<SubscriptionSpec>, entries: seq<Entry>, connectorId: string, subQoS: nat, cmdQoS: nat) {
    && |from| == |specs|
    && Increasing(from)
    && (forall i :: 0 <= i < |from| ==>
                      && from[i] < |entries| && Synced(entries[from[i]], connectorId)
                      && Describes(specs[i], entries[from[i]], subQoS, cmdQoS))
    && (forall k :: 0 <= k < |entries| && Synced(entries[k], connectorId) ==> k in from)
  }

  method Derive(entries: seq<Entry>, connectorId: string, subQoS: nat, cmdQoS: nat) returns (specs: seq<SubscriptionSpec>)
    ensures DerivedFrom(specs, entries, connectorId, subQoS, cmdQoS)
  {
    specs := [];
    ghost var from: seq<nat> := [];
    for i := 0 to |entries|
      invariant |from| == |specs|
      invariant forall a, b :: 0 <= a < b < |from| ==> from[a] < from[b]
      invariant forall a :: 0 <= a < |from| ==>
                  from[a] < i && Synced(entries[from[a]], connectorId) && Describes(specs[a], entries[from[a]], subQoS, cmdQoS)
      invariant forall k :: 0 <= k < i && Synced(entries[k], connectorId) ==> k in from
    {
      var e := entries[i];
      if e.protocol != "mqtt" || e.connectorId != connectorId || e.localId == "" || e.releaseOf != "" {
        continue;
      }
      var spec := SubscriptionSpec(e.localId, subQoS, e.writable, "", 0, e.deviceRef, e.unit, "");
      if e.writable {
        spec := spec.(commandTopic := e.localId, commandQos := cmdQoS);
      }
      specs := specs + [spec];
      from := from + [i];
    }
    assert Picks(from, specs, entries, connectorId, subQoS, cmdQoS);
  }

  lemma FrontMembers(a: seq<nat>, k: nat)
    requires Increasing(a) && a != []
    ensures k in a[..|a| - 1] <==> k in a && k != a[|a| - 1]
  {
    var front := a[..|a| - 1];
    if k in a && k != a[|a| - 1] {
      var i :| 0 <= i < |a| && a[i] == k;
      assert front[i] == k;
    }
  }

  lemma LastIsLargest(a: seq<nat>, k: nat)
    requires Increasing(a) && k in a
    ensures k <= a[|a| - 1]
  {
  }

  ghost predicate SameMembers(a: seq<nat>, b: seq<nat>) {
    forall k :: k in a <==> k in b
  }

  lemma EmptyTogether(a: seq<nat>, b: seq<nat>)
    requires SameMembers(a, b)
    ensures a == [] <==> b == []
  {
    if a != [] {
      assert a[0] in a;
    }
    if b != [] {
      assert b[0] in b;
    }
  }

  lemma FrontsAgree(a: seq<nat>, b: seq<nat>)
    requires Increasing(a) && Increasing(b) && SameMembers(a, b) && a != [] && b != []
    ensures a[|a| - 1] == b[|b| - 1] && SameMembers(a[..|a| - 1], b[..|b| - 1])
  {
    assert a[|a| - 1] in a && b[|b| - 1] in b;
    LastIsLargest(a, b[|b| - 1]);
    LastIsLargest(b, a[|a| - 1]);
    var a', b' := a[..|a| - 1], b[..|b| - 1];
    forall k | k in a' || k in b'
      ensures k in a' && k in b'
    {
      FrontMembers(a, k);
      FrontMembers(b, k);
    }
  }

  lemma {:induction false} IncreasingUnique(a: seq<nat>, b: seq<nat>)
    requires Increasing(a) && Increasing(b) && SameMembers(a, b)
    ensures a == b
    decreases |a|
  {
    EmptyTogether(a, b);
    if a != [] {
      FrontsAgree(a, b);
      IncreasingUnique(a[..|a| - 1], b[..|b| - 1]);
      assert a == a[..|a| - 1] + [a[|a| - 1]] && b == b[..|b| - 1] + [b[|b| - 1]];
    }
  }

  /** A list determines its derived set, order included. */
  lemma DerivedIsUnique(a: seq<SubscriptionSpec>, b: seq<SubscriptionSpec>, entries: seq<Entry>, connectorId: string, subQoS: nat, cmdQoS: nat)
    requires DerivedFrom(a, entries, connectorId, subQoS, cmdQoS) && DerivedFrom(b, entries, connectorId, subQoS, cmdQoS)
    ensures a == b
  {
    var fa :| Picks(fa, a, entries, connectorId, subQoS, cmdQoS);
    var fb :| Picks(fb, b, entries, connectorId, subQoS, cmdQoS);
    assert forall k :: k in fa <==> 0 <= k < |entries| && Synced(entries[k], connectorId);
    assert forall k :: k in fb <==> 0 <= k < |entries| && Synced(entries[k], connectorId);
    IncreasingUnique(fa, fb);
  }

  // ---- Reported specs ----

  /** What the connector reports for a point: defaults made explicit, the command QoS only for a writable one. */
  function Reported(p: PointConfig): SubscriptionSpec {
    SubscriptionSpec(p.topic, OrOne(p.qos), p.writable, p.commandTopic,
                     if p.writable then OrOne(p.commandQos) else 0, p.deviceRef, p.unit, p.payloadTemplate)
  }

  /** Applying and reporting a spec fills its defaults in and changes nothing else. */
  lemma ReportFillsDefaults(s: SubscriptionSpec)
    ensures Reported(FromSpec(s)) ==
            s.(qos := if s.qos == 0 then 1 else s.qos,
               commandQos := if !s.writable then 0 else if s.commandQos == 0 then 1 else s.commandQos)
  {
  }

  /** A spec survives apply and report unchanged exactly when it spells its defaults out. */
  lemma ReportRoundTrip(s: SubscriptionSpec)
    ensures Reported(FromSpec(s)) == s <==>
            s.qos != 0 && (if s.writable then s.commandQos != 0 else s.commandQos == 0)
  {
    ReportFillsDefaults(s);
  }

  function SpecsByTopic(specs: seq<SubscriptionSpec>): map<string, SubscriptionSpec> {
    if specs == [] then map[]
    else SpecsByTopic(specs[..|specs| - 1])[specs[|specs| - 1].topic := specs[|specs| - 1]]
  }

  // ---- Sorting and the revision ----

  ghost predicate Sorted(specs: seq<SubscriptionSpec>) {
    forall i, j :: 0 <= i < j < |specs| ==> LexLeq(specs[i].topic, specs[j].topic)
  }

  ghost predicate DistinctTopics(specs: seq<SubscriptionSpec>) {
    forall i, j :: 0 <= i < j < |specs| ==> specs[i].topic != specs[j].topic
  }

  /** Some sorted order of the specs; an unstable sort may place equal topics either way. */
  ghost predicate RevisionOf(revision: seq<SubscriptionSpec>, specs: seq<SubscriptionSpec>) {
    Sorted(revision) && multiset(revision) == multiset(specs)
  }

  method SortSpecs(specs: seq<SubscriptionSpec>) returns (sorted: seq<SubscriptionSpec>)
    ensures RevisionOf(sorted, specs)
  {
    sorted := [];
    for i := 0 to |specs|
      invariant Sorted(sorted) && multiset(sorted) == multiset(specs[..i])
    {
      sorted := Insert(sorted, specs[i]);
      assert specs[..i + 1] == specs[..i] + [specs[i]];
    }
    assert specs[..|specs|] == specs;
  }

  method Insert(sorted: seq<SubscriptionSpec>, x: SubscriptionSpec) returns (out: seq<SubscriptionSpec>)
    requires Sorted(sorted)
    ensures Sorted(out) && multiset(out) == multiset(sorted) + multiset{x}
  {
    var k := 0;
    while k < |sorted| && LexLeq(sorted[k].topic, x.topic)
      invariant 0 <= k <= |sorted|
      invariant forall i :: 0 <= i < k ==> LexLeq(sorted[i].topic, x.topic)
    {
      k := k + 1;
    }
    out := sorted[..k] + [x] + sorted[k..];
    assert sorted == sorted[..k] + sorted[k..];
    forall j | k <= j < |sorted|
      ensures LexLeq(x.topic, sorted[j].topic)
    {
      LexTotal(x.topic, sorted[k].topic);
      if j > k {
        LexTrans(x.topic, sorted[k].topic, sorted[j].topic);
      }
    }
  }

  lemma DistinctTopicsPermute(a: seq<SubscriptionSpec>, b: seq<SubscriptionSpec>)
    requires multiset(a) == multiset(b) && DistinctTopics(a)
    ensures forall x, y :: x in b && y in b && x.topic == y.topic ==> x == y
    ensures forall x :: x in b ==> multiset(b)[x] == 1
  {
    forall x | x in b
      ensures x in a && multiset(b)[x] == 1
    {
      assert x in multiset(b);
      var i :| 0 <= i < |a| && a[i] == x;
      assert a == a[..i] + [x] + a[i + 1..];
      assert x !in a[..i] && x !in a[i + 1..];
      assert multiset(a) == multiset(a[..i]) + multiset{x} + multiset(a[i + 1..]);
    }
  }

  lemma SmallestFirst(a: seq<SubscriptionSpec>, x: SubscriptionSpec)
    requires Sorted(a) && x in a
    ensures LexLeq(a[0].topic, x.topic)
  {
    LexTotal(x.topic, x.topic);
  }

  lemma HeadsAgree(a: seq<SubscriptionSpec>, b: seq<SubscriptionSpec>)
    requires Sorted(a) && Sorted(b) && multiset(a) == multiset(b) && a != [] && b != []
    requires forall x, y :: x in a && y in a && x.topic == y.topic ==> x == y
    ensures a[0] == b[0]
  {
    assert a[0] in multiset(b) && b[0] in multiset(a);
    SmallestFirst(a, b[0]);
    SmallestFirst(b, a[0]);
    LexTotal(a[0].topic, b[0].topic);
  }

  lemma TailBag(a: seq<SubscriptionSpec>)
    requires a != []
    ensures multiset(a[1..]) == multiset(a) - multiset{a[0]}
  {
    assert a == [a[0]] + a[1..];
  }

  /** A sorted arrangement of specs with distinct topics is unique. */
  lemma {:induction false} SortedIsUnique(a: seq<SubscriptionSpec>, b: seq<SubscriptionSpec>)
    requires Sorted(a) && Sorted(b) && multiset(a) == multiset(b)
    requires forall x, y :: x in a && y in a && x.topic == y.topic ==> x == y
    ensures a == b
  {
    assert |a| == |multiset(a)| == |multiset(b)| == |b|;
    if a != [] {
      HeadsAgree(a, b);
      TailBag(a);
      TailBag(b);
      SortedIsUnique(a[1..], b[1..]);
      assert a == [a[0]] + a[1..] && b == [b[0]] + b[1..];
    }
  }

  /** The revision names the set: two lists with distinct topics have the same revision iff they hold the same specs, in any order. */
  lemma RevisionNamesTheSet(a: seq<SubscriptionSpec>, b: seq<SubscriptionSpec>, ra: seq<SubscriptionSpec>, rb: seq<SubscriptionSpec>)
    requires RevisionOf(ra, a) && RevisionOf(rb, b) && DistinctTopics(a)
    ensures ra == rb <==> multiset(a) == multiset(b)
  {
    if multiset(a) == multiset(b) {
      DistinctTopicsPermute(a, ra);
      SortedIsUnique(ra, rb);
    }
  }

  // ---- Lists of a topic map ----

  /** `specs` lists the given topics of the map, each once, in some order. */
  ghost predicate Lists(specs: seq<SubscriptionSpec>, m: map<string, SubscriptionSpec>, topics: set<string>) {
    && topics <= m.Keys && DistinctTopics(specs)
    && (forall s :: s in specs ==> s.topic in topics && m[s.topic] == s)
    && (forall t :: t in topics ==> m[t] in specs)
  }

  lemma EmptyList(specs: seq<SubscriptionSpec>, m: map<string, SubscriptionSpec>, topics: set<string>)
    requires Lists(specs, m, topics)
    ensures specs == [] <==> topics == {}
  {
    assert specs != [] ==> specs[0] in specs;
    assert forall t :: t in topics ==> m[t] in specs;
  }

  lemma ListOne(specs: seq<SubscriptionSpec>, m: map<string, SubscriptionSpec>, topics: set<string>, t: string)
    requires Lists(specs, m, topics) && t in m && t !in topics && m[t].topic == t
    ensures Lists(specs + [m[t]], m, topics + {t})
  {
    assert forall i :: 0 <= i < |specs| ==> specs[i] in specs;
    assert (specs + [m[t]])[|specs|] == m[t];
    assert forall s :: s in specs ==> s in specs + [m[t]];
  }

  lemma {:induction false} ListSize(specs: seq<SubscriptionSpec>, m: map<string, SubscriptionSpec>, topics: set<string>)
    requires Lists(specs, m, topics) && forall t :: t in m ==> m[t].topic == t
    ensures |specs| == |topics|
    ensures SpecsByTopic(specs).Keys == topics && forall t :: t in topics ==> SpecsByTopic(specs)[t] == m[t]
  {
    if specs == [] {
      assert topics == {};
    } else {
      var front, last := specs[..|specs| - 1], specs[|specs| - 1];
      ListFront(specs, m, topics);
      ListSize(front, m, topics - {last.topic});
    }
  }

  lemma ListFront(specs: seq<SubscriptionSpec>, m: map<string, SubscriptionSpec>, topics: set<string>)
    requires Lists(specs, m, topics) && specs != [] && forall t :: t in m ==> m[t].topic == t
    ensures var last := specs[|specs| - 1];
            && last.topic in topics && m[last.topic] == last && Lists(specs[..|specs| - 1], m, topics - {last.topic})
  {
    var front, last := specs[..|specs| - 1], specs[|specs| - 1];
    assert last in specs;
    forall s | s in front
      ensures s in specs && s.topic != last.topic
    {
      var i :| 0 <= i < |front| && front[i] == s;
      assert specs[i] == s;
    }
    forall t | t in topics && t != last.topic
      ensures m[t] in front
    {
      var i :| 0 <= i < |specs| && specs[i] == m[t];
      assert front[i] == m[t];
    }
  }

  /** Sorting keeps what is listed. */
  lemma ListSorted(a: seq<SubscriptionSpec>, b: seq<SubscriptionSpec>, m: map<string, SubscriptionSpec>, topics: set<string>)
    requires Lists(a, m, topics) && multiset(a) == multiset(b)
    ensures Lists(b, m, topics)
  {
    DistinctTopicsPermute(a, b);
    assert forall s :: s in b <==> s in multiset(b);
    assert forall s :: s in a <==> s in multiset(a);
    forall i, j | 0 <= i < j < |b|
      ensures b[i].topic != b[j].topic
    {
      if b[i].topic == b[j].topic {
        assert b[i] in b && b[j] in b;
        TwiceInBag(b, i, j);
      }
    }
  }

  lemma TwiceInBag(b: seq<SubscriptionSpec>, i: nat, j: nat)
    requires i < j < |b| && b[i] == b[j]
    ensures multiset(b)[b[i]] >= 2
  {
    var head, tail := b[..j], b[j..];
    assert b == head + tail && head[i] == b[i] && tail[0] == b[i];
    assert b[i] in multiset(head) && b[i] in multiset(tail);
    assert multiset(b) == multiset(head) + multiset(tail);
  }

  // ---- Status ----

  function ReportedPoints(points: map<string, PointConfig>): map<string, SubscriptionSpec> {
    map t | t in points :: Reported(points[t])
  }

  /** Every applied topic once, with its effective settings, in whatever order the map yields them. */
  method SubscriptionStatus(points: map<string, PointConfig>) returns (specs: seq<SubscriptionSpec>)
    requires forall t :: t in points ==> points[t].topic == t
    ensures Lists(specs, ReportedPoints(points), points.Keys) && |specs| == |points|
    ensures SpecsByTopic(specs) == ReportedPoints(points)
  {
    specs := [];
    ghost var m := ReportedPoints(points);
    var rest := points.Keys;
    while rest != {}
      invariant rest <= points.Keys && Lists(specs, m, points.Keys - rest)
      decreases rest
    {
      var t :| t in rest;
      ListOne(specs, m, points.Keys - rest, t);
      specs := specs + [Reported(points[t])];
      assert points.Keys - (rest - {t}) == points.Keys - rest + {t};
      rest := rest - {t};
    }
    assert points.Keys - rest == points.Keys;
    ListSize(specs, m, points.Keys);
  }

  // ---- Diff ----

  datatype Diff = Diff(added: seq<SubscriptionSpec>, changed: seq<SubscriptionSpec>, removed: seq<SubscriptionSpec>, subscribedCount: nat)

  ghost function Only(a: map<string, SubscriptionSpec>, b: map<string, SubscriptionSpec>): set<string> {
    a.Keys - b.Keys
  }

  ghost function Differing(have: map<string, SubscriptionSpec>, want: map<string, SubscriptionSpec>): set<string> {
    set t | t in want && t in have && have[t] != want[t]
  }

  ghost predicate SortedList(specs: seq<SubscriptionSpec>, m: map<string, SubscriptionSpec>, topics: set<string>) {
    Lists(specs, m, topics) && Sorted(specs)
  }

  /** Added, changed and removed topics, each list sorted by topic, and the size of the desired list. */
  ghost predicate DiffOf(d: Diff, have: map<string, SubscriptionSpec>, want: map<string, SubscriptionSpec>, count: nat) {
    && SortedList(d.added, want, Only(want, have)) && SortedList(d.changed, want, Differing(have, want))
    && SortedList(d.removed, have, Only(have, want)) && d.subscribedCount == count
  }

  /** Nothing differs exactly when the two maps are equal. */
  lemma EmptyDiffIff(d: Diff, have: map<string, SubscriptionSpec>, want: map<string, SubscriptionSpec>, count: nat)
    requires DiffOf(d, have, want, count)
    ensures d == Diff([], [], [], count) <==> have == want
  {
    EmptyList(d.added, want, Only(want, have));
    EmptyList(d.changed, want, Differing(have, want));
    EmptyList(d.removed, have, Only(have, want));
    if d == Diff([], [], [], count) {
      assert forall t :: t in want ==> t !in Only(want, have) && t !in Differing(have, want);
      assert forall t :: t in have ==> t !in Only(have, want);
      assert have.Keys == want.Keys;
    }
  }

  method ComputeDiff(current: seq<SubscriptionSpec>, desired: seq<SubscriptionSpec>) returns (d: Diff)
    ensures DiffOf(d, SpecsByTopic(current), SpecsByTopic(desired), |desired|)
  {
    var have := Index(current);
    var want := Index(desired);
    var added, changed := AddedAndChanged(have, want);
    var removed := RemovedFrom(have, want);
    added := SortList(added, want, Only(want, have));
    changed := SortList(changed, want, Differing(have, want));
    removed := SortList(removed, have, Only(have, want));
    d := Diff(added, changed, removed, |desired|);
  }

  method SortList(specs: seq<SubscriptionSpec>, ghost m: map<string, SubscriptionSpec>, ghost topics: set<string>)
    returns (sorted: seq<SubscriptionSpec>)
    requires Lists(specs, m, topics)
    ensures SortedList(sorted, m, topics)
  {
    sorted := SortSpecs(specs);
    ListSorted(specs, sorted, m, topics);
  }

  /** The loop over the desired topics. */
  method AddedAndChanged(have: map<string, SubscriptionSpec>, want: map<string, SubscriptionSpec>)
    returns (added: seq<SubscriptionSpec>, changed: seq<SubscriptionSpec>)
    requires forall t :: t in want ==> want[t].topic == t
    ensures Lists(added, want, Only(want, have)) && Lists(changed, want, Differing(have, want))
  {
    added, changed := [], [];
    var rest := want.Keys;
    while rest != {}
      invariant rest <= want.Keys
      invariant Lists(added, want, Only(want, have) - rest) && Lists(changed, want, Differing(have, want) - rest)
      decreases rest
    {
      var t :| t in rest;
      if t !in have {
        ListOne(added, want, Only(want, have) - rest, t);
        added := added + [want[t]];
        assert Only(want, have) - (rest - {t}) == Only(want, have) - rest + {t};
        assert Differing(have, want) - (rest - {t}) == Differing(have, want) - rest;
      } else if have[t] != want[t] {
        ListOne(changed, want, Differing(have, want) - rest, t);
        changed := changed + [want[t]];
        assert Only(want, have) - (rest - {t}) == Only(want, have) - rest;
        assert Differing(have, want) - (rest - {t}) == Differing(have, want) - rest + {t};
      } else {
        assert Only(want, have) - (rest - {t}) == Only(want, have) - rest;
        assert Differing(have, want) - (rest - {t}) == Differing(have, want) - rest;
      }
      rest := rest - {t};
    }
    assert Only(want, have) - rest == Only(want, have) && Differing(have, want) - rest == Differing(have, want);
  }

  /** The loop over the current topics. */
  method RemovedFrom(have: map<string, SubscriptionSpec>, want: map<string, SubscriptionSpec>) returns (removed: seq<SubscriptionSpec>)
    requires forall t :: t in have ==> have[t].topic == t
    ensures Lists(removed, have, Only(have, want))
  {
    removed := [];
    var rest := have.Keys;
    while rest != {}
      invariant rest <= have.Keys && Lists(removed, have, Only(have, want) - rest)
      decreases rest
    {
      var t :| t in rest;
      if t !in want {
        ListOne(removed, have, Only(have, want) - rest, t);
        removed := removed + [have[t]];
        assert Only(have, want) - (rest - {t}) == Only(have, want) - rest + {t};
      } else {
        assert Only(have, want) - (rest - {t}) == Only(have, want) - rest;
      }
      rest := rest - {t};
    }
    assert Only(have, want) - rest == Only(have, want);
  }

  method Index(specs: seq<SubscriptionSpec>) returns (m: map<string, SubscriptionSpec>)
    ensures m == SpecsByTopic(specs) && forall t :: t in m ==> m[t].topic == t
  {
    m := map[];
    for i := 0 to |specs|
      invariant m == SpecsByTopic(specs[..i]) && forall t :: t in m ==> m[t].topic == t
    {
      assert specs[..i + 1][..i] == specs[..i];
      m := m[specs[i].topic := specs[i]];
    }
    assert specs[..|specs|] == specs;
  }

  // ---- Round trip ----

  lemma {:induction false} IndexCommutes(specs: seq<SubscriptionSpec>)
    ensures ByTopic(FromSpecs(specs)).Keys == SpecsByTopic(specs).Keys
    ensures forall t :: t in SpecsByTopic(specs) ==>
              ByTopic(FromSpecs(specs))[t] == FromSpec(SpecsByTopic(specs)[t]) && SpecsByTopic(specs)[t] in specs
  {
    if specs != [] {
      var front := specs[..|specs| - 1];
      IndexCommutes(front);
      assert FromSpecs(specs)[..|specs| - 1] == FromSpecs(front);
    }
  }

  /** The QoS the gateway asks for: a missing or zero setting falls back to 1. */
  function ClientQoS(configured: nat): (q: nat)
    ensures q == (if configured != 0 then configured else 1)
  {
    OrOne(configured)
  }

  ghost predicate SurvivesReport(specs: seq<SubscriptionSpec>) {
    forall s :: s in specs ==> Reported(FromSpec(s)) == s
  }

  /** A derived spec spells its defaults out, so reporting it back changes nothing. */
  lemma DerivedSurvivesReport(s: SubscriptionSpec, e: Entry, subQoS: nat, cmdQoS: nat)
    requires Describes(s, e, ClientQoS(subQoS), ClientQoS(cmdQoS))
    ensures Reported(FromSpec(s)) == s
  {
    ReportRoundTrip(s);
  }

  /** After a successful apply the reported state is the derived state, topic by topic. */
  lemma StatusIsDesired(specs: seq<SubscriptionSpec>, points: map<string, PointConfig>)
    requires SurvivesReport(specs) && points == ByTopic(FromSpecs(specs))
    ensures ReportedPoints(points) == SpecsByTopic(specs)
  {
    IndexCommutes(specs);
    var a, b := ReportedPoints(points), SpecsByTopic(specs);
    forall t | t in b
      ensures a[t] == b[t]
    {
      assert b[t] in specs;
    }
    assert a.Keys == b.Keys;
  }

  /** The desired set of a connector, with the client's default QoS filled in. */
  method Desired(entries: seq<Entry>, connectorId: string, subQoS: nat, cmdQoS: nat) returns (specs: seq<SubscriptionSpec>)
    ensures DerivedFrom(specs, entries, connectorId, ClientQoS(subQoS), ClientQoS(cmdQoS)) && SurvivesReport(specs)
  {
    specs := Derive(entries, connectorId, ClientQoS(subQoS), ClientQoS(cmdQoS));
    forall s | s in specs
      ensures Reported(FromSpec(s)) == s
    {
      var e :| e in entries && Describes(s, e, ClientQoS(subQoS), ClientQoS(cmdQoS));
      DerivedSurvivesReport(s, e, subQoS, cmdQoS);
    }
  }

  ghost predicate ValidSpecs(specs: seq<SubscriptionSpec>) {
    forall s :: s in specs ==> ValidPoint(FromSpec(s))
  }

  /**
   Validates every derived spec and pushes the set under its revision, some function of the
   list. The request or its answer may be lost; None means that nothing was heard.
   */
  method Apply(c: Connector, specs: seq<SubscriptionSpec>, revisionOf: seq<SubscriptionSpec> -> string) returns (reply: Option<Reply>)
    requires c.Valid()
    modifies c
    ensures c.Valid()
    ensures !ValidSpecs(specs) ==> reply == Some(Rejected) && unchanged(c)
    ensures c.topics == old(c.topics) || Committed(c.topics, specs, revisionOf)
    ensures reply.Some? && reply.value.Applied? ==> Committed(c.topics, specs, revisionOf)
  {
    reply := Some(Rejected);
    var ok := ValidatePoints(FromSpecs(specs));
    assert ok <==> ValidSpecs(specs) by {
      assert forall i :: 0 <= i < |specs| ==> FromSpecs(specs)[i] == FromSpec(specs[i]);
      assert forall s :: s in specs ==> FromSpec(s) in FromSpecs(specs);
    }
    if ok {
      var sent, answered: bool := *, *;
      reply := None;
      if sent {
        ghost var steps;
        var r;
        r, steps := c.ApplySubscriptions(true, specs, revisionOf(specs));
        reply := if answered then Some(r) else None;
      }
    }
  }

  ghost predicate Committed(topics: TopicIndex, specs: seq<SubscriptionSpec>, revisionOf: seq<SubscriptionSpec> -> string) {
    topics.revision == revisionOf(specs) && topics.points == ByTopic(FromSpecs(specs))
  }

  /** The differences, and the current and the target revision. */
  datatype Previewed = Previewed(diff: Diff, current: string, target: string)

  /** The reported state against the desired set; nothing, if the status request is not answered. */
  method Preview(answered: bool, topics: TopicIndex, specs: seq<SubscriptionSpec>, revisionOf: seq<SubscriptionSpec> -> string)
    returns (p: Option<Previewed>)
    requires forall t :: t in topics.points ==> topics.points[t].topic == t
    ensures p.Some? <==> answered
    ensures p.Some? ==> DiffOf(p.value.diff, ReportedPoints(topics.points), SpecsByTopic(specs), |specs|)
    ensures p.Some? ==> p.value.current == topics.revision && p.value.target == revisionOf(specs)
  {
    p := None;
    if answered {
      var status := SubscriptionStatus(topics.points);
      var d := ComputeDiff(status, specs);
      p := Some(Previewed(d, topics.revision, revisionOf(specs)));
    }
  }

  /**
   Derive, apply, then derive again, read the status back and diff: once the set is
   committed, answered or not, nothing is added, changed or removed and the revisions agree,
   for every list.
   */
  method ApplyThenPreview(c: Connector, entries: seq<Entry>, connectorId: string, subQoS: nat, cmdQoS: nat,
                          revisionOf: seq<SubscriptionSpec> -> string, answered: bool)
    returns (specs: seq<SubscriptionSpec>, reply: Option<Reply>, preview: Option<Previewed>)
    requires c.Valid()
    modifies c
    ensures c.Valid() && DerivedFrom(specs, entries, connectorId, ClientQoS(subQoS), ClientQoS(cmdQoS))
    ensures !ValidSpecs(specs) ==> reply == Some(Rejected)
    ensures reply.Some? && reply.value.Applied? ==> Committed(c.topics, specs, revisionOf)
    ensures preview.Some? <==> answered
    ensures Committed(c.topics, specs, revisionOf) && answered ==>
              preview.value.diff == Diff([], [], [], |specs|) && preview.value.current == preview.value.target
  {
    specs := Desired(entries, connectorId, subQoS, cmdQoS);
    reply := Apply(c, specs, revisionOf);
    var again := Desired(entries, connectorId, subQoS, cmdQoS);
    DerivedIsUnique(specs, again, entries, connectorId, ClientQoS(subQoS), ClientQoS(cmdQoS));
    preview := Preview(answered, c.topics, again, revisionOf);
    if Committed(c.topics, specs, revisionOf) && answered {
      StatusIsDesired(specs, c.topics.points);
      EmptyDiffIff(preview.value.diff, ReportedPoints(c.topics.points), SpecsByTopic(specs), |specs|);
    }
  }
}
